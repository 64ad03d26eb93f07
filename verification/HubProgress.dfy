/** What the hub lets its users do: join, send and receive, whatever else is going on. */
module HubProgress {
  import opened Outcomes
  import opened Fanout
  import opened HubMachine
  import opened HubGuarantees

  lemma FirstStep(st: State, step: Step, rest: seq<Step>)
    requires Enabled(st, step) && Runs(Next(st, step), rest)
    ensures Runs(st, [step] + rest) && After(st, [step] + rest) == After(Next(st, step), rest)
  {
    assert ([step] + rest)[1..] == rest;
  }

  /** Whenever the lock is free, a new listener can get as far as its loop, registered from
      then on for every broadcast, with nothing queued. */
  lemma CanJoin(st: State) returns (steps: seq<Step>)
    requires Inv(st) && Unlocked(st)
    ensures Runs(st, steps)
    ensures var end, s := After(st, steps), |st.sessions|;
            && end.sessions == st.sessions + [NEW_SESSION.(pc := Looping, since := |st.log|)]
            && end.listeners == st.listeners + {s} && end.gauge == st.gauge + 1
            && Unlocked(end) && end.conns == st.conns && end.log == st.log
  {
    var s := |st.sessions|;
    var s1 := Next(st, Connect);
    var s2 := Next(s1, LockToSubscribe(s));
    var s3 := Next(s2, Subscribe(s));
    FirstStep(s3, CountConnect(s), []);
    FirstStep(s2, Subscribe(s), [CountConnect(s)] + []);
    FirstStep(s1, LockToSubscribe(s), [Subscribe(s)] + ([CountConnect(s)] + []));
    FirstStep(st, Connect, [LockToSubscribe(s)] + ([Subscribe(s)] + ([CountConnect(s)] + [])));
    steps := [Connect] + ([LockToSubscribe(s)] + ([Subscribe(s)] + ([CountConnect(s)] + [])));
  }

  /** A listener in its loop can receive all that is queued for it, in order, one write after
      the other, and be back in its loop. */
  lemma {:induction false} CanReceive(st: State, s: nat) returns (steps: seq<Step>)
    requires s < |st.sessions| && st.sessions[s].pc == Looping
    ensures Runs(st, steps)
    ensures After(st, steps) == st.(sessions := st.sessions[s := st.sessions[s].(
              queue := [], taken := st.sessions[s].taken + st.sessions[s].queue)])
    decreases |st.sessions[s].queue|
  {
    var sess := st.sessions[s];
    if sess.queue == [] {
      steps := [];
      assert sess.taken + [] == sess.taken;
    } else {
      var s1 := Next(st, Take(s));
      var s2 := Next(s1, WriteSucceeds(s));
      assert s2 == st.(sessions := st.sessions[s := sess.(queue := sess.queue[1..],
                                                          taken := sess.taken + [sess.queue[0]])]);
      var rest := CanReceive(s2, s);
      assert sess.taken + [sess.queue[0]] + sess.queue[1..] == sess.taken + sess.queue;
      FirstStep(s1, WriteSucceeds(s), rest);
      FirstStep(st, Take(s), [WriteSucceeds(s)] + rest);
      steps := [Take(s)] + ([WriteSucceeds(s)] + rest);
    }
  }

  /** Unless a session is inside Subscribe or Unsubscribe, a broadcaster whose context is not
      done can read its next chunk and begin to broadcast it to every registered listener. */
  lemma CanSend(st: State, c: nat, order: seq<nat>) returns (steps: seq<Step>)
    requires c < |st.conns| && st.conns[c].pc.Reading? && !st.conns[c].cancelled && st.writer == None
    requires Distinct(order) && forall s :: s in order <==> s in st.listeners
    ensures Runs(st, steps)
    ensures var end, x := After(st, steps), Chunk(c, st.conns[c].next);
            && end.log == st.log + [x] && end.sessions == st.sessions
            && end.conns == st.conns[c := Conn(Broadcasting(x, Batches(order)), false, st.conns[c].next + 1)]
  {
    var s1 := Next(st, Read(c));
    FirstStep(s1, Begin(c, order), []);
    FirstStep(st, Read(c), [Begin(c, order)] + []);
    steps := [Read(c)] + ([Begin(c, order)] + []);
  }
}
