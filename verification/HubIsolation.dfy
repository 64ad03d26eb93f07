/** A slow listener delays neither the broadcasters nor another listener. */
module HubIsolation {
  import opened Counting
  import opened HubMachine
  import opened HubSafety
  import opened HubGuarantees
  import opened HubRefine
  import opened HubDrain

  // Another session consumes what is queued for it.
  predicate Private(step: Step, me: nat) {
    (step.Take? || step.WriteSucceeds?) && step.s != me
  }

  predicate SamePlace(a: ListenPc, b: ListenPc) {
    a == b || ((a.Looping? || a.Writing?) && (b.Looping? || b.Writing?))
  }

  // Two records of another session that differ in what it has consumed only.
  predicate Alike(a: Session, b: Session) {
    && SamePlace(a.pc, b.pc)
    && a.cancelled == b.cancelled && a.closes == b.closes && a.reasons == b.reasons
    && a.since == b.since && a.until == b.until
  }

  // The states agree on listener `me`, on the lock, on every broadcast and on every
  // counter but the drops of the other listeners.
  ghost predicate Agree(a: State, b: State, me: nat) {
    && a.capacity == b.capacity && a.closed == b.closed && a.writer == b.writer && a.readers == b.readers
    && a.listeners == b.listeners && a.conns == b.conns && a.log == b.log && a.gauge == b.gauge
    && |a.sessions| == |b.sessions|
    && (me < |a.sessions| ==> a.sessions[me] == b.sessions[me])
    && forall s :: 0 <= s < |a.sessions| ==> Alike(a.sessions[s], b.sessions[s])
  }

  // The schedule without the other listeners' consumption.
  function Public(steps: seq<Step>, me: nat): seq<Step> {
    if steps == [] then []
    else (if Private(steps[0], me) then [] else [steps[0]]) + Public(steps[1..], me)
  }

  lemma PrivateStepAgrees(a: State, b: State, me: nat, step: Step)
    requires Agree(a, b, me) && Private(step, me) && Enabled(a, step)
    ensures Agree(Next(a, step), b, me)
  {
  }

  lemma AgreeSymmetric(a: State, b: State, me: nat)
    requires Agree(a, b, me)
    ensures Agree(b, a, me)
  {
  }

  lemma SessionStepAgrees(a: State, b: State, me: nat, step: Step)
    requires Agree(a, b, me) && !Private(step, me) && SessionEnabled(a, step) && SessionEnabled(b, step)
    ensures Agree(SessionNext(a, step), SessionNext(b, step), me)
  {
    if !step.Connect? {
      var s := SessionOf(step);
      MoverAgrees(a, b, me, step);
      OnlyTheMoverMoves(a, step);
      OnlyTheMoverMoves(b, step);
      SharedPartsAgree(a, b, me, step);
      var a', b' := SessionNext(a, step).sessions, SessionNext(b, step).sessions;
      forall k | 0 <= k < |a'| ensures Alike(a'[k], b'[k]) {
        if k != s { assert Alike(a.sessions[k], b.sessions[k]); }
      }
    }
  }

  lemma MoverAgrees(a: State, b: State, me: nat, step: Step)
    requires Agree(a, b, me) && !Private(step, me) && SessionEnabled(a, step) && SessionEnabled(b, step)
    requires !step.Connect?
    ensures var s := SessionOf(step);
            && Alike(SessionNext(a, step).sessions[s], SessionNext(b, step).sessions[s])
            && (s == me ==> SessionNext(a, step).sessions[s] == SessionNext(b, step).sessions[s])
  {
    assert Alike(a.sessions[SessionOf(step)], b.sessions[SessionOf(step)]);
  }

  lemma OnlyTheMoverMoves(st: State, step: Step)
    requires SessionEnabled(st, step) && !step.Connect?
    ensures var s := SessionOf(step);
            SessionNext(st, step).sessions == st.sessions[s := SessionNext(st, step).sessions[s]]
  {
  }

  lemma SharedPartsAgree(a: State, b: State, me: nat, step: Step)
    requires Agree(a, b, me) && SessionEnabled(a, step) && SessionEnabled(b, step)
    ensures var a', b' := SessionNext(a, step), SessionNext(b, step);
            && a'.capacity == b'.capacity && a'.closed == b'.closed && a'.writer == b'.writer
            && a'.readers == b'.readers && a'.listeners == b'.listeners && a'.conns == b'.conns
            && a'.log == b'.log && a'.gauge == b'.gauge
  {
  }

  lemma ConnStepAgrees(a: State, b: State, me: nat, step: Step)
    requires Agree(a, b, me) && ConnEnabled(a, step) && ConnEnabled(b, step)
    ensures Agree(ConnNext(a, step), ConnNext(b, step), me)
  {
    if step.Handle? {
      HandleAgrees(a, b, me, step);
    } else if step.GiveUp? {
      GiveUpAgrees(a, b, me, step);
    }
  }

  lemma HandleAgrees(a: State, b: State, me: nat, step: Step)
    requires Agree(a, b, me) && step.Handle? && ConnEnabled(a, step) && ConnEnabled(b, step)
    ensures Agree(ConnNext(a, step), ConnNext(b, step), me)
  {
  }

  lemma GiveUpAgrees(a: State, b: State, me: nat, step: Step)
    requires Agree(a, b, me) && step.GiveUp? && ConnEnabled(a, step) && ConnEnabled(b, step)
    ensures Agree(ConnNext(a, step), ConnNext(b, step), me)
  {
  }

  lemma SharedStepAgrees(a: State, b: State, me: nat, step: Step)
    requires Agree(a, b, me) && !Private(step, me) && Enabled(a, step) && Enabled(b, step)
    ensures Agree(Next(a, step), Next(b, step), me)
  {
    if SessionEnabled(a, step) {
      SessionStepAgrees(a, b, me, step);
    } else if ConnEnabled(a, step) {
      ConnStepAgrees(a, b, me, step);
    }
  }

  /** Two runs with the same schedule up to when the other listeners take chunks off
      their channels: listener `me` ends with the same queue, the same history and the
      same drops, and every broadcast is at the same point. */
  lemma {:induction false} SlowListenersAreIsolated(a: State, b: State, me: nat, stepsA: seq<Step>, stepsB: seq<Step>)
    requires Agree(a, b, me) && Runs(a, stepsA) && Runs(b, stepsB)
    requires Public(stepsA, me) == Public(stepsB, me)
    ensures Agree(After(a, stepsA), After(b, stepsB), me)
    decreases |stepsA| + |stepsB|
  {
    if stepsA != [] && Private(stepsA[0], me) {
      PrivateStepAgrees(a, b, me, stepsA[0]);
      SlowListenersAreIsolated(Next(a, stepsA[0]), b, me, stepsA[1..], stepsB);
    } else if stepsB != [] && Private(stepsB[0], me) {
      AgreeSymmetric(a, b, me);
      PrivateStepAgrees(b, a, me, stepsB[0]);
      AgreeSymmetric(Next(b, stepsB[0]), a, me);
      SlowListenersAreIsolated(a, Next(b, stepsB[0]), me, stepsA, stepsB[1..]);
    } else if stepsA != [] {
      assert Public(stepsA, me)[0] == stepsA[0] && stepsB != [];
      assert Public(stepsB, me)[0] == stepsB[0];
      assert Public(stepsA, me)[1..] == Public(stepsA[1..], me);
      assert Public(stepsB, me)[1..] == Public(stepsB[1..], me);
      SharedStepAgrees(a, b, me, stepsA[0]);
      SlowListenersAreIsolated(Next(a, stepsA[0]), Next(b, stepsB[0]), me, stepsA[1..], stepsB[1..]);
    }
  }

  /** What the other listeners have consumed never enables or disables a step of an
      uncancelled ingest connection: no full buffer delays a broadcaster. */
  lemma BroadcastNeverWaits(a: State, b: State, me: nat, step: Step)
    requires Agree(a, b, me)
    requires step.Read? || step.Begin? || step.Handle? || step.End?
    requires step.c < |a.conns| && !a.conns[step.c].cancelled
    ensures Enabled(a, step) <==> Enabled(b, step)
    ensures step.Handle? ==> (Enabled(a, step) <==> SendsTo(a, step.c, step.j))
  {
  }

  // A step of connection c's own broadcast.
  predicate IsOwn(step: Step, c: nat) {
    (step.Handle? || step.GiveUp? || step.End?) && step.c == c
  }

  function OwnCount(c: nat, steps: seq<Step>): nat {
    if steps == [] then 0 else (if IsOwn(steps[0], c) then 1 else 0) + OwnCount(c, steps[1..])
  }

  // The entries that connection c's shards still hold.
  function Left(st: State, c: nat): int
    requires c < |st.conns| && st.conns[c].pc.Broadcasting?
  {
    Sum(Len, st.conns[c].pc.shards)
  }

  /** In every reachable state a broadcast in flight can go on by itself, whatever locks are
      asked for and however full the listeners' queues are. */
  lemma BroadcastCanGoOn(st: State, c: nat) returns (step: Step)
    requires Inv(st) && InFlightAt(st, c)
    ensures IsOwn(step, c) && Enabled(st, step)
  {
    var shards := st.conns[c].pc.shards;
    if forall j :: 0 <= j < |shards| ==> shards[j] == [] {
      step := End(c);
    } else {
      var j :| 0 <= j < |shards| && shards[j] != [];
      if st.conns[c].cancelled {
        step := GiveUp(c, j);
      } else {
        step := Handle(c, j);
        assert ShardsOk(st.listeners, shards);
        assert shards[j][0] in st.listeners;
      }
    }
  }

  /** And in any run it is over after at most one step of its own per entry its shards hold,
      and one more: as long as it is in flight, its own steps and what is left do not exceed
      what its shards held. */
  lemma {:induction false} BroadcastIsBounded(st: State, c: nat, steps: seq<Step>)
    requires InFlightAt(st, c) && Runs(st, steps) && NoEnd(c, steps)
    ensures InFlightAt(After(st, steps), c)
    ensures OwnCount(c, steps) + Left(After(st, steps), c) <= Left(st, c) && Left(After(st, steps), c) >= 0
    decreases |steps|
  {
    if steps == [] {
      SumNonNegative(Len, st.conns[c].pc.shards);
    } else {
      var step, shards := steps[0], st.conns[c].pc.shards;
      assert steps[0] != End(c);
      if IsHandle(step, c) || IsGiveUp(step, c) {
        OwnStepShards(st, c, step);
        SumUpdate(Len, shards, step.j, if step.Handle? then shards[step.j][1..] else []);
      } else {
        OtherStepKeepsShards(st, c, step);
      }
      BroadcastIsBounded(Next(st, step), c, steps[1..]);
    }
  }
}
