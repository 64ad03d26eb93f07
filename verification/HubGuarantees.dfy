/** The guarantees of the hub in every reachable state of every interleaving. */
module HubGuarantees {
  import opened Counting
  import opened Outcomes
  import opened Fanout
  import opened HubMachine
  import opened HubSafety
  import opened HubHistory

  // ---------------------------------------------------------------------
  // Order
  // ---------------------------------------------------------------------

  // What the listener has received, followed by what is queued for it.
  function History(sess: Session): seq<Chunk> {
    sess.taken + sess.queue
  }

  ghost predicate OrderInv(st: State) {
    forall s :: 0 <= s < |st.sessions| ==> Ordered(History(st.sessions[s]))
  }

  lemma {:induction false} OrderedOnce(h: seq<Chunk>, x: Chunk)
    requires Ordered(h)
    ensures multiset(h)[x] <= 1
  {
    if h == [] {
    } else {
      var n := |h| - 1;
      assert h == h[..n] + [h[n]];
      OrderedOnce(h[..n], x);
      if h[n] == x { assert x !in h[..n]; }
    }
  }

  lemma HistoryIsLogged(st: State, s: nat, y: Chunk)
    requires s < |st.sessions| && Conserves(st.log, st.conns, s, st.sessions[s]) && y in History(st.sessions[s])
    ensures Settled(st.sessions[s])[y] >= 1
    ensures y in Span(st.log, st.sessions[s]) && y in st.log
  {
    var sess := st.sessions[s];
    assert y in multiset(sess.taken) || y in multiset(sess.queue);
    assert Settled(sess)[y] + Pending(st.conns, s, y) == multiset(Span(st.log, sess))[y];
    assert y in multiset(Span(st.log, sess));
  }

  lemma SpanOrdered(log: seq<Chunk>, sess: Session)
    requires Ordered(log) && HasBounds(log, sess)
    ensures Ordered(Span(log, sess))
  {
  }

  // A chunk still pending for a session is newer than all it has of that connection.
  lemma PendingIsNewest(st: State, c: nat, s: nat, y: Chunk)
    requires LogInv(st) && ConservationInv(st) && s < |st.sessions| && c < |st.conns|
    requires st.conns[c].pc.Broadcasting? && InShards(st.conns[c].pc.shards, s)
    requires y in History(st.sessions[s]) && y.conn == c
    ensures y.num < st.conns[c].pc.chunk.num
  {
    var sess, x := st.sessions[s], st.conns[c].pc.chunk;
    assert Conserves(st.log, st.conns, s, sess) && ConnOk(st.log, c, st.conns[c]);
    HistoryIsLogged(st, s, y);
    assert Known(st.conns, y);
    SpanOrdered(st.log, sess);
    OrderedOnce(Span(st.log, sess), x);
    assert Settled(sess)[x] + Pending(st.conns, s, x) == multiset(Span(st.log, sess))[x];
  }

  lemma PushKeepsOrder(h: seq<Chunk>, x: Chunk)
    requires Ordered(h) && forall y :: y in h && y.conn == x.conn ==> y.num < x.num
    ensures Ordered(h + [x])
  {
    forall p, q | 0 <= p < q < |h + [x]| && (h + [x])[p].conn == (h + [x])[q].conn
      ensures (h + [x])[p].num < (h + [x])[q].num
    {
      if q == |h| { assert h[p] in h; }
    }
  }

  lemma HandleKeepsOrder(st: State, step: Step)
    requires LogInv(st) && BroadcastInv(st) && ConservationInv(st) && OrderInv(st)
    requires step.Handle? && ConnEnabled(st, step)
    ensures OrderInv(ConnNext(st, step))
  {
    var c, e := step.c, Target(st, step.c, step.j);
    var x := st.conns[c].pc.chunk;
    var h := History(st.sessions[e]);
    assert ConnOk(st.log, c, st.conns[c]);
    HandleShards(st.listeners, st.conns[c].pc.shards, step.j);
    forall y | y in h && y.conn == c ensures y.num < x.num { PendingIsNewest(st, c, e, y); }
    PushKeepsOrder(h, x);
    assert History(Deliver(st.sessions[e], x, st.capacity))
        == if |st.sessions[e].queue| < st.capacity then h + [x] else h;
  }

  lemma OrderStep(st: State, step: Step)
    requires LogInv(st) && BroadcastInv(st) && ConservationInv(st) && OrderInv(st) && Enabled(st, step)
    ensures OrderInv(Next(st, step))
  {
    if SessionEnabled(st, step) {
      SessionKeepsOrder(st, step);
    } else if step.Handle? {
      HandleKeepsOrder(st, step);
    } else {
      forall s | 0 <= s < |Next(st, step).sessions| ensures Ordered(History(Next(st, step).sessions[s])) {
        assert History(Next(st, step).sessions[s]) == History(st.sessions[s]);
      }
    }
  }

  lemma SessionKeepsOrder(st: State, step: Step)
    requires OrderInv(st) && SessionEnabled(st, step)
    ensures OrderInv(SessionNext(st, step))
  {
    if !step.Connect? {
      var s := SessionOf(step);
      assert History(SessionNext(st, step).sessions[s]) == History(st.sessions[s]);
    }
  }

  // ---------------------------------------------------------------------
  // Counters
  // ---------------------------------------------------------------------

  function Counted(sess: Session): int { if IsCounted(sess.pc) then 1 else 0 }
  function Lost(sess: Session): int { |sess.lost| }

  // The active-listener gauge counts the sessions between their two counting steps; the
  // drop counter is the sum of what the listeners lost.
  ghost predicate CountInv(st: State) {
    st.gauge == Sum(Counted, st.sessions) && st.drops == Sum(Lost, st.sessions)
  }

  lemma CountStep(st: State, step: Step)
    requires CountInv(st) && Enabled(st, step)
    ensures CountInv(Next(st, step))
  {
    if SessionEnabled(st, step) {
      SessionCountStep(st, step);
    } else if ConnEnabled(st, step) {
      ConnCountStep(st, step);
    }
  }

  lemma SessionCountStep(st: State, step: Step)
    requires CountInv(st) && SessionEnabled(st, step)
    ensures CountInv(SessionNext(st, step))
  {
    var st' := SessionNext(st, step);
    if step.Connect? {
      SumAppend(Counted, st.sessions, NEW_SESSION);
      SumAppend(Lost, st.sessions, NEW_SESSION);
    } else {
      var s := SessionOf(step);
      SumUpdate(Counted, st.sessions, s, st'.sessions[s]);
      SumUpdate(Lost, st.sessions, s, st'.sessions[s]);
    }
  }

  lemma ConnCountStep(st: State, step: Step)
    requires CountInv(st) && ConnEnabled(st, step)
    ensures CountInv(ConnNext(st, step))
  {
    var st' := ConnNext(st, step);
    if step.Handle? {
      var e := Target(st, step.c, step.j);
      SumUpdate(Counted, st.sessions, e, st'.sessions[e]);
      SumUpdate(Lost, st.sessions, e, st'.sessions[e]);
    } else {
      SumSame(Counted, Counted, st.sessions, st'.sessions);
      SumSame(Lost, Lost, st.sessions, st'.sessions);
    }
  }

  // ---------------------------------------------------------------------
  // What is given up
  // ---------------------------------------------------------------------

  // Only a connection whose context is done gives up listeners, and only its own chunk.
  ghost predicate SkipInv(st: State) {
    forall s, x :: 0 <= s < |st.sessions| && x in st.sessions[s].skipped ==>
      x.conn < |st.conns| && st.conns[x.conn].cancelled
  }

  lemma SkipStep(st: State, step: Step)
    requires LogInv(st) && SkipInv(st) && Enabled(st, step)
    ensures SkipInv(Next(st, step))
  {
    if SessionEnabled(st, step) {
      SessionSkipsNothing(st, step);
    } else if ConnEnabled(st, step) {
      ConnsStayCancelled(st, step);
      if step.GiveUp? {
        GiveUpSkipsOwn(st, step);
      } else {
        ConnSkipsNothing(st, step);
      }
    }
  }

  lemma SessionSkipsNothing(st: State, step: Step)
    requires SessionEnabled(st, step) && SkipInv(st)
    ensures SkipInv(SessionNext(st, step))
  {
    assert forall s :: 0 <= s < |st.sessions| ==> SessionNext(st, step).sessions[s].skipped == st.sessions[s].skipped;
  }

  lemma ConnsStayCancelled(st: State, step: Step)
    requires ConnEnabled(st, step)
    ensures |st.conns| <= |ConnNext(st, step).conns|
    ensures forall c :: 0 <= c < |st.conns| && st.conns[c].cancelled ==> ConnNext(st, step).conns[c].cancelled
  {
  }

  lemma ConnSkipsNothing(st: State, step: Step)
    requires ConnEnabled(st, step) && !step.GiveUp?
    ensures |ConnNext(st, step).sessions| == |st.sessions|
    ensures forall s :: 0 <= s < |st.sessions| ==> ConnNext(st, step).sessions[s].skipped == st.sessions[s].skipped
  {
  }

  lemma GiveUpSkipsOwn(st: State, step: Step)
    requires LogInv(st) && SkipInv(st) && step.GiveUp? && ConnEnabled(st, step)
    ensures SkipInv(ConnNext(st, step))
  {
    assert ConnOk(st.log, step.c, st.conns[step.c]);
    var x := st.conns[step.c].pc.chunk;
    forall s, y | 0 <= s < |st.sessions| && y in ConnNext(st, step).sessions[s].skipped
      ensures y.conn < |st.conns| && st.conns[y.conn].cancelled
    {
      assert y in st.sessions[s].skipped || y == x;
    }
  }

  // ---------------------------------------------------------------------
  // Every reachable state
  // ---------------------------------------------------------------------

  ghost predicate Inv(st: State) {
    && LockInv(st) && ChannelInv(st) && BroadcastInv(st) && LogInv(st) && ConservationInv(st) && OrderInv(st)
    && CountInv(st) && SkipInv(st)
  }

  lemma InvStep(st: State, step: Step)
    requires Inv(st) && Enabled(st, step)
    ensures Inv(Next(st, step))
  {
    LockStep(st, step);
    ChannelStep(st, step);
    BroadcastStep(st, step);
    LogStep(st, step);
    ConservationStep(st, step);
    OrderStep(st, step);
    CountStep(st, step);
    SkipStep(st, step);
  }

  lemma {:induction false} InvKept(st: State, steps: seq<Step>)
    requires Inv(st) && Runs(st, steps)
    ensures Inv(After(st, steps))
    decreases |steps|
  {
    if steps == [] {
    } else {
      InvStep(st, steps[0]);
      InvKept(Next(st, steps[0]), steps[1..]);
    }
  }

  /** Every state reached from a new hub by any schedule satisfies the invariant. */
  lemma Reachable(capacity: nat, steps: seq<Step>)
    requires capacity >= 1 && Runs(Start(capacity), steps)
    ensures Inv(After(Start(capacity), steps))
  {
    InvKept(Start(capacity), steps);
  }

  // ---------------------------------------------------------------------
  // What the invariant means
  // ---------------------------------------------------------------------

  /** No step sends on a closed channel, and none closes a channel twice; a session in its
      receive loop is registered and its channel open; the closed-channel branch of the
      loop is never taken, so no disconnect is ever counted as stream_ended. */
  lemma LockSafety(st: State, step: Step)
    requires Inv(st) && Enabled(st, step)
    ensures step.Handle? ==>
              var e := Target(st, step.c, step.j);
              e in st.listeners && st.sessions[e].closes == 0 && st.writer == None
    ensures step.Unsubscribe? ==> st.sessions[step.s].closes == 0 && st.readers == 0
    ensures !step.SeesClosedChannel?
    ensures forall s :: 0 <= s < |st.sessions| ==>
              && StreamEnded !in st.sessions[s].reasons
              && st.sessions[s].closes == (if st.sessions[s].pc.Finished? then 1 else 0)
              && (s in st.listeners <==> IsRegistered(st.sessions[s].pc))
  {
    if step.Handle? {
      var e := Target(st, step.c, step.j);
      assert e in st.listeners;
      assert ChannelOk(st.capacity, st.sessions[e]);
      SumAtLeast(InFlight, st.conns, step.c);
    }
    forall s | 0 <= s < |st.sessions|
      ensures StreamEnded !in st.sessions[s].reasons
      ensures st.sessions[s].closes == (if st.sessions[s].pc.Finished? then 1 else 0)
    {
      assert ChannelOk(st.capacity, st.sessions[s]);
    }
  }

  // Where a chunk is in a history that holds it.
  function Position(span: seq<Chunk>, x: Chunk): (p: nat)
    requires x in span
    ensures p < |span| && span[p] == x
  {
    if span[0] == x then 0 else 1 + Position(span[1..], x)
  }

  // In an ordered history, positions follow the order of each connection's chunks.
  lemma PositionsFollow(span: seq<Chunk>, x: Chunk, y: Chunk)
    requires Ordered(span) && x in span && y in span && x.conn == y.conn && x.num < y.num
    ensures Position(span, x) < Position(span, y)
  {
  }

  lemma HistoryInSpan(st: State, s: nat)
    requires Inv(st) && s < |st.sessions|
    ensures HasBounds(st.log, st.sessions[s]) && Ordered(Span(st.log, st.sessions[s]))
    ensures forall x :: x in History(st.sessions[s]) ==> x in Span(st.log, st.sessions[s])
  {
    assert Conserves(st.log, st.conns, s, st.sessions[s]);
    SpanOrdered(st.log, st.sessions[s]);
    forall x | x in History(st.sessions[s]) ensures x in Span(st.log, st.sessions[s]) { HistoryIsLogged(st, s, x); }
  }

  /** What a listener has received followed by what is queued for it comes from the broadcasts
      begun since its subscribe: each position has a broadcast of its own, so no chunk is
      there twice, and those of one connection are in the order of their broadcasts. */
  lemma DeliveryIsOrdered(st: State, s: nat) returns (at: seq<nat>)
    requires Inv(st) && s < |st.sessions|
    ensures HasBounds(st.log, st.sessions[s])
    ensures var h, span := History(st.sessions[s]), Span(st.log, st.sessions[s]);
            && |at| == |h|
            && (forall i :: 0 <= i < |h| ==> at[i] < |span| && span[at[i]] == h[i])
            && (forall i, j :: 0 <= i < j < |h| ==> at[i] != at[j] && h[i] != h[j])
            && (forall i, j :: 0 <= i < j < |h| && h[i].conn == h[j].conn ==> at[i] < at[j])
  {
    HistoryInSpan(st, s);
    at := Embed(History(st.sessions[s]), Span(st.log, st.sessions[s]));
  }

  lemma Embed(h: seq<Chunk>, span: seq<Chunk>) returns (at: seq<nat>)
    requires Ordered(h) && Ordered(span) && forall x :: x in h ==> x in span
    ensures |at| == |h|
    ensures forall i :: 0 <= i < |h| ==> at[i] < |span| && span[at[i]] == h[i]
    ensures forall i, j :: 0 <= i < j < |h| ==> at[i] != at[j] && h[i] != h[j]
    ensures forall i, j :: 0 <= i < j < |h| && h[i].conn == h[j].conn ==> at[i] < at[j]
  {
    at := seq(|h|, i requires 0 <= i < |h| => Position(span, h[i]));
    forall i, j | 0 <= i < j < |h| && h[i].conn == h[j].conn ensures at[i] < at[j] {
      PositionsFollow(span, h[i], h[j]);
    }
  }

  /** With no broadcast in flight, the broadcasts begun since a listener's subscribe are
      exactly those it received, those queued for it, those dropped for it and those a
      cancelled broadcaster gave up, counted once each. */
  lemma BroadcastsAreConserved(st: State, s: nat)
    requires Inv(st) && st.readers == 0 && s < |st.sessions|
    ensures HasBounds(st.log, st.sessions[s])
    ensures var sess := st.sessions[s];
            && multiset(Span(st.log, sess)) == Settled(sess)
            && |Span(st.log, sess)| == |sess.taken| + |sess.queue| + |sess.lost| + |sess.skipped|
  {
    var sess := st.sessions[s];
    assert Conserves(st.log, st.conns, s, sess);
    forall x ensures Settled(sess)[x] == multiset(Span(st.log, sess))[x] {
      if x.conn < |st.conns| { NoBroadcastInFlight(st, x.conn); }
      assert Settled(sess)[x] + Pending(st.conns, s, x) == multiset(Span(st.log, sess))[x];
    }
    assert multiset(Span(st.log, sess)) == Settled(sess);
    assert |multiset(Span(st.log, sess))| == |Settled(sess)|;
  }

  /** Whatever other connections do or give up, each chunk of a connection whose context is
      not done was, for every listener registered when its broadcast began, received, queued
      or dropped, or is still pending in a shard; between broadcasts, nothing is pending. */
  lemma UncancelledChunksAreConserved(st: State, s: nat, x: Chunk)
    requires Inv(st) && s < |st.sessions| && x.conn < |st.conns| && !st.conns[x.conn].cancelled
    ensures HasBounds(st.log, st.sessions[s])
    ensures var sess := st.sessions[s];
            multiset(Span(st.log, sess))[x]
            == multiset(sess.taken)[x] + multiset(sess.queue)[x] + multiset(sess.lost)[x] + Pending(st.conns, s, x)
    ensures !st.conns[x.conn].pc.Broadcasting? ==> Pending(st.conns, s, x) == 0
  {
    var sess := st.sessions[s];
    assert Conserves(st.log, st.conns, s, sess);
    assert x !in sess.skipped;
    assert Settled(sess)[x] + Pending(st.conns, s, x) == multiset(Span(st.log, sess))[x];
  }
}
