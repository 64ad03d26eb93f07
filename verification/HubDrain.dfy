/** A hub without newcomers goes on only as long as its broadcasters send, and after Close it
empties in a bounded number of steps. */
module HubDrain {
  import opened Counting
  import opened Fanout
  import opened HubMachine
  import opened HubSafety
  import opened HubGuarantees

  // A step other than the arrival of a new session or connection.
  predicate NotNew(step: Step) {
    !step.Connect? && !step.Attach?
  }

  ghost predicate NobodyNew(steps: seq<Step>) {
    forall i :: 0 <= i < |steps| ==> NotNew(steps[i])
  }

  // The messages that broadcasters send during the run.
  function Reads(steps: seq<Step>): nat {
    if steps == [] then 0 else (if steps[0].Read? then 1 else 0) + Reads(steps[1..])
  }

  // ---------------------------------------------------------------------
  // The measure
  // ---------------------------------------------------------------------

  function PcWeight(pc: ListenPc): int {
    match pc
    case WantsToSubscribe => 9
    case HoldsToSubscribe => 8
    case Registered => 7
    case Looping => 5
    case Writing(_) => 6
    case Leaving(_) => 4
    case WantsToUnsubscribe => 3
    case HoldsToUnsubscribe => 2
    case Finished => 0
  }

  function SessionWeight(sess: Session): int {
    PcWeight(sess.pc) + 2 * |sess.queue| + (if sess.cancelled then 0 else 1)
  }

  function Len(s: seq<nat>): int { |s| }

  // A pending shard entry weighs more than the chunk it can put into a queue; a
  // connection that has yet to begin weighs enough for every listener.
  function ConnWeight(listeners: nat, conn: Conn): int {
    (if conn.cancelled then 0 else 1)
    + match conn.pc
      case Gone => 0
      case Reading => 1
      case Broadcasting(_, shards) => 2 + 3 * Sum(Len, shards)
      case WantsToBroadcast(_) => 3 + 3 * listeners
  }

  function ConnWeightFor(listeners: nat): Conn -> int {
    (conn: Conn) => ConnWeight(listeners, conn)
  }

  function Measure(st: State): int {
    Sum(SessionWeight, st.sessions) + Sum(ConnWeightFor(|st.sessions|), st.conns) + (if st.closed then 0 else 1)
  }

  lemma MeasureNonNegative(st: State)
    ensures Measure(st) >= 0
  {
    SumNonNegative(SessionWeight, st.sessions);
    forall c | 0 <= c < |st.conns| ensures ConnWeightFor(|st.sessions|)(st.conns[c]) >= 0 {
      ConnWeightNonNegative(|st.sessions|, st.conns[c]);
    }
    SumNonNegative(ConnWeightFor(|st.sessions|), st.conns);
  }

  lemma ConnWeightNonNegative(listeners: nat, conn: Conn)
    ensures ConnWeight(listeners, conn) >= 0
  {
    if conn.pc.Broadcasting? { SumNonNegative(Len, conn.pc.shards); }
  }

  lemma {:induction false} ConcatLength(parts: seq<seq<nat>>)
    ensures Sum(Len, parts) == |Concat(parts)|
  {
    if parts == [] {
    } else {
      var n := |parts| - 1;
      assert parts == parts[..n] + [parts[n]];
      SumAppend(Len, parts[..n], parts[n]);
      ConcatLength(parts[..n]);
    }
  }

  function Below(n: nat): (r: set<nat>)
    ensures forall i :: i in r ==> i < n
    ensures |r| == n
  {
    if n == 0 then {} else Below(n - 1) + {n - 1}
  }

  lemma {:induction false} AllBelow(n: nat, i: nat)
    requires i < n
    ensures i in Below(n)
  {
    if i < n - 1 { AllBelow(n - 1, i); }
  }

  lemma {:induction false} DistinctWithin(order: seq<nat>, members: set<nat>)
    requires Distinct(order) && forall i :: 0 <= i < |order| ==> order[i] in members
    ensures |order| <= |members|
  {
    if order == [] {
    } else {
      var n := |order| - 1;
      DistinctWithin(order[..n], members - {order[n]});
    }
  }

  // Distinct indices into a table are no more than its entries.
  lemma DistinctBelow(order: seq<nat>, n: nat)
    requires Distinct(order) && forall i :: 0 <= i < |order| ==> order[i] < n
    ensures |order| <= n
  {
    forall i | 0 <= i < |order| ensures order[i] in Below(n) { AllBelow(n, order[i]); }
    DistinctWithin(order, Below(n));
  }

  // ---------------------------------------------------------------------
  // Every step counts
  // ---------------------------------------------------------------------

  lemma SessionWeightDrops(st: State, step: Step)
    requires NotNew(step) && SessionEnabled(st, step)
    ensures var s := SessionOf(step);
            && s < |st.sessions|
            && SessionNext(st, step).sessions == st.sessions[s := SessionNext(st, step).sessions[s]]
            && SessionWeight(SessionNext(st, step).sessions[s]) < SessionWeight(st.sessions[s])
  {
  }

  lemma SessionStepDecreases(st: State, step: Step)
    requires NotNew(step) && SessionEnabled(st, step)
    ensures Measure(SessionNext(st, step)) < Measure(st)
  {
    var s, st' := SessionOf(step), SessionNext(st, step);
    SessionWeightDrops(st, step);
    SumUpdate(SessionWeight, st.sessions, s, st'.sessions[s]);
    assert st'.conns == st.conns && |st'.sessions| == |st.sessions|;
  }

  lemma HandleDecreases(st: State, step: Step)
    requires step.Handle? && ConnEnabled(st, step)
    ensures |ConnNext(st, step).sessions| == |st.sessions|
    ensures Measure(ConnNext(st, step)) < Measure(st)
  {
    var e, c := Target(st, step.c, step.j), step.c;
    var shards, st' := st.conns[c].pc.shards, ConnNext(st, step);
    SumUpdate(SessionWeight, st.sessions, e, st'.sessions[e]);
    SumUpdate(Len, shards, step.j, shards[step.j][1..]);
    SumUpdate(ConnWeightFor(|st.sessions|), st.conns, c, st'.conns[c]);
  }

  lemma GiveUpDecreases(st: State, step: Step)
    requires step.GiveUp? && ConnEnabled(st, step)
    ensures |ConnNext(st, step).sessions| == |st.sessions|
    ensures Measure(ConnNext(st, step)) < Measure(st)
  {
    var c := step.c;
    var shards, st' := st.conns[c].pc.shards, ConnNext(st, step);
    SumSame(SessionWeight, SessionWeight, st.sessions, st'.sessions);
    SumUpdate(Len, shards, step.j, []);
    SumUpdate(ConnWeightFor(|st.sessions|), st.conns, c, st'.conns[c]);
  }

  lemma BeginDecreases(st: State, step: Step)
    requires ChannelInv(st) && step.Begin? && ConnEnabled(st, step)
    ensures |ConnNext(st, step).sessions| == |st.sessions|
    ensures Measure(ConnNext(st, step)) < Measure(st)
  {
    var c, st' := step.c, ConnNext(st, step);
    forall i | 0 <= i < |step.order| ensures step.order[i] < |st.sessions| { assert step.order[i] in st.listeners; }
    DistinctBelow(step.order, |st.sessions|);
    ConcatLength(Batches(step.order));
    ShardsPartition(step.order);
    SumUpdate(ConnWeightFor(|st.sessions|), st.conns, c, st'.conns[c]);
  }

  lemma OtherConnDecreases(st: State, step: Step)
    requires NotNew(step) && !step.Begin? && !step.Handle? && !step.GiveUp? && ConnEnabled(st, step)
    ensures |ConnNext(st, step).sessions| == |st.sessions|
    ensures Measure(ConnNext(st, step)) + 1 <= Measure(st) + (if step.Read? then 3 + 3 * |st.sessions| else 0)
  {
    var c, st' := ConnOf(step), ConnNext(st, step);
    if step.End? { SumNonNegative(Len, st.conns[c].pc.shards); }
    SumUpdate(ConnWeightFor(|st.sessions|), st.conns, c, st'.conns[c]);
  }

  // Every step uses up weight, and only a message read from a broadcaster brings some in.
  lemma StepDecreases(st: State, step: Step)
    requires ChannelInv(st) && NotNew(step) && Enabled(st, step)
    ensures |Next(st, step).sessions| == |st.sessions|
    ensures Measure(Next(st, step)) + 1 <= Measure(st) + (if step.Read? then 3 + 3 * |st.sessions| else 0)
  {
    if SessionEnabled(st, step) {
      SessionWeightDrops(st, step);
      SessionStepDecreases(st, step);
    } else if ConnEnabled(st, step) {
      ConnStepDecreases(st, step);
    }
  }

  lemma ConnStepDecreases(st: State, step: Step)
    requires ChannelInv(st) && NotNew(step) && ConnEnabled(st, step)
    ensures |ConnNext(st, step).sessions| == |st.sessions|
    ensures Measure(ConnNext(st, step)) + 1 <= Measure(st) + (if step.Read? then 3 + 3 * |st.sessions| else 0)
  {
    if step.Handle? {
      HandleDecreases(st, step);
    } else if step.GiveUp? {
      GiveUpDecreases(st, step);
    } else if step.Begin? {
      BeginDecreases(st, step);
    } else {
      OtherConnDecreases(st, step);
    }
  }

  /** However the steps interleave, a hub that gets no new sessions or connections takes at
      most Measure(st) more steps, and 3 + 3 * |sessions| for each message its broadcasters
      still send. */
  lemma StepsAreBounded(st: State, steps: seq<Step>)
    requires Inv(st) && Runs(st, steps) && NobodyNew(steps)
    ensures |After(st, steps).sessions| == |st.sessions| && Measure(After(st, steps)) >= 0
    ensures |steps| + Measure(After(st, steps)) <= Measure(st) + Reads(steps) * (3 + 3 * |st.sessions|)
  {
    PaysPerMessage(st, steps, 3 + 3 * |st.sessions|);
    BillIsProduct(steps, 3 + 3 * |st.sessions|);
    MeasureNonNegative(After(st, steps));
  }

  // What the messages of a run bring in, one by one.
  function Bill(steps: seq<Step>, each: nat): nat {
    if steps == [] then 0 else (if steps[0].Read? then each else 0) + Bill(steps[1..], each)
  }

  lemma {:induction false} BillIsProduct(steps: seq<Step>, each: nat)
    ensures Bill(steps, each) == Reads(steps) * each
  {
    if steps == [] {
    } else {
      BillIsProduct(steps[1..], each);
      OneMore(Reads(steps[1..]), each);
    }
  }

  lemma OneMore(n: nat, a: int)
    ensures (1 + n) * a == a + n * a && (0 + n) * a == n * a
  {
  }

  lemma {:induction false} PaysPerMessage(st: State, steps: seq<Step>, each: nat)
    requires Inv(st) && Runs(st, steps) && NobodyNew(steps) && each == 3 + 3 * |st.sessions|
    ensures |After(st, steps).sessions| == |st.sessions|
    ensures |steps| + Measure(After(st, steps)) <= Measure(st) + Bill(steps, each)
    decreases |steps|
  {
    if steps == [] {
    } else {
      assert NotNew(steps[0]) && NobodyNew(steps[1..]);
      InvStep(st, steps[0]);
      StepDecreases(st, steps[0]);
      PaysPerMessage(Next(st, steps[0]), steps[1..], each);
    }
  }

  // The context of every ingest connection is done.
  ghost predicate AllCancelled(st: State) {
    forall c :: 0 <= c < |st.conns| ==> st.conns[c].cancelled
  }

  // A connection whose context is done reads no further message.
  lemma {:induction false} CancelledReadNothing(st: State, steps: seq<Step>)
    requires AllCancelled(st) && Runs(st, steps) && NobodyNew(steps)
    ensures Reads(steps) == 0
    decreases |steps|
  {
    if steps == [] {
    } else {
      var step := steps[0];
      assert NotNew(step) && NobodyNew(steps[1..]);
      if ConnEnabled(st, step) { ConnsStayCancelled(st, step); }
      assert AllCancelled(Next(st, step));
      CancelledReadNothing(Next(st, step), steps[1..]);
    }
  }

  /** Once cancellation has reached every ingest connection, a hub that gets no new sessions
      or connections takes at most Measure(st) more steps. */
  lemma DrainIsBounded(st: State, steps: seq<Step>)
    requires Inv(st) && AllCancelled(st) && Runs(st, steps) && NobodyNew(steps)
    ensures |steps| + Measure(After(st, steps)) <= Measure(st) && Measure(After(st, steps)) >= 0
  {
    StepsAreBounded(st, steps);
    CancelledReadNothing(st, steps);
  }

  // ---------------------------------------------------------------------
  // Nothing gets stuck
  // ---------------------------------------------------------------------

  // A step of the hub's own goroutines: nobody outside has to come, leave or send.
  predicate Internal(step: Step) {
    NotNew(step) && !step.Close? && !step.ClientLeaves? && !step.BroadcasterLeaves? && !step.Read?
  }

  ghost predicate Stuck(st: State) {
    forall step :: Internal(step) ==> !Enabled(st, step)
  }

  lemma {:induction false} Enumerate(listeners: set<nat>) returns (order: seq<nat>)
    ensures Distinct(order) && forall s :: s in order <==> s in listeners
    decreases listeners
  {
    if listeners == {} {
      order := [];
    } else {
      var x :| x in listeners;
      var rest := Enumerate(listeners - {x});
      order := rest + [x];
    }
  }

  lemma LockHolderMoves(st: State)
    requires LockInv(st) && st.writer.Some?
    ensures !Stuck(st)
  {
    var w := st.writer.value;
    assert Holds(st.sessions[w].pc);
    assert Enabled(st, Subscribe(w)) || Enabled(st, Unsubscribe(w));
  }

  lemma BroadcastMoves(st: State, c: nat)
    requires st.closed && c < |st.conns| && st.conns[c].pc.Broadcasting?
    ensures !Stuck(st)
  {
    if !st.conns[c].cancelled {
      assert Enabled(st, IngestWatcherCancels(c));
    } else if forall j :: 0 <= j < |st.conns[c].pc.shards| ==> st.conns[c].pc.shards[j] == [] {
      assert Enabled(st, End(c));
    } else {
      var j :| 0 <= j < |st.conns[c].pc.shards| && st.conns[c].pc.shards[j] != [];
      assert Enabled(st, GiveUp(c, j));
    }
  }

  lemma StuckIsUnlocked(st: State)
    requires LockInv(st) && st.closed && Stuck(st)
    ensures Unlocked(st)
  {
    if st.writer.Some? { LockHolderMoves(st); }
    forall c | 0 <= c < |st.conns| ensures InFlight(st.conns[c]) == 0 {
      if st.conns[c].pc.Broadcasting? { BroadcastMoves(st, c); }
    }
    SumOfConstant(InFlight, st.conns, 0);
  }

  lemma SessionMoves(st: State, s: nat)
    requires st.closed && Unlocked(st) && s < |st.sessions| && !st.sessions[s].pc.Finished?
    ensures !Stuck(st)
  {
    match st.sessions[s].pc
    case WantsToSubscribe => assert Enabled(st, LockToSubscribe(s));
    case HoldsToSubscribe => assert Enabled(st, Subscribe(s));
    case Registered => assert Enabled(st, CountConnect(s));
    case Looping => assert Enabled(st, SeesCancel(s)) || Enabled(st, WatcherCancels(s));
    case Writing(_) => assert Enabled(st, WriteFails(s));
    case Leaving(_) => assert Enabled(st, CountDisconnect(s));
    case WantsToUnsubscribe => assert Enabled(st, LockToUnsubscribe(s));
    case HoldsToUnsubscribe => assert Enabled(st, Unsubscribe(s));
  }

  lemma ConnMoves(st: State, c: nat)
    requires st.closed && Unlocked(st) && c < |st.conns| && !st.conns[c].pc.Gone?
    ensures !Stuck(st)
  {
    if !st.conns[c].cancelled {
      assert Enabled(st, IngestWatcherCancels(c));
    } else if st.conns[c].pc.Reading? {
      assert Enabled(st, ReadFails(c));
    } else if st.conns[c].pc.WantsToBroadcast? {
      var order := Enumerate(st.listeners);
      assert Enabled(st, Begin(c, order));
    } else {
      BroadcastMoves(st, c);
    }
  }

  /** A closed hub stops only with everything released, even if no client or broadcaster
      ever leaves by itself: no listener, no lock, no connection, an active-listener gauge of
      zero, and one disconnect counted per session. */
  lemma DrainedIsEmpty(st: State)
    requires Inv(st) && st.closed && Stuck(st)
    ensures st.listeners == {} && Unlocked(st) && st.gauge == 0
    ensures forall s :: 0 <= s < |st.sessions| ==>
              st.sessions[s].pc.Finished? && st.sessions[s].closes == 1 && |st.sessions[s].reasons| == 1
    ensures forall c :: 0 <= c < |st.conns| ==> st.conns[c].pc.Gone?
  {
    StuckIsUnlocked(st);
    forall s | 0 <= s < |st.sessions|
      ensures st.sessions[s].pc.Finished? && st.sessions[s].closes == 1 && |st.sessions[s].reasons| == 1
    {
      if !st.sessions[s].pc.Finished? { SessionMoves(st, s); }
      assert ChannelOk(st.capacity, st.sessions[s]);
    }
    forall c | 0 <= c < |st.conns| ensures st.conns[c].pc.Gone? {
      if !st.conns[c].pc.Gone? { ConnMoves(st, c); }
    }
    SumOfConstant(Counted, st.sessions, 0);
  }
}
