/** StartStream and EndStream of backend/internal/streaming/service.go as interleaved
atomic steps: each query and each critical section of a call is one step, and any number
of calls are in flight. */
module Lifecycle {
  import opened Counting
  import opened Outcomes
  import opened Streams

  datatype Call =
    | StartChecks(broadcaster: string, title: string)
    | StartInserts(broadcaster: string, title: string)   // HasLive said no
    | StartRegisters(id: nat)                // the row is there, the hub is not pooled yet
    | StartCounts(id: nat)
    | Started(id: nat)
    | StartFailed(error: Error)
    | EndUpdates(id: nat, broadcaster: string)
    | EndUnpools(id: nat)                    // the row is ended, its hub still has to go
    | EndCounts(id: nat)
    | EndDone(id: nat)
    | EndFailed(error: Error)

  datatype State = State(
    rows: seq<Stream>,
    pool: set<nat>,            // the ids in the hubs map
    closed: set<nat>,          // the ids whose hub has been closed
    gauge: int,
    calls: seq<Call>,
    // History: the rows this process found, which call created or ended a row, the ids
    // whose hub has been registered, the ids EndStream has unpooled, and those it
    // unpooled before their hub was there.
    base: nat,
    creator: map<nat, nat>,
    ender: map<nat, nat>,
    registered: set<nat>,
    unpooled: set<nat>,
    early: set<nat>)

  datatype Step =
    | CallStart(broadcaster: string, title: string)
    | CallEnd(id: nat, broadcaster: string)
    | Advance(k: nat)
    | QueryFails(k: nat)

  function Boot(rows: seq<Stream>): State {
    State(rows, {}, {}, 0, [], |rows|, map[], map[], {}, {}, {})
  }

  predicate IsQuery(c: Call) {
    c.StartChecks? || c.StartInserts? || c.EndUpdates?
  }

  predicate IsOver(c: Call) {
    c.Started? || c.StartFailed? || c.EndDone? || c.EndFailed?
  }

  predicate Enabled(st: State, step: Step) {
    match step
    case CallStart(_, _) => true
    case CallEnd(_, _) => true
    case Advance(k) => k < |st.calls| && !IsOver(st.calls[k])
    case QueryFails(k) => k < |st.calls| && IsQuery(st.calls[k])
  }

  function Go(st: State, k: nat, c: Call): State
    requires k < |st.calls|
  {
    st.(calls := st.calls[k := c])
  }

  function Advanced(st: State, k: nat): State
    requires Enabled(st, Advance(k))
  {
    match st.calls[k]
    case StartChecks(b, title) =>
      Go(st, k, if HasLive(st.rows, b) then StartFailed(AlreadyLive) else StartInserts(b, title))
    case StartInserts(b, title) =>
      if HasLive(st.rows, b) then Go(st, k, StartFailed(AlreadyLive))
      else Go(st, k, StartRegisters(|st.rows|)).(rows := st.rows + [Stream(b, title, true)],
                                                 creator := st.creator[|st.rows| := k])
    case StartRegisters(id) => Go(st, k, StartCounts(id)).(pool := st.pool + {id}, registered := st.registered + {id})
    case StartCounts(id) => Go(st, k, Started(id)).(gauge := st.gauge + 1)
    case EndUpdates(id, b) =>
      if Matches(st.rows, id, b)
      then Go(st, k, EndUnpools(id)).(rows := Ended(st.rows, id), ender := st.ender[id := k])
      else Go(st, k, EndFailed(NotFound))
    case EndUnpools(id) =>
      Go(st, k, EndCounts(id)).(
        pool := st.pool - {id},
        unpooled := st.unpooled + {id},
        closed := if id in st.pool then st.closed + {id} else st.closed,
        early := if id in st.pool || id < st.base then st.early else st.early + {id})
    case EndCounts(id) => Go(st, k, EndDone(id)).(gauge := st.gauge - 1)
  }

  function Next(st: State, step: Step): State
    requires Enabled(st, step)
  {
    match step
    case CallStart(b, title) => st.(calls := st.calls + [StartChecks(b, title)])
    case CallEnd(id, b) => st.(calls := st.calls + [EndUpdates(id, b)])
    case Advance(k) => Advanced(st, k)
    case QueryFails(k) =>
      Go(st, k, if st.calls[k].EndUpdates? then EndFailed(DatabaseError) else StartFailed(DatabaseError))
  }

  predicate Runs(st: State, steps: seq<Step>)
    decreases |steps|
  {
    steps == [] || (Enabled(st, steps[0]) && Runs(Next(st, steps[0]), steps[1..]))
  }

  function After(st: State, steps: seq<Step>): State
    requires Runs(st, steps)
    decreases |steps|
  {
    if steps == [] then st else After(Next(st, steps[0]), steps[1..])
  }

  // ---------------------------------------------------------------------
  // The live gauge
  // ---------------------------------------------------------------------

  // Calls whose row is created but not counted started, ended but not counted ended.
  function Created(c: Call): int { if c.StartRegisters? || c.StartCounts? then 1 else 0 }
  function Ending(c: Call): int { if c.EndUnpools? || c.EndCounts? then 1 else 0 }

  function Balance(st: State): int {
    Sum(Alive, st.rows) - st.gauge - Sum(Created, st.calls) + Sum(Ending, st.calls)
  }

  lemma BalanceStep(st: State, step: Step)
    requires Enabled(st, step)
    ensures Balance(Next(st, step)) == Balance(st)
  {
    if step.CallStart? || step.CallEnd? {
      var st' := Next(st, step);
      SumAppend(Created, st.calls, st'.calls[|st.calls|]);
      SumAppend(Ending, st.calls, st'.calls[|st.calls|]);
    } else if step.Advance? && st.calls[step.k].StartInserts? {
      InsertBalances(st, step.k);
    } else if step.Advance? && st.calls[step.k].EndUpdates? {
      UpdateBalances(st, step.k);
    } else {
      CallMoves(st, Next(st, step), step.k);
    }
  }

  // The sums over the calls after one of them has moved.
  lemma CallMoves(st: State, st': State, k: nat)
    requires k < |st.calls| == |st'.calls| && st'.calls == st.calls[k := st'.calls[k]]
    ensures Sum(Created, st'.calls) - Sum(Created, st.calls) == Created(st'.calls[k]) - Created(st.calls[k])
    ensures Sum(Ending, st'.calls) - Sum(Ending, st.calls) == Ending(st'.calls[k]) - Ending(st.calls[k])
  {
    SumUpdate(Created, st.calls, k, st'.calls[k]);
    SumUpdate(Ending, st.calls, k, st'.calls[k]);
  }

  lemma InsertBalances(st: State, k: nat)
    requires k < |st.calls| && st.calls[k].StartInserts?
    ensures Balance(Advanced(st, k)) == Balance(st)
  {
    var st' := Advanced(st, k);
    CallMoves(st, st', k);
    if st'.calls[k].StartRegisters? { SumAppend(Alive, st.rows, st'.rows[|st.rows|]); }
  }

  lemma UpdateBalances(st: State, k: nat)
    requires k < |st.calls| && st.calls[k].EndUpdates?
    ensures Balance(Advanced(st, k)) == Balance(st)
  {
    var st' := Advanced(st, k);
    CallMoves(st, st', k);
    if st'.calls[k].EndUnpools? {
      var id := st.calls[k].id;
      SumUpdate(Alive, st.rows, id, st'.rows[id]);
    }
  }

  /** In every reachable state the change in the number of live rows is the gauge, plus
      the rows created but not yet counted started, minus the rows ended but not yet
      counted ended. */
  lemma {:induction false} GaugeIsConserved(st: State, steps: seq<Step>)
    requires Runs(st, steps)
    ensures Balance(After(st, steps)) == Balance(st)
    decreases |steps|
  {
    if steps == [] {
    } else {
      BalanceStep(st, steps[0]);
      GaugeIsConserved(Next(st, steps[0]), steps[1..]);
    }
  }

  // ---------------------------------------------------------------------
  // Who created and ended each row
  // ---------------------------------------------------------------------

  // The row a call has created, or ended.
  function Made(c: Call): Option<nat> {
    if c.StartRegisters? || c.StartCounts? || c.Started? then Some(c.id) else None
  }

  function Finished(c: Call): Option<nat> {
    if c.EndUnpools? || c.EndCounts? || c.EndDone? then Some(c.id) else None
  }

  // Every row of this process has one creating call.
  ghost predicate CreatorInv(st: State) {
    && st.base <= |st.rows|
    && (forall id :: id in st.creator <==> st.base <= id < |st.rows|)
    && (forall id :: id in st.creator ==> st.creator[id] < |st.calls| && Made(st.calls[st.creator[id]]) == Some(id))
    && (forall k :: 0 <= k < |st.calls| && Made(st.calls[k]).Some? ==>
          Made(st.calls[k]).value in st.creator && st.creator[Made(st.calls[k]).value] == k)
  }

  // Every row this process ended has one ending call.
  ghost predicate EnderInv(st: State) {
    && (forall id :: id in st.ender ==>
          && id < |st.rows| && !st.rows[id].live
          && st.ender[id] < |st.calls| && Finished(st.calls[st.ender[id]]) == Some(id))
    && (forall k :: 0 <= k < |st.calls| && Finished(st.calls[k]).Some? ==>
          Finished(st.calls[k]).value in st.ender && st.ender[Finished(st.calls[k]).value] == k)
    && (forall id :: st.base <= id < |st.rows| && !st.rows[id].live ==> id in st.ender)
  }

  lemma CreatorStep(st: State, step: Step)
    requires CreatorInv(st) && Enabled(st, step)
    ensures CreatorInv(Next(st, step))
  {
    if step.Advance? && st.calls[step.k].StartInserts? && !HasLive(st.rows, st.calls[step.k].broadcaster) {
      CreatorAdds(st, Next(st, step), step.k);
    } else if step.Advance? || step.QueryFails? {
      CreatorKeeps(st, Next(st, step), step.k);
    }
  }

  lemma CreatorKeeps(st: State, st': State, k: nat)
    requires CreatorInv(st) && k < |st.calls| == |st'.calls| && st'.calls == st.calls[k := st'.calls[k]]
    requires Made(st'.calls[k]) == Made(st.calls[k])
    requires |st'.rows| == |st.rows| && st'.base == st.base && st'.creator == st.creator
    ensures CreatorInv(st')
  {
  }

  lemma CreatorAdds(st: State, st': State, k: nat)
    requires CreatorInv(st) && k < |st.calls| && Made(st.calls[k]) == None
    requires st'.calls == st.calls[k := StartRegisters(|st.rows|)] && st'.creator == st.creator[|st.rows| := k]
    requires |st'.rows| == |st.rows| + 1 && st'.base == st.base
    ensures CreatorInv(st')
  {
  }

  lemma EnderStep(st: State, step: Step)
    requires EnderInv(st) && Enabled(st, step)
    ensures EnderInv(Next(st, step))
  {
    if step.Advance? && st.calls[step.k].EndUpdates? && Next(st, step).calls[step.k].EndUnpools? {
      EnderAdds(st, Next(st, step), step.k, st.calls[step.k].id);
    } else if step.Advance? || step.QueryFails? {
      EnderKeeps(st, Next(st, step), step.k);
    }
  }

  lemma EnderKeeps(st: State, st': State, k: nat)
    requires EnderInv(st) && k < |st.calls| == |st'.calls| && st'.calls == st.calls[k := st'.calls[k]]
    requires Finished(st'.calls[k]) == Finished(st.calls[k])
    requires st.rows <= st'.rows && (forall i :: |st.rows| <= i < |st'.rows| ==> st'.rows[i].live)
    requires st'.base == st.base && st'.ender == st.ender
    ensures EnderInv(st')
  {
  }

  lemma EnderAdds(st: State, st': State, k: nat, id: nat)
    requires EnderInv(st) && k < |st.calls| && Finished(st.calls[k]) == None
    requires id < |st.rows| && st.rows[id].live && st'.rows == Ended(st.rows, id)
    requires st'.calls == st.calls[k := EndUnpools(id)] && st'.ender == st.ender[id := k] && st'.base == st.base
    ensures EnderInv(st')
  {
  }

  lemma OneLiveStep(st: State, step: Step)
    requires OneLive(st.rows) && Enabled(st, step)
    ensures OneLive(Next(st, step).rows)
  {
  }

  // ---------------------------------------------------------------------
  // The pool
  // ---------------------------------------------------------------------

  // The history sets agree with where the calls are.
  ghost predicate HistoryInv(st: State) {
    && st.registered <= st.creator.Keys && st.unpooled <= st.ender.Keys
    && (forall k :: 0 <= k < |st.calls| && st.calls[k].StartRegisters? ==> st.calls[k].id !in st.registered)
    && (forall k :: 0 <= k < |st.calls| && (st.calls[k].StartCounts? || st.calls[k].Started?) ==>
          st.calls[k].id in st.registered)
    && (forall k :: 0 <= k < |st.calls| && st.calls[k].EndUnpools? ==> st.calls[k].id !in st.unpooled)
    && (forall k :: 0 <= k < |st.calls| && (st.calls[k].EndCounts? || st.calls[k].EndDone?) ==>
          st.calls[k].id in st.unpooled)
  }

  lemma HistoryRegisters(st: State, k: nat)
    requires CreatorInv(st) && HistoryInv(st) && k < |st.calls| && st.calls[k].StartRegisters?
    ensures HistoryInv(Advanced(st, k))
  {
    forall i | 0 <= i < |st.calls| && i != k && st.calls[i].StartRegisters?
      ensures st.calls[i].id != st.calls[k].id
    {
      assert Made(st.calls[i]).Some? && Made(st.calls[k]).Some?;
    }
    assert Made(st.calls[k]).Some?;
  }

  lemma HistoryUnpools(st: State, k: nat)
    requires EnderInv(st) && HistoryInv(st) && k < |st.calls| && st.calls[k].EndUnpools?
    ensures HistoryInv(Advanced(st, k))
  {
    forall i | 0 <= i < |st.calls| && i != k && st.calls[i].EndUnpools?
      ensures st.calls[i].id != st.calls[k].id
    {
      assert Finished(st.calls[i]).Some? && Finished(st.calls[k]).Some?;
    }
    assert Finished(st.calls[k]).Some?;
  }

  lemma HistoryKeeps(st: State, st': State, k: nat)
    requires HistoryInv(st) && k < |st.calls| == |st'.calls| && st'.calls == st.calls[k := st'.calls[k]]
    requires st.creator.Keys <= st'.creator.Keys && st.ender.Keys <= st'.ender.Keys
    requires st'.registered == st.registered && st'.unpooled == st.unpooled
    requires var c, c' := st.calls[k], st'.calls[k];
             && (c'.StartRegisters? ==> c'.id !in st.registered) && (c'.EndUnpools? ==> c'.id !in st.unpooled)
             && (c'.StartCounts? || c'.Started? ==> c'.id in st.registered)
             && (c'.EndCounts? || c'.EndDone? ==> c'.id in st.unpooled)
    ensures HistoryInv(st')
  {
  }

  lemma HistoryAdvances(st: State, k: nat)
    requires CreatorInv(st) && EnderInv(st) && HistoryInv(st) && Enabled(st, Advance(k))
    requires !st.calls[k].StartRegisters? && !st.calls[k].EndUnpools?
    ensures HistoryInv(Advanced(st, k))
  {
    assert |st.rows| !in st.creator;
    if st.calls[k].EndUpdates? && Matches(st.rows, st.calls[k].id, st.calls[k].broadcaster) {
      assert st.calls[k].id !in st.ender;
    }
    HistoryKeeps(st, Advanced(st, k), k);
  }

  lemma HistoryStep(st: State, step: Step)
    requires CreatorInv(st) && EnderInv(st) && HistoryInv(st) && Enabled(st, step)
    ensures HistoryInv(Next(st, step))
  {
    if step.Advance? && st.calls[step.k].StartRegisters? {
      HistoryRegisters(st, step.k);
    } else if step.Advance? && st.calls[step.k].EndUnpools? {
      HistoryUnpools(st, step.k);
    } else if step.Advance? {
      HistoryAdvances(st, step.k);
    } else if step.QueryFails? {
      HistoryKeeps(st, Next(st, step), step.k);
    }
  }

  // A pooled hub is open and a hub that left the pool is closed.  An id unpooled before
  // its hub was there stays in the pool for ever once it is registered.
  ghost predicate PoolInv(st: State) {
    && st.pool == st.registered - (st.unpooled - st.early)
    && st.closed == st.registered * st.unpooled - st.early
    && st.early <= st.creator.Keys * st.unpooled
    && st.creator.Keys * st.unpooled - st.registered <= st.early
  }

  lemma PoolRegisters(st: State, k: nat)
    requires CreatorInv(st) && HistoryInv(st) && PoolInv(st) && k < |st.calls| && st.calls[k].StartRegisters?
    ensures PoolInv(Advanced(st, k))
  {
    var id := st.calls[k].id;
    assert Made(st.calls[k]).Some?;
    assert id in st.unpooled <==> id in st.early;
  }

  lemma PoolUnpools(st: State, k: nat)
    requires CreatorInv(st) && EnderInv(st) && HistoryInv(st) && PoolInv(st)
    requires k < |st.calls| && st.calls[k].EndUnpools?
    ensures PoolInv(Advanced(st, k))
  {
    var id := st.calls[k].id;
    assert Finished(st.calls[k]).Some?;
    assert id < |st.rows| && (id in st.creator <==> id >= st.base);
  }

  lemma PoolCreates(st: State, k: nat)
    requires EnderInv(st) && HistoryInv(st) && PoolInv(st) && k < |st.calls|
    requires st.calls[k].StartInserts? && Advanced(st, k).calls[k].StartRegisters?
    ensures PoolInv(Advanced(st, k))
  {
    assert |st.rows| !in st.ender;
  }

  lemma PoolStep(st: State, step: Step)
    requires CreatorInv(st) && EnderInv(st) && HistoryInv(st) && PoolInv(st) && Enabled(st, step)
    ensures PoolInv(Next(st, step))
  {
    if step.Advance? {
      var k := step.k;
      if st.calls[k].StartRegisters? {
        PoolRegisters(st, k);
      } else if st.calls[k].EndUnpools? {
        PoolUnpools(st, k);
      } else if st.calls[k].StartInserts? && Advanced(st, k).calls[k].StartRegisters? {
        PoolCreates(st, k);
      }
    }
  }

  ghost predicate Inv(st: State) {
    OneLive(st.rows) && CreatorInv(st) && EnderInv(st) && HistoryInv(st) && PoolInv(st)
  }

  lemma InvStep(st: State, step: Step)
    requires Inv(st) && Enabled(st, step)
    ensures Inv(Next(st, step))
  {
    OneLiveStep(st, step);
    CreatorStep(st, step);
    EnderStep(st, step);
    HistoryStep(st, step);
    PoolStep(st, step);
  }

  lemma {:induction false} InvKept(st: State, steps: seq<Step>)
    requires Inv(st) && Runs(st, steps)
    ensures Inv(After(st, steps))
    decreases |steps|
  {
    if steps == [] {
    } else {
      InvStep(st, steps[0]);
      InvKept(Next(st, steps[0]), steps[1..]);
    }
  }

  /** However many calls race, every reachable state has at most one live row per
      broadcaster, every pooled hub is open and every registered hub that is no longer
      pooled is closed. */
  lemma Reachable(rows: seq<Stream>, steps: seq<Step>)
    requires OneLive(rows) && Runs(Boot(rows), steps)
    ensures var st := After(Boot(rows), steps);
            && Inv(st) && OneLive(st.rows)
            && st.pool !! st.closed && st.pool + st.closed == st.registered
            && Sum(Alive, st.rows) - Sum(Alive, rows)
               == st.gauge + Sum(Created, st.calls) - Sum(Ending, st.calls)
  {
    InvKept(Boot(rows), steps);
    GaugeIsConserved(Boot(rows), steps);
  }

  /** A call that lost the race created no row and registered no hub; a row is ended, and
      so counted ended, by one call only. */
  lemma LosersLeaveNothing(st: State, k: nat)
    requires Inv(st) && k < |st.calls|
    ensures st.calls[k].StartFailed? ==>
              && (forall id :: id in st.creator ==> st.creator[id] != k)
              && (forall id :: id in st.registered ==> id in st.creator && st.creator[id] != k)
    ensures Finished(st.calls[k]).Some? ==>
              forall j :: 0 <= j < |st.calls| && Finished(st.calls[j]) == Finished(st.calls[k]) ==> j == k
  {
  }

  // ---------------------------------------------------------------------
  // When the pool agrees with the table
  // ---------------------------------------------------------------------

  ghost predicate Quiet(st: State) {
    forall k :: 0 <= k < |st.calls| ==> IsOver(st.calls[k])
  }

  // The live rows this process created.
  ghost function LiveOwn(st: State): set<nat> {
    set id | id in st.creator && id < |st.rows| && st.rows[id].live
  }

  /** With no call in flight, the pooled ids are the live rows this process created if and
      only if no EndStream unpooled an id before its hub was registered. */
  lemma PoolAgreesUnlessEarly(st: State)
    requires Inv(st) && Quiet(st)
    ensures st.pool == LiveOwn(st) + st.early && LiveOwn(st) !! st.early
    ensures st.pool == LiveOwn(st) <==> st.early == {}
  {
    forall id | id in st.creator
      ensures id in st.registered && id < |st.rows|
      ensures st.rows[id].live <==> id !in st.unpooled
    {
      assert IsOver(st.calls[st.creator[id]]) && Made(st.calls[st.creator[id]]) == Some(id);
      if id in st.ender { assert IsOver(st.calls[st.ender[id]]) && Finished(st.calls[st.ender[id]]) == Some(id); }
    }
    assert st.pool == LiveOwn(st) + st.early;
  }

  // EndStream(id) is called for rows the process found, or after the StartStream that
  // created the row has returned.
  ghost predicate EndsReturnedStreams(st: State, steps: seq<Step>)
    requires Runs(st, steps)
    decreases |steps|
  {
    steps == [] ||
    (&& (steps[0].CallEnd? ==>
           steps[0].id < st.base
           || exists k :: 0 <= k < |st.calls| && st.calls[k] == Started(steps[0].id))
     && EndsReturnedStreams(Next(st, steps[0]), steps[1..]))
  }

  ghost predicate EndsAreLate(st: State) {
    && st.early == {}
    && forall k :: 0 <= k < |st.calls| && (st.calls[k].EndUpdates? || st.calls[k].EndUnpools?) ==>
         st.calls[k].id < st.base || st.calls[k].id in st.registered
  }

  lemma LateStep(st: State, step: Step)
    requires Inv(st) && EndsAreLate(st) && Enabled(st, step)
    requires step.CallEnd? ==> step.id < st.base || step.id in st.registered
    ensures EndsAreLate(Next(st, step))
  {
    if step.Advance? && st.calls[step.k].EndUnpools? {
      LateUnpool(st, step.k);
    } else {
      LateOther(st, step);
    }
  }

  // The id is pooled or foreign, so unpooling it is not early.
  lemma LateUnpool(st: State, k: nat)
    requires HistoryInv(st) && PoolInv(st) && EndsAreLate(st) && k < |st.calls| && st.calls[k].EndUnpools?
    ensures EndsAreLate(Advanced(st, k))
  {
    assert st.calls[k].id !in st.unpooled;
  }

  lemma LateOther(st: State, step: Step)
    requires EndsAreLate(st) && Enabled(st, step)
    requires step.CallEnd? ==> step.id < st.base || step.id in st.registered
    requires step.Advance? ==> !st.calls[step.k].EndUnpools?
    ensures EndsAreLate(Next(st, step))
  {
  }

  lemma {:induction false} LateKept(st: State, steps: seq<Step>)
    requires Inv(st) && EndsAreLate(st) && Runs(st, steps) && EndsReturnedStreams(st, steps)
    ensures EndsAreLate(After(st, steps)) && Inv(After(st, steps))
    decreases |steps|
  {
    if steps == [] {
    } else {
      InvStep(st, steps[0]);
      LateStep(st, steps[0]);
      LateKept(Next(st, steps[0]), steps[1..]);
    }
  }

  /** If EndStream is only called for streams whose StartStream has returned, then with no
      call in flight the pool is exactly the live rows this process created. */
  lemma PoolAgrees(rows: seq<Stream>, steps: seq<Step>)
    requires OneLive(rows) && Runs(Boot(rows), steps) && EndsReturnedStreams(Boot(rows), steps)
    requires Quiet(After(Boot(rows), steps))
    ensures After(Boot(rows), steps).pool == LiveOwn(After(Boot(rows), steps))
  {
    LateKept(Boot(rows), steps);
    PoolAgreesUnlessEarly(After(Boot(rows), steps));
  }

  // A hub that was registered after its stream had been unpooled.
  ghost predicate Leaks(st: State, id: nat) {
    id in st.early && id in st.pool
  }

  lemma LeakStays(st: State, step: Step, id: nat)
    requires Inv(st) && Leaks(st, id) && Enabled(st, step)
    ensures Leaks(Next(st, step), id)
  {
    if step.Advance? && st.calls[step.k].EndUnpools? {
      assert Finished(st.calls[step.k]).Some?;
      assert st.calls[step.k].id !in st.unpooled && id in st.unpooled;
    }
  }

  /** Such a hub stays in the pool, open, whatever calls follow. */
  lemma {:induction false} LeakIsForEver(st: State, steps: seq<Step>, id: nat)
    requires Inv(st) && Leaks(st, id) && Runs(st, steps)
    ensures id in After(st, steps).pool && id !in After(st, steps).closed
    decreases |steps|
  {
    if steps == [] {
    } else {
      LeakStays(st, steps[0], id);
      InvStep(st, steps[0]);
      LeakIsForEver(Next(st, steps[0]), steps[1..], id);
    }
  }

  // The row is visible before its hub is pooled: an EndStream in between leaves the hub
  // of an ended stream in the pool, open.
  lemma EarlyEndLeaks()
    ensures Runs(Boot([]), LEAKING_RUN) && After(Boot([]), LEAKING_RUN) == LEAKED
    ensures Quiet(LEAKED) && LEAKED.pool == {0} && LEAKED.closed == {} && LEAKED.rows == [Stream("b", "", false)]
    ensures LEAKED.gauge == 0 && Leaks(LEAKED, 0)
  {
    LeakCreates();
    LeakEnds();
    LeakRegisters();
    RunsOn(Boot([]), CREATING, ENDING);
    RunsOn(Boot([]), CREATING + ENDING, REGISTERING);
  }

  const CREATING := [CallStart("b", ""), Advance(0), Advance(0)]
  const ENDING := [CallEnd(0, "b"), Advance(1), Advance(1)]
  const REGISTERING := [Advance(1), Advance(0), Advance(0)]
  const LEAKING_RUN := CREATING + ENDING + REGISTERING

  const ROW_VISIBLE := Boot([]).(calls := [StartRegisters(0)], rows := [Stream("b", "", true)], creator := map[0 := 0])
  const ROW_ENDED := ROW_VISIBLE.(calls := [StartRegisters(0), EndCounts(0)], rows := [Stream("b", "", false)],
                                ender := map[0 := 1], unpooled := {0}, early := {0})
  const LEAKED := ROW_ENDED.(calls := [Started(0), EndDone(0)], pool := {0}, registered := {0}, gauge := 0)

  lemma LeakCreates()
    ensures Runs(Boot([]), CREATING) && After(Boot([]), CREATING) == ROW_VISIBLE
  {
    var s1 := Boot([]).(calls := [StartChecks("b", "")]);
    var s2 := s1.(calls := [StartInserts("b", "")]);
    Chain(s2, Advance(0), ROW_VISIBLE, []);
    Chain(s1, Advance(0), s2, [Advance(0)]);
    Chain(Boot([]), CallStart("b", ""), s1, [Advance(0), Advance(0)]);
  }

  lemma LeakEnds()
    ensures Runs(ROW_VISIBLE, ENDING) && After(ROW_VISIBLE, ENDING) == ROW_ENDED
  {
    var s1 := ROW_VISIBLE.(calls := [StartRegisters(0), EndUpdates(0, "b")]);
    var s2 := s1.(calls := [StartRegisters(0), EndUnpools(0)], rows := [Stream("b", "", false)], ender := map[0 := 1]);
    Chain(s2, Advance(1), ROW_ENDED, []);
    Chain(s1, Advance(1), s2, [Advance(1)]);
    Chain(ROW_VISIBLE, CallEnd(0, "b"), s1, [Advance(1), Advance(1)]);
  }

  lemma LeakRegisters()
    ensures Runs(ROW_ENDED, REGISTERING) && After(ROW_ENDED, REGISTERING) == LEAKED
  {
    var s1 := ROW_ENDED.(calls := [StartRegisters(0), EndDone(0)], gauge := -1);
    var s2 := s1.(calls := [StartCounts(0), EndDone(0)], pool := {0}, registered := {0});
    Chain(s2, Advance(0), LEAKED, []);
    Chain(s1, Advance(0), s2, [Advance(0)]);
    Chain(ROW_ENDED, Advance(1), s1, [Advance(0), Advance(0)]);
  }

  lemma {:induction false} RunsOn(st: State, first: seq<Step>, rest: seq<Step>)
    requires Runs(st, first) && Runs(After(st, first), rest)
    ensures Runs(st, first + rest) && After(st, first + rest) == After(After(st, first), rest)
    decreases |first|
  {
    if first == [] {
      assert first + rest == rest;
    } else {
      RunsOn(Next(st, first[0]), first[1..], rest);
      assert (first + rest)[1..] == first[1..] + rest;
    }
  }

  lemma Chain(st: State, step: Step, st': State, rest: seq<Step>)
    requires Enabled(st, step) && Next(st, step) == st' && Runs(st', rest)
    ensures Runs(st, [step] + rest) && After(st, [step] + rest) == After(st', rest)
  {
    assert ([step] + rest)[1..] == rest;
  }
}
