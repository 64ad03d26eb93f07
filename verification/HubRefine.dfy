/** The parallel shards of a broadcast refine the plain loop over its listeners, while
listeners dequeue, sessions come and go and other connections broadcast; and with nothing
else going on they do what the sequential Broadcast of class Hub does. */
module HubRefine {
  import opened Fanout
  import opened HubMachine
  import opened HubSafety

  ghost predicate InFlightAt(st: State, c: nat) {
    c < |st.conns| && st.conns[c].pc.Broadcasting?
  }

  predicate IsHandle(step: Step, c: nat) {
    step.Handle? && step.c == c
  }

  predicate IsGiveUp(step: Step, c: nat) {
    step.GiveUp? && step.c == c
  }

  ghost predicate NoEnd(c: nat, steps: seq<Step>) {
    forall i :: 0 <= i < |steps| ==> steps[i] != End(c)
  }

  ghost predicate NoGiveUp(c: nat, steps: seq<Step>) {
    forall i :: 0 <= i < |steps| ==> !IsGiveUp(steps[i], c)
  }

  // What one step hands the chunk to.
  ghost function HandledNow(st: State, c: nat, step: Step): seq<nat>
    requires Enabled(st, step)
  {
    if IsHandle(step, c) then [Target(st, c, step.j)] else []
  }

  // The listeners that connection c's shards handle during the run, in that order.
  ghost function HandledBy(st: State, c: nat, steps: seq<Step>): seq<nat>
    requires Runs(st, steps)
    decreases |steps|
  {
    if steps == [] then []
    else HandledNow(st, c, steps[0]) + HandledBy(Next(st, steps[0]), c, steps[1..])
  }

  // How many entries shard j handles.
  function CountOf(c: nat, j: nat, steps: seq<Step>): nat {
    if steps == [] then 0
    else (if steps[0] == Handle(c, j) then 1 else 0) + CountOf(c, j, steps[1..])
  }

  // ---------------------------------------------------------------------
  // The plain loop
  // ---------------------------------------------------------------------

  // The same state with connection c's broadcast left with one loop over `rest`.
  function Plain(st: State, c: nat, rest: seq<nat>): State
    requires c < |st.conns| && st.conns[c].pc.Broadcasting?
  {
    ConnMove(st, c, st.conns[c].pc.(shards := [rest]))
  }

  // The same schedule with the loop in the shards' place.
  function PlainStep(c: nat, step: Step): Step {
    if IsHandle(step, c) then Handle(c, 0) else step
  }

  function PlainSteps(c: nat, steps: seq<Step>): seq<Step> {
    if steps == [] then [] else [PlainStep(c, steps[0])] + PlainSteps(c, steps[1..])
  }

  lemma SessionStepPlain(st: State, c: nat, step: Step, rest: seq<nat>)
    requires InFlightAt(st, c) && SessionEnabled(st, step)
    ensures SessionEnabled(Plain(st, c, rest), step) && InFlightAt(SessionNext(st, step), c)
    ensures SessionNext(Plain(st, c, rest), step) == Plain(SessionNext(st, step), c, rest)
  {
  }

  lemma OtherConnStepPlain(st: State, c: nat, step: Step, rest: seq<nat>)
    requires InFlightAt(st, c) && ConnEnabled(st, step)
    requires step != End(c) && !IsHandle(step, c) && !IsGiveUp(step, c)
    ensures ConnEnabled(Plain(st, c, rest), step) && InFlightAt(ConnNext(st, step), c)
    ensures ConnNext(Plain(st, c, rest), step) == Plain(ConnNext(st, step), c, rest)
  {
    if step.Handle? || step.GiveUp? {
      OtherShardPlain(st, c, step, rest);
    } else {
      assert ConnNext(Plain(st, c, rest), step).conns == Plain(ConnNext(st, step), c, rest).conns;
    }
  }

  lemma OtherShardPlain(st: State, c: nat, step: Step, rest: seq<nat>)
    requires InFlightAt(st, c) && ConnEnabled(st, step) && (step.Handle? || step.GiveUp?) && step.c != c
    ensures ConnEnabled(Plain(st, c, rest), step) && InFlightAt(ConnNext(st, step), c)
    ensures ConnNext(Plain(st, c, rest), step) == Plain(ConnNext(st, step), c, rest)
  {
    assert ConnNext(Plain(st, c, rest), step).conns == Plain(ConnNext(st, step), c, rest).conns;
    assert ConnNext(Plain(st, c, rest), step).sessions == ConnNext(st, step).sessions;
  }

  lemma OtherStepPlain(st: State, c: nat, step: Step, rest: seq<nat>)
    requires InFlightAt(st, c) && Enabled(st, step)
    requires step != End(c) && !IsHandle(step, c) && !IsGiveUp(step, c)
    ensures Enabled(Plain(st, c, rest), step) && InFlightAt(Next(st, step), c)
    ensures Next(Plain(st, c, rest), step) == Plain(Next(st, step), c, rest)
  {
    if SessionEnabled(st, step) {
      SessionStepPlain(st, c, step, rest);
    } else if ConnEnabled(st, step) {
      OtherConnStepPlain(st, c, step, rest);
    }
  }

  lemma HandlePlain(st: State, c: nat, j: nat, rest: seq<nat>)
    requires InFlightAt(st, c) && Enabled(st, Handle(c, j))
    ensures InFlightAt(Next(st, Handle(c, j)), c)
    ensures var plain := Plain(st, c, [Target(st, c, j)] + rest);
            && Enabled(plain, Handle(c, 0))
            && Next(plain, Handle(c, 0)) == Plain(Next(st, Handle(c, j)), c, rest)
  {
    var e := Target(st, c, j);
    assert ([e] + rest)[0] == e && ([e] + rest)[1..] == rest;
    assert [[e] + rest][0 := rest] == [rest];
    var plain := Plain(st, c, [e] + rest);
    assert Next(plain, Handle(c, 0)).conns == Plain(Next(st, Handle(c, j)), c, rest).conns;
  }

  lemma StepPlain(st: State, c: nat, step: Step, rest: seq<nat>)
    requires InFlightAt(st, c) && Enabled(st, step) && step != End(c) && !IsGiveUp(step, c)
    ensures InFlightAt(Next(st, step), c)
    ensures var plain := Plain(st, c, HandledNow(st, c, step) + rest);
            Enabled(plain, PlainStep(c, step)) && Next(plain, PlainStep(c, step)) == Plain(Next(st, step), c, rest)
  {
    if IsHandle(step, c) {
      HandlePlain(st, c, step.j, rest);
    } else {
      assert [] + rest == rest;
      OtherStepPlain(st, c, step, rest);
    }
  }

  /** A run in which connection c's broadcast neither ends nor gives up is a run of the
      plain loop over the entries in the order they are handled: everything but what is
      left of c's shards is the same in the two runs, at every point of the run. */
  lemma {:induction false} RunsPlain(st: State, c: nat, steps: seq<Step>, rest: seq<nat>)
    requires InFlightAt(st, c) && Runs(st, steps) && NoEnd(c, steps) && NoGiveUp(c, steps)
    ensures InFlightAt(After(st, steps), c)
    ensures var plain := Plain(st, c, HandledBy(st, c, steps) + rest);
            && Runs(plain, PlainSteps(c, steps))
            && After(plain, PlainSteps(c, steps)) == Plain(After(st, steps), c, rest)
    decreases |steps|
  {
    if steps == [] {
      assert [] + rest == rest;
    } else {
      var next, later := Next(st, steps[0]), HandledBy(Next(st, steps[0]), c, steps[1..]);
      assert steps[0] != End(c) && !IsGiveUp(steps[0], c);
      StepPlain(st, c, steps[0], later + rest);
      RunsPlain(next, c, steps[1..], rest);
      assert HandledBy(st, c, steps) + rest == HandledNow(st, c, steps[0]) + (later + rest);
      assert PlainSteps(c, steps)[1..] == PlainSteps(c, steps[1..]);
    }
  }

  // ---------------------------------------------------------------------
  // Prefixes
  // ---------------------------------------------------------------------

  function Prefix(s: seq<nat>, n: nat): seq<nat> {
    if n <= |s| then s[..n] else s
  }

  ghost predicate AmongPrefixes(shards: seq<seq<nat>>, c: nat, steps: seq<Step>, e: nat) {
    exists j :: 0 <= j < |shards| && e in Prefix(shards[j], CountOf(c, j, steps))
  }

  // Shard j's part of a run from one state to another: it has handled a prefix, and holds
  // the rest unless it gave up.
  ghost predicate HandledPrefix(st: State, end: State, c: nat, steps: seq<Step>, j: nat)
    requires InFlightAt(st, c) && InFlightAt(end, c) && j < |st.conns[c].pc.shards| == |end.conns[c].pc.shards|
  {
    var shard, left, n := st.conns[c].pc.shards[j], end.conns[c].pc.shards[j], CountOf(c, j, steps);
    n <= |shard| && (left == shard[n..] || (left == [] && GiveUp(c, j) in steps))
  }

  lemma OtherStepKeepsShards(st: State, c: nat, step: Step)
    requires InFlightAt(st, c) && Enabled(st, step)
    requires step != End(c) && !IsHandle(step, c) && !IsGiveUp(step, c)
    ensures InFlightAt(Next(st, step), c) && Next(st, step).conns[c].pc == st.conns[c].pc
  {
  }

  lemma OwnStepShards(st: State, c: nat, step: Step)
    requires InFlightAt(st, c) && Enabled(st, step) && (IsHandle(step, c) || IsGiveUp(step, c))
    ensures var shards := st.conns[c].pc.shards;
            && InFlightAt(Next(st, step), c)
            && step.j < |shards| && shards[step.j] != []
            && Next(st, step).conns[c].pc
               == st.conns[c].pc.(shards := shards[step.j := if step.Handle? then shards[step.j][1..] else []])
  {
  }

  /** Whatever else happens, and whenever shards see the context cancelled: while connection
      c's broadcast is in flight each shard has handled a prefix of its entries, in order,
      and holds the rest of them, unless it gave up. */
  lemma {:induction false} ShardsHandlePrefixes(st: State, c: nat, steps: seq<Step>)
    requires InFlightAt(st, c) && Runs(st, steps) && NoEnd(c, steps)
    ensures InFlightAt(After(st, steps), c)
    ensures var shards, end := st.conns[c].pc.shards, After(st, steps);
            && end.conns[c].pc.chunk == st.conns[c].pc.chunk
            && |end.conns[c].pc.shards| == |shards|
            && (forall j :: 0 <= j < |shards| ==> HandledPrefix(st, end, c, steps, j))
    decreases |steps|
  {
    if steps == [] {
    } else {
      var step, next := steps[0], Next(st, steps[0]);
      assert steps[0] != End(c);
      if IsHandle(step, c) || IsGiveUp(step, c) {
        OwnStepShards(st, c, step);
      } else {
        OtherStepKeepsShards(st, c, step);
      }
      ShardsHandlePrefixes(next, c, steps[1..]);
      forall j | 0 <= j < |st.conns[c].pc.shards| ensures HandledPrefix(st, After(st, steps), c, steps, j) {
        assert HandledPrefix(next, After(st, steps), c, steps[1..], j);
        assert GiveUp(c, j) in steps <==> GiveUp(c, j) == step || GiveUp(c, j) in steps[1..];
      }
    }
  }

  // ---------------------------------------------------------------------
  // The order of the plain loop
  // ---------------------------------------------------------------------

  lemma PrefixGrows(shards: seq<seq<nat>>, c: nat, steps: seq<Step>, e: nat)
    requires steps != [] && IsHandle(steps[0], c) && steps[0].j < |shards| && shards[steps[0].j] != []
    ensures var j := steps[0].j;
            AmongPrefixes(shards, c, steps, e)
            <==> e == shards[j][0] || AmongPrefixes(shards[j := shards[j][1..]], c, steps[1..], e)
  {
    var j, n := steps[0].j, CountOf(c, steps[0].j, steps[1..]);
    var later := shards[j := shards[j][1..]];
    assert Prefix(shards[j], 1 + n) == [shards[j][0]] + Prefix(shards[j][1..], n);
    assert forall i :: 0 <= i < |shards| && i != j ==> CountOf(c, i, steps) == CountOf(c, i, steps[1..]);
    if AmongPrefixes(later, c, steps[1..], e) {
      var i :| 0 <= i < |later| && e in Prefix(later[i], CountOf(c, i, steps[1..]));
      assert e in Prefix(shards[i], CountOf(c, i, steps));
    }
    if AmongPrefixes(shards, c, steps, e) && e != shards[j][0] {
      var i :| 0 <= i < |shards| && e in Prefix(shards[i], CountOf(c, i, steps));
      assert e in Prefix(later[i], CountOf(c, i, steps[1..]));
    }
    assert e == shards[j][0] ==> e in Prefix(shards[j], CountOf(c, j, steps));
  }

  lemma PrefixStays(shards: seq<seq<nat>>, later: seq<seq<nat>>, c: nat, steps: seq<Step>, e: nat)
    requires steps != [] && !IsHandle(steps[0], c) && |later| == |shards|
    requires forall i :: 0 <= i < |shards| ==> later[i] == shards[i] || CountOf(c, i, steps[1..]) == 0
    ensures AmongPrefixes(shards, c, steps, e) <==> AmongPrefixes(later, c, steps[1..], e)
  {
    assert forall i :: 0 <= i < |shards| ==>
        Prefix(shards[i], CountOf(c, i, steps)) == Prefix(later[i], CountOf(c, i, steps[1..]));
  }

  lemma {:induction false} HandledByMembers(st: State, c: nat, steps: seq<Step>, e: nat)
    requires InFlightAt(st, c) && Runs(st, steps) && NoEnd(c, steps)
    ensures e in HandledBy(st, c, steps) <==> AmongPrefixes(st.conns[c].pc.shards, c, steps, e)
    decreases |steps|
  {
    if steps == [] {
    } else {
      var step, next := steps[0], Next(st, steps[0]);
      assert steps[0] != End(c);
      var shards := st.conns[c].pc.shards;
      if IsHandle(step, c) {
        OwnStepShards(st, c, step);
        PrefixGrows(shards, c, steps, e);
      } else if IsGiveUp(step, c) {
        OwnStepShards(st, c, step);
        ShardsHandlePrefixes(next, c, steps[1..]);
        assert HandledPrefix(next, After(st, steps), c, steps[1..], step.j);
        PrefixStays(shards, next.conns[c].pc.shards, c, steps, e);
      } else {
        OtherStepKeepsShards(st, c, step);
        PrefixStays(shards, shards, c, steps, e);
      }
      HandledByMembers(next, c, steps[1..], e);
    }
  }

  lemma HandleOnce(shards: seq<seq<nat>>, j: nat)
    requires NoOverlap(shards) && j < |shards| && shards[j] != []
    ensures NoOverlap(shards[j := shards[j][1..]]) && NoOverlap(shards[j := []])
    ensures !InShards(shards[j := shards[j][1..]], shards[j][0])
    ensures forall e :: InShards(shards[j := shards[j][1..]], e) ==> InShards(shards, e)
  {
    var all := set i, k | 0 <= i < |shards| && 0 <= k < |shards[i]| :: shards[i][k];
    HandleShards(all, shards, j);
  }

  // No listener is handled twice.
  lemma {:induction false} HandledByDistinct(st: State, c: nat, steps: seq<Step>)
    requires InFlightAt(st, c) && Runs(st, steps) && NoEnd(c, steps) && NoOverlap(st.conns[c].pc.shards)
    ensures Distinct(HandledBy(st, c, steps))
    decreases |steps|
  {
    if steps == [] {
    } else {
      var step, next := steps[0], Next(st, steps[0]);
      assert steps[0] != End(c);
      var shards := st.conns[c].pc.shards;
      if IsHandle(step, c) {
        OwnStepShards(st, c, step);
        HandleOnce(shards, step.j);
        HandledByDistinct(next, c, steps[1..]);
        HandledByMembers(next, c, steps[1..], shards[step.j][0]);
      } else {
        if IsGiveUp(step, c) {
          OwnStepShards(st, c, step);
          HandleOnce(shards, step.j);
        } else {
          OtherStepKeepsShards(st, c, step);
        }
        HandledByDistinct(next, c, steps[1..]);
      }
    }
  }

  lemma AllHandled(st: State, end: State, c: nat, steps: seq<Step>, order: seq<nat>, e: nat)
    requires InFlightAt(st, c) && st.conns[c].pc.shards == Batches(order)
    requires Runs(st, steps) && NoEnd(c, steps) && NoGiveUp(c, steps)
    requires end == After(st, steps) && Enabled(end, End(c))
    ensures AmongPrefixes(Batches(order), c, steps, e) <==> e in order
  {
    var shards := Batches(order);
    ShardsHandlePrefixes(st, c, steps);
    forall j | 0 <= j < |shards| ensures Prefix(shards[j], CountOf(c, j, steps)) == shards[j] {
      assert HandledPrefix(st, end, c, steps, j);
      assert IsGiveUp(GiveUp(c, j), c) && forall i :: 0 <= i < |steps| ==> !IsGiveUp(steps[i], c);
    }
    InBatches<nat>(order, e);
  }

  /** From the start of a broadcast with snapshot `order` to its end, with anything going on
      beside its shards: the plain loop over the same listeners, in the order in which the
      shards handled them, can run in the same schedule in their place, and ends in exactly
      the same state. */
  lemma ShardsRefineTheLoop(st: State, c: nat, order: seq<nat>, steps: seq<Step>)
    requires Enabled(st, Begin(c, order)) && Runs(Next(st, Begin(c, order)), steps)
    requires NoEnd(c, steps) && NoGiveUp(c, steps)
    requires Enabled(After(Next(st, Begin(c, order)), steps), End(c))
    ensures InFlightAt(Next(st, Begin(c, order)), c)
    ensures var begun := Next(st, Begin(c, order));
            var loop := HandledBy(begun, c, steps);
            && Distinct(loop) && (forall e :: e in loop <==> e in order)
            && Runs(Plain(begun, c, loop), PlainSteps(c, steps))
            && var end := After(Plain(begun, c, loop), PlainSteps(c, steps));
               Enabled(end, End(c)) && Next(end, End(c)) == Next(After(begun, steps), End(c))
  {
    var begun := Next(st, Begin(c, order));
    var loop := HandledBy(begun, c, steps);
    BatchesDoNotOverlap(order);
    HandledByDistinct(begun, c, steps);
    forall e ensures e in loop <==> e in order {
      HandledByMembers(begun, c, steps, e);
      AllHandled(begun, After(begun, steps), c, steps, order, e);
    }
    assert loop + [] == loop;
    RunsPlain(begun, c, steps, []);
    EndForgetsShards(After(begun, steps), c);
  }

  lemma EndForgetsShards(st: State, c: nat)
    requires Enabled(st, End(c))
    ensures Enabled(Plain(st, c, []), End(c)) && Next(Plain(st, c, []), End(c)) == Next(st, End(c))
  {
    assert Next(Plain(st, c, []), End(c)).conns == Next(st, End(c)).conns;
  }

  // ---------------------------------------------------------------------
  // The sequential Broadcast of class Hub
  // ---------------------------------------------------------------------

  // What the listeners map holds, as in class Hub.
  function QueuesOf(st: State): map<nat, seq<Chunk>> {
    map s: nat | s in st.listeners && s < |st.sessions| :: st.sessions[s].queue
  }

  // Nothing but the broadcast itself and its cancellation happens.
  ghost predicate Alone(c: nat, steps: seq<Step>) {
    forall i :: 0 <= i < |steps| ==>
      || IsHandle(steps[i], c) || IsGiveUp(steps[i], c)
      || steps[i] == BroadcasterLeaves(c) || steps[i] == IngestWatcherCancels(c)
  }

  // The state reached when exactly the listeners in `ids` have been handled.
  ghost predicate Reached(st: State, before: map<nat, seq<Chunk>>, drops: nat, ids: set<nat>, x: Chunk) {
    && QueuesOf(st) == Delivered(before, ids, x, st.capacity)
    && st.drops == drops + |Full(before, ids, st.capacity)|
  }

  lemma HandleReaches(st: State, step: Step, before: map<nat, seq<Chunk>>, drops: nat, ids: set<nat>)
    requires step.Handle? && Enabled(st, step) && Target(st, step.c, step.j) in before
    requires Target(st, step.c, step.j) !in ids
    requires Reached(st, before, drops, ids, st.conns[step.c].pc.chunk)
    ensures Reached(Next(st, step), before, drops, ids + {Target(st, step.c, step.j)}, st.conns[step.c].pc.chunk)
  {
    var e, x := Target(st, step.c, step.j), st.conns[step.c].pc.chunk;
    DeliverOneMore(before, ids, e, x, st.capacity);
    assert e in QueuesOf(st);
    HandleOffers(st, step);
  }

  lemma HandleOffers(st: State, step: Step)
    requires step.Handle? && Enabled(st, step) && Target(st, step.c, step.j) in st.listeners
    ensures var e, x, next := Target(st, step.c, step.j), st.conns[step.c].pc.chunk, Next(st, step);
            && QueuesOf(next) == QueuesOf(st)[e := Offer(st.sessions[e].queue, x, st.capacity)]
            && next.drops == st.drops + (if |st.sessions[e].queue| < st.capacity then 0 else 1)
            && next.capacity == st.capacity
  {
  }

  lemma GiveUpKeepsQueues(st: State, step: Step)
    requires step.GiveUp? && Enabled(st, step)
    ensures var next := Next(st, step);
            QueuesOf(next) == QueuesOf(st) && next.drops == st.drops && next.capacity == st.capacity
  {
  }

  lemma CancelKeepsQueues(st: State, step: Step)
    requires (step.BroadcasterLeaves? || step.IngestWatcherCancels?) && Enabled(st, step)
    ensures var next := Next(st, step);
            QueuesOf(next) == QueuesOf(st) && next.drops == st.drops && next.capacity == st.capacity
  {
  }

  function Members(s: seq<nat>): set<nat> {
    set e | e in s
  }

  ghost function HandledIn(st: State, c: nat, step: Step): (ids: set<nat>)
    requires Enabled(st, step)
    ensures ids == Members(HandledNow(st, c, step))
  {
    if IsHandle(step, c) then {Target(st, c, step.j)} else {}
  }

  // Between two steps of a broadcast that runs alone: what has been handled is reached,
  // and what is left is still to be offered.
  ghost predicate Underway(st: State, c: nat, before: map<nat, seq<Chunk>>, drops: nat, ids: set<nat>, x: Chunk) {
    && InFlightAt(st, c) && st.conns[c].pc.chunk == x && NoOverlap(st.conns[c].pc.shards)
    && (forall e: nat :: InShards(st.conns[c].pc.shards, e) ==> e in before && e !in ids)
    && Reached(st, before, drops, ids, x)
  }

  lemma AloneStep(st: State, c: nat, step: Step, before: map<nat, seq<Chunk>>, drops: nat, ids: set<nat>, x: Chunk)
    requires Underway(st, c, before, drops, ids, x) && Enabled(st, step) && Alone(c, [step])
    ensures Underway(Next(st, step), c, before, drops, ids + HandledIn(st, c, step), x)
  {
    assert [step][0] == step;
    var shards := st.conns[c].pc.shards;
    if IsHandle(step, c) {
      OwnStepShards(st, c, step);
      HandleOnce(shards, step.j);
      assert shards[step.j][0] in shards[step.j] && InShards(shards, shards[step.j][0]);
      HandleReaches(st, step, before, drops, ids);
    } else {
      AloneOtherStep(st, c, step, before, drops, ids, x);
    }
  }

  lemma AloneOtherStep(st: State, c: nat, step: Step, before: map<nat, seq<Chunk>>, drops: nat, ids: set<nat>, x: Chunk)
    requires Underway(st, c, before, drops, ids, x) && Enabled(st, step) && Alone(c, [step]) && !IsHandle(step, c)
    ensures Underway(Next(st, step), c, before, drops, ids + {}, x)
  {
    assert [step][0] == step && ids + {} == ids;
    var shards := st.conns[c].pc.shards;
    var left := if step.GiveUp? then shards[step.j := []] else shards;
    if IsGiveUp(step, c) {
      OwnStepShards(st, c, step);
      HandleOnce(shards, step.j);
      GiveUpKeepsQueues(st, step);
    } else {
      OtherStepKeepsShards(st, c, step);
      CancelKeepsQueues(st, step);
    }
    StillUnderway(st, Next(st, step), c, before, drops, ids, x, left);
  }

  lemma StillUnderway(st: State, next: State, c: nat, before: map<nat, seq<Chunk>>, drops: nat, ids: set<nat>, x: Chunk,
                      left: seq<seq<nat>>)
    requires Underway(st, c, before, drops, ids, x) && NoOverlap(left)
    requires forall e :: InShards(left, e) ==> InShards(st.conns[c].pc.shards, e)
    requires InFlightAt(next, c) && next.conns[c].pc == st.conns[c].pc.(shards := left)
    requires QueuesOf(next) == QueuesOf(st) && next.drops == st.drops && next.capacity == st.capacity
    ensures Underway(next, c, before, drops, ids, x)
  {
  }

  // From any point of a broadcast on, what is handled is offered, once.
  lemma {:induction false} AloneReaches(st: State, c: nat, steps: seq<Step>,
                                        before: map<nat, seq<Chunk>>, drops: nat, ids: set<nat>, x: Chunk)
    requires Underway(st, c, before, drops, ids, x) && Runs(st, steps) && Alone(c, steps)
    ensures Reached(After(st, steps), before, drops, ids + Members(HandledBy(st, c, steps)), x)
    decreases |steps|
  {
    if steps == [] {
      assert ids + Members([]) == ids;
    } else {
      var step, next := steps[0], Next(st, steps[0]);
      assert Alone(c, [step]) && Alone(c, steps[1..]) by { assert [step][0] == steps[0]; }
      AloneStep(st, c, step, before, drops, ids, x);
      AloneReaches(next, c, steps[1..], before, drops, ids + HandledIn(st, c, step), x);
      assert ids + HandledIn(st, c, step) + Members(HandledBy(next, c, steps[1..]))
          == ids + Members(HandledBy(st, c, steps));
    }
  }

  // Where the shards gave up.
  function QuitsOf(shards: nat, c: nat, steps: seq<Step>): Quits {
    map j: nat | j < shards && GiveUp(c, j) in steps :: CountOf(c, j, steps)
  }

  // Every shard's part of the run: it gave up, or handled all its entries.
  ghost predicate AllSettled(shards: seq<seq<nat>>, c: nat, steps: seq<Step>) {
    forall j :: 0 <= j < |shards| ==>
      CountOf(c, j, steps) <= |shards[j]| && (CountOf(c, j, steps) == |shards[j]| || GiveUp(c, j) in steps)
  }

  lemma EndedIsSettled(st: State, c: nat, steps: seq<Step>)
    requires InFlightAt(st, c) && Runs(st, steps) && NoEnd(c, steps) && Enabled(After(st, steps), End(c))
    ensures AllSettled(st.conns[c].pc.shards, c, steps)
  {
    ShardsHandlePrefixes(st, c, steps);
    forall j | 0 <= j < |st.conns[c].pc.shards|
      ensures CountOf(c, j, steps) <= |st.conns[c].pc.shards[j]|
      ensures CountOf(c, j, steps) == |st.conns[c].pc.shards[j]| || GiveUp(c, j) in steps
    {
      assert HandledPrefix(st, After(st, steps), c, steps, j);
    }
  }

  lemma ReachesItsPrefix(c: nat, steps: seq<Step>, order: seq<nat>, j: nat, k: nat)
    requires AllSettled(Batches(order), c, steps) && j < |Batches(order)| && k < |Batches(order)[j]|
    ensures Reaches(QuitsOf(|Batches(order)|, c, steps), j * SHARD_SIZE + k) <==> k < CountOf(c, j, steps)
  {
    ShardPosition(order, j, k);
  }

  lemma PrefixIsReached(c: nat, steps: seq<Step>, order: seq<nat>, e: nat)
    requires AllSettled(Batches(order), c, steps) && AmongPrefixes(Batches(order), c, steps, e)
    ensures e in Handled(order, QuitsOf(|Batches(order)|, c, steps), |order|)
  {
    var shards := Batches(order);
    var j :| 0 <= j < |shards| && e in Prefix(shards[j], CountOf(c, j, steps));
    var k :| 0 <= k < |Prefix(shards[j], CountOf(c, j, steps))| && Prefix(shards[j], CountOf(c, j, steps))[k] == e;
    ReachesItsPrefix(c, steps, order, j, k);
    ShardPosition(order, j, k);
  }

  lemma ReachedIsPrefix(c: nat, steps: seq<Step>, order: seq<nat>, e: nat)
    requires AllSettled(Batches(order), c, steps) && e in Handled(order, QuitsOf(|Batches(order)|, c, steps), |order|)
    ensures AmongPrefixes(Batches(order), c, steps, e)
  {
    var m: nat :| m < |order| && Reaches(QuitsOf(|Batches(order)|, c, steps), m) && order[m] == e;
    var j, k := m / SHARD_SIZE, m % SHARD_SIZE;
    PositionShard(order, m);
    ReachesItsPrefix(c, steps, order, j, k);
    assert m == j * SHARD_SIZE + k;
    assert Prefix(Batches(order)[j], CountOf(c, j, steps))[k] == e;
  }

  /** A broadcast that runs alone, its shards in any interleaving and cancelled at any point,
      does what the sequential Broadcast promises for some points of giving up: exactly the
      listeners its shards reach are offered the chunk, and full queues count as drops; with
      no shard giving up, that is every listener. */
  lemma AloneIsTheSequentialBroadcast(st: State, c: nat, order: seq<nat>, steps: seq<Step>) returns (quits: Quits)
    requires ChannelInv(st) && Enabled(st, Begin(c, order)) && Runs(Next(st, Begin(c, order)), steps)
    requires Alone(c, steps) && Enabled(After(Next(st, Begin(c, order)), steps), End(c))
    ensures var x, end := st.conns[c].pc.chunk, After(Next(st, Begin(c, order)), steps);
            var ids := Handled(order, quits, |order|);
            && QueuesOf(end) == Delivered(QueuesOf(st), ids, x, st.capacity)
            && end.drops == st.drops + |Full(QueuesOf(st), ids, st.capacity)|
            && (NoGiveUp(c, steps) ==> quits == map[])
  {
    var begun := Next(st, Begin(c, order));
    var loop := HandledBy(begun, c, steps);
    quits := QuitsOf(|Batches(order)|, c, steps);
    AloneHasNoEnd(c, steps);
    BatchesDoNotOverlap(order);
    forall e: nat | InShards(Batches(order), e) ensures e in QueuesOf(st) { InBatches<nat>(order, e); }
    assert Reached(begun, QueuesOf(st), st.drops, {}, st.conns[c].pc.chunk);
    AloneReaches(begun, c, steps, QueuesOf(st), st.drops, {}, st.conns[c].pc.chunk);
    EndedIsSettled(begun, c, steps);
    forall e ensures e in Members(loop) <==> e in Handled(order, quits, |order|) {
      HandledByMembers(begun, c, steps, e);
      if e in Members(loop) { PrefixIsReached(c, steps, order, e); }
      if e in Handled(order, quits, |order|) { ReachedIsPrefix(c, steps, order, e); }
    }
    assert {} + Members(loop) == Handled(order, quits, |order|);
    KeepsCapacity(begun, steps);
    assert NoGiveUp(c, steps) ==> forall j :: IsGiveUp(GiveUp(c, j), c) && GiveUp(c, j) !in steps;
  }

  lemma AloneHasNoEnd(c: nat, steps: seq<Step>)
    requires Alone(c, steps)
    ensures NoEnd(c, steps)
  {
  }

  lemma {:induction false} KeepsCapacity(st: State, steps: seq<Step>)
    requires Runs(st, steps)
    ensures After(st, steps).capacity == st.capacity
    decreases |steps|
  {
    if steps == [] {
    } else {
      KeepsCapacity(Next(st, steps[0]), steps[1..]);
    }
  }
}
