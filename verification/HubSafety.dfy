/** What every reachable state of the hub machine satisfies. */
module HubSafety {
  import opened Counting
  import opened Outcomes
  import opened Fanout
  import opened HubMachine

  // ---------------------------------------------------------------------
  // Locks
  // ---------------------------------------------------------------------

  function InFlight(c: Conn): int { if c.pc.Broadcasting? then 1 else 0 }

  // The write lock is held by exactly the session inside a write-locked section, the
  // read locks by the broadcasts in flight, and never both.
  ghost predicate LockInv(st: State) {
    && (st.writer.Some? ==> st.writer.value < |st.sessions| && st.readers == 0)
    && (forall s :: 0 <= s < |st.sessions| ==> (Holds(st.sessions[s].pc) <==> st.writer == Some(s)))
    && st.readers == Sum(InFlight, st.conns)
  }

  lemma NoBroadcastInFlight(st: State, c: nat)
    requires LockInv(st) && st.readers == 0 && c < |st.conns|
    ensures !st.conns[c].pc.Broadcasting?
  {
    SumAtLeast(InFlight, st.conns, c);
  }

  lemma LockStep(st: State, step: Step)
    requires LockInv(st) && Enabled(st, step)
    ensures LockInv(Next(st, step))
  {
    if SessionEnabled(st, step) {
      SessionLockStep(st, step);
    } else if ConnEnabled(st, step) {
      ConnLockStep(st, step);
    }
  }

  // One session changes: it takes, keeps, releases or never had the write lock.
  lemma LockUpdate(st: State, st': State, s: nat, v: Session)
    requires LockInv(st) && s < |st.sessions| && st'.sessions == st.sessions[s := v]
    requires st'.conns == st.conns && st'.readers == st.readers
    requires st'.writer == if Holds(v.pc) then Some(s) else if st.writer == Some(s) then None else st.writer
    requires Holds(v.pc) ==> st.readers == 0 && (st.writer == None || st.writer == Some(s))
    ensures LockInv(st')
  {
  }

  lemma SessionLockStep(st: State, step: Step)
    requires LockInv(st) && SessionEnabled(st, step)
    ensures LockInv(SessionNext(st, step))
  {
    if !step.Connect? {
      var s := SessionOf(step);
      LockUpdate(st, SessionNext(st, step), s, SessionNext(st, step).sessions[s]);
    }
  }

  lemma ConnLockStep(st: State, step: Step)
    requires LockInv(st) && ConnEnabled(st, step)
    ensures LockInv(ConnNext(st, step))
  {
    if step.Attach? {
      SumAppend(InFlight, st.conns, NEW_CONN);
    } else {
      var c := ConnOf(step);
      SumUpdate(InFlight, st.conns, c, ConnNext(st, step).conns[c]);
      if st.conns[c].pc.Broadcasting? { SumAtLeast(InFlight, st.conns, c); }
      SessionsKeepPc(st, step);
    }
  }

  lemma SessionsKeepPc(st: State, step: Step)
    requires ConnEnabled(st, step)
    ensures var after := ConnNext(st, step).sessions;
            |after| == |st.sessions| && forall s :: 0 <= s < |after| ==> after[s].pc == st.sessions[s].pc
  {
  }

  // The connection a step belongs to.
  function ConnOf(step: Step): nat
    requires step.Read? || step.ReadFails? || step.Begin? || step.Handle? || step.GiveUp? || step.End?
             || step.BroadcasterLeaves? || step.IngestWatcherCancels?
  {
    step.c
  }

  // ---------------------------------------------------------------------
  // Channels
  // ---------------------------------------------------------------------

  ghost predicate ChannelOk(capacity: nat, sess: Session) {
    && |sess.queue| <= capacity
    && sess.closes == (if sess.pc.Finished? then 1 else 0)
    && (sess.pc.WantsToSubscribe? || sess.pc.HoldsToSubscribe? ==>
          sess.queue == [] && sess.taken == [] && sess.lost == [] && sess.skipped == [])
    && (sess.pc.Writing? ==> sess.taken != [] && sess.taken[|sess.taken|-1] == sess.pc.chunk)
    && |sess.reasons| == (if HasDisconnected(sess.pc) then 1 else 0)
    && (sess.pc.Leaving? ==> sess.pc.reason != StreamEnded)
    && StreamEnded !in sess.reasons
  }

  // The listeners map holds exactly the channels between Subscribe and Unsubscribe; a
  // channel is closed once, by its session's own Unsubscribe.
  ghost predicate ChannelInv(st: State) {
    && (forall s :: s in st.listeners <==> 0 <= s < |st.sessions| && IsRegistered(st.sessions[s].pc))
    && (forall s :: 0 <= s < |st.sessions| ==> ChannelOk(st.capacity, st.sessions[s]))
  }

  // One session changes, and the map follows.
  lemma ChannelUpdate(st: State, st': State, s: nat, v: Session)
    requires ChannelInv(st) && s < |st.sessions|
    requires st'.sessions == st.sessions[s := v] && st'.capacity == st.capacity && ChannelOk(st.capacity, v)
    requires st'.listeners == if IsRegistered(v.pc) then st.listeners + {s} else st.listeners - {s}
    ensures ChannelInv(st')
  {
  }

  // The session a step belongs to.
  function SessionOf(step: Step): nat
    requires step.LockToSubscribe? || step.Subscribe? || step.CountConnect? || step.Take? || step.WriteSucceeds?
             || step.WriteFails? || step.SeesCancel? || step.SeesClosedChannel? || step.CountDisconnect?
             || step.LockToUnsubscribe? || step.Unsubscribe? || step.ClientLeaves? || step.WatcherCancels?
  {
    step.s
  }

  lemma SessionChannelStep(st: State, step: Step)
    requires LockInv(st) && ChannelInv(st) && SessionEnabled(st, step)
    ensures ChannelInv(SessionNext(st, step))
  {
    if step.Connect? {
    } else {
      var s := SessionOf(step);
      SessionStaysOk(st, step);
      OneSessionMoves(st, step);
      ChannelUpdate(st, SessionNext(st, step), s, SessionNext(st, step).sessions[s]);
    }
  }

  lemma SessionStaysOk(st: State, step: Step)
    requires SessionEnabled(st, step) && !step.Connect? && ChannelInv(st)
    ensures ChannelOk(st.capacity, SessionNext(st, step).sessions[SessionOf(step)])
  {
    assert ChannelOk(st.capacity, st.sessions[SessionOf(step)]);
    if step.Take? || step.CountDisconnect? || step.Unsubscribe? {
      BusyStepStaysOk(st, step);
    } else {
      PlainStepStaysOk(st, step);
    }
  }

  lemma BusyStepStaysOk(st: State, step: Step)
    requires SessionEnabled(st, step) && (step.Take? || step.CountDisconnect? || step.Unsubscribe?)
    requires ChannelOk(st.capacity, st.sessions[SessionOf(step)])
    ensures ChannelOk(st.capacity, SessionNext(st, step).sessions[SessionOf(step)])
  {
  }

  lemma PlainStepStaysOk(st: State, step: Step)
    requires SessionEnabled(st, step) && !step.Connect? && !step.Take? && !step.CountDisconnect? && !step.Unsubscribe?
    requires ChannelOk(st.capacity, st.sessions[SessionOf(step)])
    ensures ChannelOk(st.capacity, SessionNext(st, step).sessions[SessionOf(step)])
  {
  }

  lemma OneSessionMoves(st: State, step: Step)
    requires SessionEnabled(st, step) && !step.Connect? && LockInv(st) && ChannelInv(st)
    ensures var s, after := SessionOf(step), SessionNext(st, step);
            && after.sessions == st.sessions[s := after.sessions[s]] && after.capacity == st.capacity
            && after.listeners
               == if IsRegistered(after.sessions[s].pc) then st.listeners + {s} else st.listeners - {s}
  {
    assert ChannelOk(st.capacity, st.sessions[SessionOf(step)]);
  }

  lemma ConnChannelStep(st: State, step: Step)
    requires LockInv(st) && ChannelInv(st) && BroadcastInv(st) && ConnEnabled(st, step)
    ensures ChannelInv(ConnNext(st, step))
  {
    if step.Handle? {
      HandleKeepsChannels(st, step);
    } else if step.GiveUp? {
      GiveUpKeepsChannels(st, step);
    }
  }

  lemma HandleKeepsChannels(st: State, step: Step)
    requires ChannelInv(st) && BroadcastInv(st) && step.Handle? && ConnEnabled(st, step)
    ensures ChannelInv(ConnNext(st, step))
  {
    var e := Target(st, step.c, step.j);
    assert e in st.listeners;
    assert ChannelOk(st.capacity, st.sessions[e]);
    ChannelUpdate(st, ConnNext(st, step), e, ConnNext(st, step).sessions[e]);
  }

  lemma GiveUpKeepsChannels(st: State, step: Step)
    requires ChannelInv(st) && BroadcastInv(st) && step.GiveUp? && ConnEnabled(st, step)
    ensures ChannelInv(ConnNext(st, step))
  {
    forall s | 0 <= s < |st.sessions| ensures ChannelOk(st.capacity, ConnNext(st, step).sessions[s]) {
      assert ChannelOk(st.capacity, st.sessions[s]);
    }
  }

  lemma ChannelStep(st: State, step: Step)
    requires LockInv(st) && ChannelInv(st) && BroadcastInv(st) && Enabled(st, step)
    ensures ChannelInv(Next(st, step))
  {
    if SessionEnabled(st, step) {
      SessionChannelStep(st, step);
    } else if ConnEnabled(st, step) {
      ConnChannelStep(st, step);
    }
  }

  // ---------------------------------------------------------------------
  // Broadcasts in flight
  // ---------------------------------------------------------------------

  ghost predicate ShardsOk(listeners: set<nat>, shards: seq<seq<nat>>) {
    && NoOverlap(shards)
    && forall j, k :: 0 <= j < |shards| && 0 <= k < |shards[j]| ==> shards[j][k] in listeners
  }

  // While a broadcast is in flight its shards hold distinct, still registered listeners.
  ghost predicate BroadcastInv(st: State) {
    forall c :: 0 <= c < |st.conns| && st.conns[c].pc.Broadcasting? ==>
      ShardsOk(st.listeners, st.conns[c].pc.shards)
  }

  lemma BeginShards(listeners: set<nat>, order: seq<nat>)
    requires Distinct(order) && forall s :: s in order <==> s in listeners
    ensures ShardsOk(listeners, Batches(order))
  {
    BatchesDoNotOverlap(order);
    forall j, k | 0 <= j < |Batches(order)| && 0 <= k < |Batches(order)[j]|
      ensures Batches(order)[j][k] in listeners
    {
      BatchPosition(order, j, k);
    }
  }

  lemma HandleShards(listeners: set<nat>, shards: seq<seq<nat>>, j: nat)
    requires ShardsOk(listeners, shards) && j < |shards| && shards[j] != []
    ensures ShardsOk(listeners, shards[j := shards[j][1..]])
    ensures ShardsOk(listeners, shards[j := []])
    ensures forall s :: s != shards[j][0] ==> (InShards(shards[j := shards[j][1..]], s) <==> InShards(shards, s))
    ensures InShards(shards, shards[j][0]) && !InShards(shards[j := shards[j][1..]], shards[j][0])
  {
    var after := shards[j := shards[j][1..]];
    forall s | s != shards[j][0] && InShards(shards, s) ensures InShards(after, s) {
      var i :| 0 <= i < |shards| && s in shards[i];
      var k :| 0 <= k < |shards[i]| && shards[i][k] == s;
      if i == j { assert after[j][k - 1] == s; }
      assert s in after[i];
    }
  }

  lemma BroadcastUpdate(st: State, st': State, c: nat, v: Conn)
    requires BroadcastInv(st) && c < |st.conns|
    requires st'.conns == st.conns[c := v] && st'.listeners == st.listeners
    requires v.pc.Broadcasting? ==> ShardsOk(st.listeners, v.pc.shards)
    ensures BroadcastInv(st')
  {
  }

  lemma ConnBroadcastStep(st: State, step: Step)
    requires BroadcastInv(st) && ConnEnabled(st, step)
    ensures BroadcastInv(ConnNext(st, step))
  {
    if !step.Attach? {
      var c := ConnOf(step);
      var pc := st.conns[c].pc;
      if step.Begin? { BeginShards(st.listeners, step.order); }
      if step.Handle? || step.GiveUp? { HandleShards(st.listeners, pc.shards, step.j); }
      BroadcastUpdate(st, ConnNext(st, step), c, ConnNext(st, step).conns[c]);
    }
  }

  lemma SessionBroadcastStep(st: State, step: Step)
    requires LockInv(st) && BroadcastInv(st) && SessionEnabled(st, step)
    ensures BroadcastInv(SessionNext(st, step))
  {
    if step.Unsubscribe? {
      forall c | 0 <= c < |st.conns| ensures !st.conns[c].pc.Broadcasting? { NoBroadcastInFlight(st, c); }
    }
  }

  lemma BroadcastStep(st: State, step: Step)
    requires LockInv(st) && BroadcastInv(st) && Enabled(st, step)
    ensures BroadcastInv(Next(st, step))
  {
    if SessionEnabled(st, step) {
      SessionBroadcastStep(st, step);
    } else if ConnEnabled(st, step) {
      ConnBroadcastStep(st, step);
    }
  }
}
