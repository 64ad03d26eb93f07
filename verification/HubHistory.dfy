/** Where every chunk of every broadcast goes, in every interleaving. */
module HubHistory {
  import opened Fanout
  import opened HubMachine
  import opened HubSafety

  // ---------------------------------------------------------------------
  // The log of broadcasts
  // ---------------------------------------------------------------------

  // Chunks of one connection appear with increasing numbers.
  ghost predicate Ordered(h: seq<Chunk>) {
    forall p, q :: 0 <= p < q < |h| && h[p].conn == h[q].conn ==> h[p].num < h[q].num
  }

  // The chunk a connection is about to broadcast is its latest and not in the log yet;
  // the chunk it is broadcasting is its latest and in the log.
  ghost predicate ConnOk(log: seq<Chunk>, c: nat, conn: Conn) {
    && (conn.pc.WantsToBroadcast? ==>
          conn.next > 0 && conn.pc.chunk == Chunk(c, conn.next - 1) && conn.pc.chunk !in log)
    && (conn.pc.Broadcasting? ==> conn.next > 0 && conn.pc.chunk == Chunk(c, conn.next - 1) && conn.pc.chunk in log)
  }

  ghost predicate Known(conns: seq<Conn>, x: Chunk) {
    x.conn < |conns| && x.num < conns[x.conn].next
  }

  ghost predicate LogInv(st: State) {
    && Ordered(st.log)
    && (forall x :: x in st.log ==> Known(st.conns, x))
    && (forall c :: 0 <= c < |st.conns| ==> ConnOk(st.log, c, st.conns[c]))
  }

  lemma LogUpdate(st: State, st': State, c: nat, v: Conn)
    requires LogInv(st) && c < |st.conns| && st'.conns == st.conns[c := v] && st'.log == st.log
    requires v.next >= st.conns[c].next && ConnOk(st.log, c, v)
    ensures LogInv(st')
  {
    forall x | x in st'.log ensures Known(st'.conns, x) { assert Known(st.conns, x); }
  }

  lemma LogGrows(st: State, st': State, c: nat, v: Conn)
    requires LogInv(st) && c < |st.conns| && st.conns[c].pc.WantsToBroadcast?
    requires v.pc.Broadcasting? && v.pc.chunk == st.conns[c].pc.chunk && v.next == st.conns[c].next
    requires st'.conns == st.conns[c := v] && st'.log == st.log + [v.pc.chunk]
    ensures LogInv(st')
  {
    var x := v.pc.chunk;
    assert ConnOk(st.log, c, st.conns[c]);
    forall p | 0 <= p < |st.log| && st.log[p].conn == c ensures st.log[p].num < x.num {
      assert Known(st.conns, st.log[p]);
    }
    forall y | y in st'.log ensures Known(st'.conns, y) { assert y == x || Known(st.conns, y); }
    forall d | 0 <= d < |st'.conns| ensures ConnOk(st'.log, d, st'.conns[d]) {
      assert ConnOk(st.log, d, st.conns[d]);
    }
  }

  lemma LogStep(st: State, step: Step)
    requires LogInv(st) && Enabled(st, step)
    ensures LogInv(Next(st, step))
  {
    if ConnEnabled(st, step) {
      if step.Attach? {
        LogAttach(st);
      } else {
        var c := ConnOf(step);
        assert ConnOk(st.log, c, st.conns[c]);
        if step.Begin? {
          LogGrows(st, ConnNext(st, step), c, ConnNext(st, step).conns[c]);
        } else {
          assert Chunk(c, st.conns[c].next) !in st.log;
          LogUpdate(st, ConnNext(st, step), c, ConnNext(st, step).conns[c]);
        }
      }
    }
  }

  lemma LogAttach(st: State)
    requires LogInv(st)
    ensures LogInv(st.(conns := st.conns + [NEW_CONN]))
  {
    var conns := st.conns + [NEW_CONN];
    forall x | x in st.log ensures Known(conns, x) { assert Known(st.conns, x); }
    forall d | 0 <= d < |conns| ensures ConnOk(st.log, d, conns[d]) {
      if d < |st.conns| { assert ConnOk(st.log, d, st.conns[d]); }
    }
  }

  // ---------------------------------------------------------------------
  // Conservation
  // ---------------------------------------------------------------------

  // The chunks whose fate for this listener is settled.
  function Settled(sess: Session): multiset<Chunk> {
    multiset(sess.taken) + multiset(sess.queue) + multiset(sess.lost) + multiset(sess.skipped)
  }

  ghost predicate HasBounds(log: seq<Chunk>, sess: Session) {
    && (IsRegistered(sess.pc) ==> sess.since <= |log|)
    && (sess.pc.Finished? ==> sess.since <= sess.until <= |log|)
  }

  // The broadcasts begun while the session's channel was registered.
  function Span(log: seq<Chunk>, sess: Session): seq<Chunk>
    requires HasBounds(log, sess)
  {
    if IsRegistered(sess.pc) then log[sess.since..]
    else if sess.pc.Finished? then log[sess.since..sess.until]
    else []
  }

  ghost function PendingAt(conn: Conn, s: nat, x: Chunk): nat {
    if conn.pc.Broadcasting? && conn.pc.chunk == x && InShards(conn.pc.shards, s) then 1 else 0
  }

  // 1 if a broadcast in flight still has to handle chunk x for session s.
  ghost function Pending(conns: seq<Conn>, s: nat, x: Chunk): nat {
    if x.conn < |conns| then PendingAt(conns[x.conn], s, x) else 0
  }

  // Every broadcast begun since the subscribe is, exactly once: taken, queued, dropped,
  // given up by a cancelled broadcaster, or still pending in a shard.
  ghost predicate Conserves(log: seq<Chunk>, conns: seq<Conn>, s: nat, sess: Session) {
    HasBounds(log, sess)
    && forall x :: Settled(sess)[x] + Pending(conns, s, x) == multiset(Span(log, sess))[x]
  }

  ghost predicate ConservationInv(st: State) {
    forall s :: 0 <= s < |st.sessions| ==> Conserves(st.log, st.conns, s, st.sessions[s])
  }

  // Nothing is pending for a session that is not registered.
  lemma NotRegisteredNotPending(st: State, s: nat)
    requires BroadcastInv(st) && s !in st.listeners
    ensures forall x :: Pending(st.conns, s, x) == 0
  {
  }

  lemma SameAccount(log: seq<Chunk>, log': seq<Chunk>, conns: seq<Conn>, conns': seq<Conn>, s: nat, sess: Session,
                    sess': Session)
    requires Conserves(log, conns, s, sess) && HasBounds(log', sess')
    requires Settled(sess') == Settled(sess) && Span(log', sess') == Span(log, sess)
    requires forall x :: Pending(conns', s, x) == Pending(conns, s, x)
    ensures Conserves(log', conns', s, sess')
  {
  }

  // Connection c's step leaves what it has pending for session s.
  lemma PendingKept(conns: seq<Conn>, c: nat, v: Conn, s: nat)
    requires c < |conns|
    requires v.pc.Broadcasting? == conns[c].pc.Broadcasting?
    requires v.pc.Broadcasting? ==> (&& v.pc.chunk == conns[c].pc.chunk
                                     && (InShards(v.pc.shards, s) <==> InShards(conns[c].pc.shards, s)))
    ensures forall x :: Pending(conns[c := v], s, x) == Pending(conns, s, x)
  {
  }

  // Connection c's step settles its chunk for session s.
  lemma PendingSettled(log: seq<Chunk>, conns: seq<Conn>, c: nat, v: Conn, s: nat, sess: Session, sess': Session)
    requires Conserves(log, conns, s, sess) && c < |conns|
    requires conns[c].pc.Broadcasting? && conns[c].pc.chunk.conn == c && v.pc.Broadcasting?
    requires v.pc.chunk == conns[c].pc.chunk
    requires InShards(conns[c].pc.shards, s) && !InShards(v.pc.shards, s)
    requires HasBounds(log, sess') && Span(log, sess') == Span(log, sess)
    requires Settled(sess') == Settled(sess) + multiset{v.pc.chunk}
    ensures Conserves(log, conns[c := v], s, sess')
  {
    PendingDrops(conns, c, v, s);
  }

  lemma PendingDrops(conns: seq<Conn>, c: nat, v: Conn, s: nat)
    requires c < |conns|
    requires conns[c].pc.Broadcasting? && conns[c].pc.chunk.conn == c && v.pc.Broadcasting?
    requires v.pc.chunk == conns[c].pc.chunk
    requires InShards(conns[c].pc.shards, s) && !InShards(v.pc.shards, s)
    ensures forall y :: Pending(conns, s, y) == Pending(conns[c := v], s, y) + multiset{v.pc.chunk}[y]
  {
  }

  // Connection c begins to broadcast x, with the registered listeners in its shards.
  lemma PendingBegins(log: seq<Chunk>, conns: seq<Conn>, c: nat, v: Conn, s: nat, sess: Session, x: Chunk)
    requires Conserves(log, conns, s, sess) && c < |conns|
    requires !conns[c].pc.Broadcasting? && v.pc.Broadcasting? && v.pc.chunk == x && x.conn == c
    requires InShards(v.pc.shards, s) <==> IsRegistered(sess.pc)
    ensures Conserves(log + [x], conns[c := v], s, sess)
  {
    SpanGrows(log, sess, x);
    PendingRises(conns, c, v, s, IsRegistered(sess.pc));
    forall y ensures Settled(sess)[y] + Pending(conns[c := v], s, y) == multiset(Span(log + [x], sess))[y] {
      assert Settled(sess)[y] + Pending(conns, s, y) == multiset(Span(log, sess))[y];
    }
  }

  lemma PendingRises(conns: seq<Conn>, c: nat, v: Conn, s: nat, listed: bool)
    requires c < |conns| && !conns[c].pc.Broadcasting? && v.pc.Broadcasting? && v.pc.chunk.conn == c
    requires InShards(v.pc.shards, s) <==> listed
    ensures forall y :: Pending(conns[c := v], s, y)
                     == Pending(conns, s, y) + (if listed && y == v.pc.chunk then 1 else 0)
  {
  }

  lemma SpanGrows(log: seq<Chunk>, sess: Session, x: Chunk)
    requires HasBounds(log, sess)
    ensures HasBounds(log + [x], sess)
    ensures Span(log + [x], sess) == Span(log, sess) + if IsRegistered(sess.pc) then [x] else []
    ensures multiset(Span(log + [x], sess))
         == multiset(Span(log, sess)) + if IsRegistered(sess.pc) then multiset{x} else multiset{}
  {
    if IsRegistered(sess.pc) { assert (log + [x])[sess.since..] == log[sess.since..] + [x]; }
    if sess.pc.Finished? { assert (log + [x])[sess.since..sess.until] == log[sess.since..sess.until]; }
  }

  lemma TakeSettles(sess: Session)
    requires sess.queue != []
    ensures Settled(sess.(queue := sess.queue[1..], taken := sess.taken + [sess.queue[0]])) == Settled(sess)
    ensures Settled(sess.(pc := Writing(sess.queue[0]), queue := sess.queue[1..],
                          taken := sess.taken + [sess.queue[0]]))
         == Settled(sess)
  {
    assert sess.queue == [sess.queue[0]] + sess.queue[1..];
  }

  lemma SettleOne(sess: Session, x: Chunk, capacity: nat)
    ensures Settled(Deliver(sess, x, capacity)) == Settled(sess) + multiset{x}
    ensures Settled(Skip(sess, x)) == Settled(sess) + multiset{x}
  {
  }

  lemma SessionConserves(st: State, step: Step)
    requires LockInv(st) && ChannelInv(st) && BroadcastInv(st) && ConservationInv(st) && SessionEnabled(st, step)
    ensures ConservationInv(SessionNext(st, step))
  {
    var st' := SessionNext(st, step);
    forall s | 0 <= s < |st'.sessions| ensures Conserves(st'.log, st'.conns, s, st'.sessions[s]) {
      if s == |st.sessions| {
        NotRegisteredNotPending(st, s);
      } else {
        assert Conserves(st.log, st.conns, s, st.sessions[s]);
        if !step.Connect? && s == SessionOf(step) { OwnStepConserves(st, step, s); }
      }
    }
  }

  lemma OwnStepConserves(st: State, step: Step, s: nat)
    requires LockInv(st) && ChannelInv(st) && BroadcastInv(st) && SessionEnabled(st, step)
    requires s < |st.sessions| && Conserves(st.log, st.conns, s, st.sessions[s])
    requires !step.Connect? && s == SessionOf(step)
    ensures Conserves(st.log, st.conns, s, SessionNext(st, step).sessions[s])
  {
    assert ChannelOk(st.capacity, st.sessions[s]);
    OwnStepKeepsAccount(st, step, s);
    SameAccount(st.log, st.log, st.conns, st.conns, s, st.sessions[s], SessionNext(st, step).sessions[s]);
  }

  // A step of its own settles nothing for a session and leaves its span of the log.
  ghost predicate SameBooks(log: seq<Chunk>, sess: Session, sess': Session)
    requires HasBounds(log, sess)
  {
    HasBounds(log, sess') && Settled(sess') == Settled(sess) && Span(log, sess') == Span(log, sess)
  }

  lemma OwnStepKeepsAccount(st: State, step: Step, s: nat)
    requires SessionEnabled(st, step) && !step.Connect? && s == SessionOf(step)
    requires HasBounds(st.log, st.sessions[s]) && ChannelOk(st.capacity, st.sessions[s])
    ensures SameBooks(st.log, st.sessions[s], SessionNext(st, step).sessions[s])
  {
    if step.Take? {
      TakeKeepsAccount(st, s);
    } else if step.Subscribe? {
      SubscribeKeepsAccount(st, s);
    } else if step.Unsubscribe? {
      UnsubscribeKeepsAccount(st, s);
    } else {
      OtherStepKeepsAccount(st, step, s);
    }
  }

  lemma TakeKeepsAccount(st: State, s: nat)
    requires SessionEnabled(st, Take(s)) && HasBounds(st.log, st.sessions[s])
    ensures SameBooks(st.log, st.sessions[s], SessionNext(st, Take(s)).sessions[s])
  {
    TakeSettles(st.sessions[s]);
  }

  lemma SubscribeKeepsAccount(st: State, s: nat)
    requires SessionEnabled(st, Subscribe(s)) && HasBounds(st.log, st.sessions[s])
    ensures SameBooks(st.log, st.sessions[s], SessionNext(st, Subscribe(s)).sessions[s])
  {
    assert st.log[|st.log|..] == [];
  }

  lemma UnsubscribeKeepsAccount(st: State, s: nat)
    requires SessionEnabled(st, Unsubscribe(s)) && HasBounds(st.log, st.sessions[s])
    ensures SameBooks(st.log, st.sessions[s], SessionNext(st, Unsubscribe(s)).sessions[s])
  {
    var sess := st.sessions[s];
    assert st.log[sess.since..|st.log|] == st.log[sess.since..];
  }

  lemma OtherStepKeepsAccount(st: State, step: Step, s: nat)
    requires SessionEnabled(st, step) && !step.Connect? && s == SessionOf(step) && HasBounds(st.log, st.sessions[s])
    requires !step.Take? && !step.Subscribe? && !step.Unsubscribe?
    ensures SameBooks(st.log, st.sessions[s], SessionNext(st, step).sessions[s])
  {
    var sess, sess' := st.sessions[s], SessionNext(st, step).sessions[s];
    assert IsRegistered(sess'.pc) == IsRegistered(sess.pc) && sess'.pc.Finished? == sess.pc.Finished?;
    assert sess'.since == sess.since && sess'.until == sess.until;
  }

  lemma HandleConserves(st: State, step: Step)
    requires BroadcastInv(st) && LogInv(st) && ConservationInv(st)
    requires step.Handle? && ConnEnabled(st, step)
    ensures ConservationInv(ConnNext(st, step))
  {
    var st' := ConnNext(st, step);
    var c, e := step.c, Target(st, step.c, step.j);
    assert ConnOk(st.log, c, st.conns[c]);
    HandleShards(st.listeners, st.conns[c].pc.shards, step.j);
    forall s | 0 <= s < |st'.sessions| ensures Conserves(st'.log, st'.conns, s, st'.sessions[s]) {
      assert Conserves(st.log, st.conns, s, st.sessions[s]);
      if s == e {
        SettleOne(st.sessions[e], st.conns[c].pc.chunk, st.capacity);
        PendingSettled(st.log, st.conns, c, st'.conns[c], s, st.sessions[s], st'.sessions[s]);
      } else {
        PendingKept(st.conns, c, st'.conns[c], s);
        SameAccount(st.log, st.log, st.conns, st'.conns, s, st.sessions[s], st.sessions[s]);
      }
    }
  }

  lemma GiveUpConserves(st: State, step: Step)
    requires BroadcastInv(st) && LogInv(st) && ConservationInv(st)
    requires step.GiveUp? && ConnEnabled(st, step)
    ensures ConservationInv(ConnNext(st, step))
  {
    var st' := ConnNext(st, step);
    var c, shards := step.c, st.conns[step.c].pc.shards;
    assert ConnOk(st.log, c, st.conns[c]);
    forall s | 0 <= s < |st'.sessions| ensures Conserves(st'.log, st'.conns, s, st'.sessions[s]) {
      assert Conserves(st.log, st.conns, s, st.sessions[s]);
      EmptiedShard(shards, step.j, s, st.listeners);
      if s in shards[step.j] {
        SettleOne(st.sessions[s], st.conns[c].pc.chunk, st.capacity);
        PendingSettled(st.log, st.conns, c, st'.conns[c], s, st.sessions[s], st'.sessions[s]);
      } else {
        PendingKept(st.conns, c, st'.conns[c], s);
        SameAccount(st.log, st.log, st.conns, st'.conns, s, st.sessions[s], st.sessions[s]);
      }
    }
  }

  lemma EmptiedShard(shards: seq<seq<nat>>, j: nat, s: nat, listeners: set<nat>)
    requires ShardsOk(listeners, shards) && j < |shards|
    ensures s in shards[j] ==> InShards(shards, s) && !InShards(shards[j := []], s)
    ensures s !in shards[j] ==> (InShards(shards[j := []], s) <==> InShards(shards, s))
  {
    var after := shards[j := []];
    if s !in shards[j] && InShards(shards, s) {
      var i :| 0 <= i < |shards| && s in shards[i];
      assert s in after[i];
    }
  }

  lemma BeginConserves(st: State, step: Step)
    requires ChannelInv(st) && LogInv(st) && ConservationInv(st)
    requires step.Begin? && ConnEnabled(st, step)
    ensures ConservationInv(ConnNext(st, step))
  {
    var st' := ConnNext(st, step);
    var c := step.c;
    assert ConnOk(st.log, c, st.conns[c]);
    forall s | 0 <= s < |st'.sessions| ensures Conserves(st'.log, st'.conns, s, st'.sessions[s]) {
      assert Conserves(st.log, st.conns, s, st.sessions[s]);
      InBatches<nat>(step.order, s);
      PendingBegins(st.log, st.conns, c, st'.conns[c], s, st.sessions[s], st.conns[c].pc.chunk);
    }
  }

  lemma EndConserves(st: State, step: Step)
    requires ConservationInv(st) && step.End? && ConnEnabled(st, step)
    ensures ConservationInv(ConnNext(st, step))
  {
    var st' := ConnNext(st, step);
    forall s | 0 <= s < |st'.sessions| ensures Conserves(st'.log, st'.conns, s, st'.sessions[s]) {
      assert Conserves(st.log, st.conns, s, st.sessions[s]);
      assert !InShards(st.conns[step.c].pc.shards, s);
      SameAccount(st.log, st.log, st.conns, st'.conns, s, st.sessions[s], st.sessions[s]);
    }
  }

  lemma OtherConnConserves(st: State, step: Step)
    requires ConservationInv(st) && ConnEnabled(st, step)
    requires !step.Begin? && !step.Handle? && !step.GiveUp? && !step.End?
    ensures ConservationInv(ConnNext(st, step))
  {
    forall s | 0 <= s < |st.sessions| ensures Conserves(st.log, ConnNext(st, step).conns, s, st.sessions[s]) {
      assert Conserves(st.log, st.conns, s, st.sessions[s]);
      OtherConnKeepsPending(st, step, s);
      SameAccount(st.log, st.log, st.conns, ConnNext(st, step).conns, s, st.sessions[s], st.sessions[s]);
    }
  }

  lemma OtherConnKeepsPending(st: State, step: Step, s: nat)
    requires ConnEnabled(st, step) && !step.Begin? && !step.Handle? && !step.GiveUp? && !step.End?
    ensures forall x :: Pending(ConnNext(st, step).conns, s, x) == Pending(st.conns, s, x)
  {
    if !step.Attach? { PendingKept(st.conns, ConnOf(step), ConnNext(st, step).conns[ConnOf(step)], s); }
  }

  lemma ConservationStep(st: State, step: Step)
    requires LockInv(st) && ChannelInv(st) && BroadcastInv(st) && LogInv(st) && ConservationInv(st)
    requires Enabled(st, step)
    ensures ConservationInv(Next(st, step))
  {
    if SessionEnabled(st, step) {
      SessionConserves(st, step);
    } else if ConnEnabled(st, step) {
      if step.Begin? {
        BeginConserves(st, step);
      } else if step.Handle? {
        HandleConserves(st, step);
      } else if step.GiveUp? {
        GiveUpConserves(st, step);
      } else if step.End? {
        EndConserves(st, step);
      } else {
        OtherConnConserves(st, step);
      }
    }
  }
}
