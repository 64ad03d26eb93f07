/** How many calls the limiter of backend/pkg/middleware/ratelimit.go allows a client, over
any stretch of any multi-client run. */
module RateLimitBound {
  import opened RateLimit

  // The cost of the calls of client k that are allowed.
  function Spent(p: ActivePolicy, cap: nat, t: Table, calls: seq<Call>, k: string): int
    decreases |calls|
  {
    if calls == [] then 0
    else Cost(p, t, calls[0], k) + Spent(p, cap, Next(p, cap, t, calls[0]), calls[1..], k)
  }

  function Cost(p: ActivePolicy, t: Table, c: Call, k: string): int {
    if c.key == k && Accepts(p, t, c) then p.window else 0
  }

  lemma {:induction false} SpentIsCost(p: ActivePolicy, cap: nat, t: Table, calls: seq<Call>, k: string)
    ensures Spent(p, cap, t, calls, k) == p.window * Allowed(p, cap, t, calls, k)
    decreases |calls|
  {
    if calls == [] {
    } else {
      var t1 := Next(p, cap, t, calls[0]);
      SpentIsCost(p, cap, t1, calls[1..], k);
      Unit(p.window, Allowed(p, cap, t1, calls[1..], k));
    }
  }

  // ---------------------------------------------------------------------
  // The advance of a client's bucket clock
  // ---------------------------------------------------------------------

  // How far a call moves the clock of client k's bucket; a new bucket starts its own.
  function ClockStep(t: Table, c: Call, k: string): nat {
    if c.key == k && k in t && c.now > t[k].last then c.now - t[k].last else 0
  }

  // The sum, over all buckets client k has during the run, of the advance of their clocks.
  function ClockAdvance(p: ActivePolicy, cap: nat, t: Table, calls: seq<Call>, k: string): nat
    decreases |calls|
  {
    if calls == [] then 0
    else ClockStep(t, calls[0], k) + ClockAdvance(p, cap, Next(p, cap, t, calls[0]), calls[1..], k)
  }

  // The bucket's clock when the stretch starts: the stored one, or the reading of the
  // call that creates the bucket.
  function StartClock(t: Table, calls: seq<Call>, k: string): int {
    if k in t then t[k].last
    else if calls == [] then 0
    else if calls[0].key == k then calls[0].now
    else StartClock(t, calls[1..], k)
  }

  lemma {:induction false} StartClockSkips(t: Table, t1: Table, calls: seq<Call>, k: string)
    requires k !in t && k !in t1
    ensures StartClock(t, calls, k) == StartClock(t1, calls, k)
  {
    if calls == [] {
    } else {
      StartClockSkips(t, t1, calls[1..], k);
    }
  }

  // Without a clear there is one bucket, and the sum is its clock's whole advance.
  lemma {:induction false} AdvanceOfOneBucket(p: ActivePolicy, cap: nat, t: Table, calls: seq<Call>, k: string)
    requires Clears(p, cap, t, calls) == 0
    ensures var end := After(p, cap, t, calls);
            && (k in t ==> k in end)
            && (k in end ==> end[k].last == StartClock(t, calls, k) + ClockAdvance(p, cap, t, calls, k))
            && (k !in end ==> Spent(p, cap, t, calls, k) == 0)
    decreases |calls|
  {
    if calls == [] {
    } else {
      var t1 := Next(p, cap, t, calls[0]);
      AdvanceOfOneBucket(p, cap, t1, calls[1..], k);
      if k !in t1 { StartClockSkips(t, t1, calls[1..], k); }
    }
  }

  predicate ReadingsWithin(calls: seq<Call>, lo: int, hi: int) {
    forall i :: 0 <= i < |calls| ==> lo <= calls[i].now <= hi
  }

  // A bucket advances by at most the spread of the readings, and each clear can start
  // another.
  lemma {:induction false} AdvanceWithin(p: ActivePolicy, cap: nat, t: Table, calls: seq<Call>, k: string, lo: int,
                                         hi: int)
    requires ReadingsWithin(calls, lo, hi) && lo <= hi && (k in t ==> t[k].last <= hi)
    ensures ClockAdvance(p, cap, t, calls, k)
         <= (if k in t then hi - t[k].last else hi - lo) + Clears(p, cap, t, calls) * (hi - lo)
    decreases |calls|
  {
    if calls == [] {
      Scale(hi - lo, 0, Clears(p, cap, t, calls));
    } else {
      var t1 := Next(p, cap, t, calls[0]);
      AdvanceWithin(p, cap, t1, calls[1..], k, lo, hi);
      Unit(hi - lo, Clears(p, cap, t1, calls[1..]));
    }
  }

  // With in-order readings the buckets' stretches of time do not overlap.
  lemma {:induction false} AdvanceInOrder(p: ActivePolicy, cap: nat, t: Table, calls: seq<Call>, k: string, lo: int,
                                          hi: int)
    requires ReadingsWithin(calls, lo, hi) && InOrder(calls) && lo <= hi && (k in t ==> t[k].last <= lo)
    ensures ClockAdvance(p, cap, t, calls, k) <= if k in t then hi - t[k].last else hi - lo
    decreases |calls|
  {
    if calls == [] {
    } else {
      AdvanceInOrder(p, cap, Next(p, cap, t, calls[0]), calls[1..], k, calls[0].now, hi);
    }
  }

  // ---------------------------------------------------------------------
  // What a run can spend
  // ---------------------------------------------------------------------

  // What client k can draw at once: its bucket's level, or a full bucket's.
  function Held(p: ActivePolicy, t: Table, k: string): int {
    if k in t then t[k].level else p.Capacity()
  }

  // A call spends what is held or refilled, or what a clear grants.
  lemma CallPays(p: ActivePolicy, cap: nat, t: Table, c: Call, k: string)
    requires Sound(p, t)
    ensures Cost(p, t, c, k) + Held(p, Next(p, cap, t, c), k)
         <= Held(p, t, k) + (if Evicts(cap, t, c) then p.Capacity() else 0) + p.requests * ClockStep(t, c, k)
  {
    CapacityHoldsAToken(p);
    Scale(p.requests, 0, ClockStep(t, c, k));
  }

  /** Whatever the other clients do and in whatever order readings arrive: what the client
      is allowed, and what its bucket holds at the end, come out of what it held at the
      start, one quota per clear, and the refill over the advance of its bucket clocks. */
  lemma {:induction false} EpochBound(p: ActivePolicy, cap: nat, t: Table, calls: seq<Call>, k: string)
    requires Sound(p, t)
    ensures p.window * Allowed(p, cap, t, calls, k) + Held(p, After(p, cap, t, calls), k)
         <= Held(p, t, k) + Clears(p, cap, t, calls) * p.Capacity() + p.requests * ClockAdvance(p, cap, t, calls, k)
    decreases |calls|
  {
    SpentIsCost(p, cap, t, calls, k);
    if calls == [] {
    } else {
      var t1 := Next(p, cap, t, calls[0]);
      NextKeepsSound(p, cap, t, calls[0]);
      CallPays(p, cap, t, calls[0], k);
      EpochBound(p, cap, t1, calls[1..], k);
      SpentIsCost(p, cap, t1, calls[1..], k);
      Unit(p.Capacity(), Clears(p, cap, t1, calls[1..]));
      Distribute(p.requests, ClockStep(t, calls[0], k), ClockAdvance(p, cap, t1, calls[1..], k));
    }
  }

  /** Over any stretch of a run without a table clear, whatever the other clients
      do and in whatever order clock readings arrive, client k is allowed at most
      Requests + (Requests / Window) * (the advance of its bucket's clock) calls. */
  lemma RateBound(p: ActivePolicy, cap: nat, t: Table, calls: seq<Call>, k: string)
    requires Sound(p, t) && Clears(p, cap, t, calls) == 0
    ensures k !in After(p, cap, t, calls) ==> Allowed(p, cap, t, calls, k) == 0
    ensures k in After(p, cap, t, calls) ==>
              var advance := After(p, cap, t, calls)[k].last - StartClock(t, calls, k);
              && advance >= 0
              && p.window * Allowed(p, cap, t, calls, k) <= p.Capacity() + p.requests * advance
  {
    SpentIsCost(p, cap, t, calls, k);
    TokensStayInRange(p, cap, t, calls);
    AdvanceOfOneBucket(p, cap, t, calls, k);
    EpochBound(p, cap, t, calls, k);
    HeldInRange(p, t, k);
    HeldInRange(p, After(p, cap, t, calls), k);
    if k !in After(p, cap, t, calls) { PositiveFactor(p.window, Allowed(p, cap, t, calls, k)); }
  }

  lemma HeldInRange(p: ActivePolicy, t: Table, k: string)
    requires Sound(p, t)
    ensures 0 <= Held(p, t, k) <= p.Capacity()
  {
    CapacityHoldsAToken(p);
  }

  lemma PositiveFactor(a: int, n: nat)
    requires a > 0 && a * n == 0
    ensures n == 0
  {
  }

  // ---------------------------------------------------------------------
  // Clears
  // ---------------------------------------------------------------------

  lemma NextGrowsByOne(p: ActivePolicy, cap: nat, t: Table, c: Call)
    ensures |Next(p, cap, t, c)| + (if Evicts(cap, t, c) then cap else 0) <= |t| + 1
    ensures |Next(p, cap, t, c)| >= 1
  {
    var t1 := Next(p, cap, t, c);
    assert c.key in t1.Keys;
    if c.key in t {
      assert t1.Keys == t.Keys;
      assert |t1| == |t1.Keys| == |t.Keys| == |t|;
    } else if |t| >= cap {
      assert t1.Keys == {c.key};
      assert |t1| == |t1.Keys| == 1;
    } else {
      assert t1.Keys == t.Keys + {c.key};
      assert |t1| == |t1.Keys| == |t.Keys| + 1;
    }
  }

  // Every clear needs a table of cap entries, each filled by a call of its own.
  lemma {:induction false} ClearsNeedCalls(p: ActivePolicy, cap: nat, t: Table, calls: seq<Call>)
    ensures |After(p, cap, t, calls)| + cap * Clears(p, cap, t, calls) <= |t| + |calls|
    ensures calls != [] ==> |After(p, cap, t, calls)| >= 1
    decreases |calls|
  {
    if calls == [] {
    } else {
      var t1 := Next(p, cap, t, calls[0]);
      NextGrowsByOne(p, cap, t, calls[0]);
      ClearsNeedCalls(p, cap, t1, calls[1..]);
      Unit(cap, Clears(p, cap, t1, calls[1..]));
    }
  }

  /** The whole life of a limiter: N calls from the empty table see at most (N - 1) / cap
      clears; each grants a client at most one more quota, beside the refill over its
      bucket clocks, which with in-order readings advance by no more than the time the
      run takes. */
  lemma WholeRunBound(p: ActivePolicy, cap: nat, calls: seq<Call>, k: string, lo: int, hi: int)
    requires cap > 0 && lo <= hi && calls != [] && ReadingsWithin(calls, lo, hi)
    ensures var clears, advance := Clears(p, cap, map[], calls), ClockAdvance(p, cap, map[], calls, k);
            && clears <= (|calls| - 1) / cap
            && p.window * Allowed(p, cap, map[], calls, k) <= (1 + clears) * p.Capacity() + p.requests * advance
            && advance <= (1 + clears) * (hi - lo)
            && (InOrder(calls) ==> advance <= hi - lo)
  {
    var n := Clears(p, cap, map[], calls);
    ClearsNeedCalls(p, cap, map[], calls);
    DivideBound(cap, n, |calls| - 1);
    TokensStayInRange(p, cap, map[], calls);
    EpochBound(p, cap, map[], calls, k);
    HeldInRange(p, After(p, cap, map[], calls), k);
    Unit(p.Capacity(), n);
    Unit(hi - lo, n);
    AdvanceWithin(p, cap, map[], calls, k, lo, hi);
    if InOrder(calls) { AdvanceInOrder(p, cap, map[], calls, k, lo, hi); }
  }

  lemma DivideBound(d: nat, q: nat, n: int)
    requires d > 0 && d * q <= n
    ensures q <= n / d
  {
    DivideGap(d, n);
    if q > n / d { Scale(d, n / d + 1, q); }
  }
}
