/** The rate bound is attained: over one closed window a client can be allowed twice its
quota, and a table clear hands out a whole quota that was not about to be earned. */
module RateLimitTight {
  import opened RateLimit
  import opened RateLimitBound

  function Burst(k: string, now: int, n: nat): (calls: seq<Call>)
    ensures |calls| == n && forall i :: 0 <= i < n ==> calls[i] == Call(k, now)
  {
    seq(n, i => Call(k, now))
  }

  lemma {:induction false} AllowedConcat(p: ActivePolicy, cap: nat, t: Table, a: seq<Call>, b: seq<Call>, k: string)
    ensures Allowed(p, cap, t, a + b, k) == Allowed(p, cap, t, a, k) + Allowed(p, cap, After(p, cap, t, a), b, k)
    ensures Clears(p, cap, t, a + b) == Clears(p, cap, t, a) + Clears(p, cap, After(p, cap, t, a), b)
    decreases |a|
  {
    if a == [] {
      assert a + b == b;
    } else {
      assert (a + b)[1..] == a[1..] + b;
      AllowedConcat(p, cap, Next(p, cap, t, a[0]), a[1..], b, k);
    }
  }

  // A bucket that holds n tokens allows n calls at once.
  lemma {:induction false} BurstIsAllowed(p: ActivePolicy, cap: nat, t: Table, k: string, now: int, n: nat)
    requires k in t && t[k].last == now && t[k].level == p.window * n
    ensures Allowed(p, cap, t, Burst(k, now, n), k) == n && Clears(p, cap, t, Burst(k, now, n)) == 0
    ensures After(p, cap, t, Burst(k, now, n)) == t[k := Bucket(0, now)]
    decreases n
  {
    if n == 0 {
      assert t[k := Bucket(0, now)] == t;
    } else {
      Unit(p.window, n - 1);
      Scale(p.window, 0, n - 1);
      var t1 := Next(p, cap, t, Call(k, now));
      assert t1 == t[k := Bucket(p.window * (n - 1), now)];
      assert Burst(k, now, n)[1..] == Burst(k, now, n - 1);
      BurstIsAllowed(p, cap, t1, k, now, n - 1);
    }
  }

  // So does a bucket that is full by the time of the first call, or created by it.
  lemma FullBurst(p: ActivePolicy, cap: nat, t: Table, k: string, now: int)
    requires Fetched(p, t, Call(k, now)) == Bucket(p.Capacity(), now)
    ensures var t0 := if Evicts(cap, t, Call(k, now)) then map[] else t;
            && Allowed(p, cap, t, Burst(k, now, p.requests), k) == p.requests
            && Clears(p, cap, t, Burst(k, now, p.requests)) == (if Evicts(cap, t, Call(k, now)) then 1 else 0)
            && After(p, cap, t, Burst(k, now, p.requests)) == t0[k := Bucket(0, now)]
  {
    var n := p.requests - 1;
    var burst := Burst(k, now, p.requests);
    var t0 := if Evicts(cap, t, Call(k, now)) then map[] else t;
    var t1 := Next(p, cap, t, Call(k, now));
    CapacityHoldsAToken(p);
    Unit(p.window, n);
    assert t1 == t0[k := Bucket(p.window * n, now)];
    assert burst[1..] == Burst(k, now, n);
    BurstIsAllowed(p, cap, t1, k, now, n);
    assert t0[k := Bucket(p.window * n, now)][k := Bucket(0, now)] == t0[k := Bucket(0, now)];
  }

  // A quota of calls at once, and another exactly one window later.
  function TwoQuotas(p: ActivePolicy, k: string, start: int): seq<Call> {
    Burst(k, start, p.requests) + Burst(k, start + p.window, p.requests)
  }

  /** All calls of both bursts are allowed: the rate bound is met with equality, and the
      average rate is exceeded by a whole quota within one window. */
  lemma BoundIsAttained(p: ActivePolicy, cap: nat, k: string, start: int)
    requires cap > 0
    ensures var calls := TwoQuotas(p, k, start);
            && ReadingsWithin(calls, start, start + p.window) && Clears(p, cap, map[], calls) == 0
            && Allowed(p, cap, map[], calls, k) == 2 * p.requests
            && p.window * Allowed(p, cap, map[], calls, k) == p.Capacity() + p.requests * p.window
  {
    var first, second := Burst(k, start, p.requests), Burst(k, start + p.window, p.requests);
    FullBurst(p, cap, map[], k, start);
    var t := After(p, cap, map[], first);
    assert t == map[k := Bucket(0, start)];
    FullBurst(p, cap, t, k, start + p.window);
    AllowedConcat(p, cap, map[], first, second, k);
    Unit(p.window, 1);
    Twice(p.window, p.requests);
  }

  lemma Twice(a: int, b: int)
    ensures a * (2 * b) == b * a + b * a
  {
  }

  /** In a full table, a client with an empty bucket is rejected; but once a new address
      has cleared the table, the same client is allowed a whole further quota at the same
      instant: tokens that would have taken it a window to earn. */
  lemma ClearGrantsAQuota(p: ActivePolicy, cap: nat, t: Table, k: string, x: string, now: int)
    requires k in t && t[k] == Bucket(0, now) && x !in t && |t| >= cap
    ensures !Accepts(p, t, Call(k, now))
    ensures Allowed(p, cap, t, [Call(x, now)] + Burst(k, now, p.requests), k) == p.requests
  {
    var t1 := Next(p, cap, t, Call(x, now));
    assert t1 == map[x := t1[x]] && k !in t1;
    assert ([Call(x, now)] + Burst(k, now, p.requests))[1..] == Burst(k, now, p.requests);
    FullBurst(p, cap, t1, k, now);
  }

  // ---------------------------------------------------------------------
  // What the client is told
  // ---------------------------------------------------------------------

  lemma OneTokenLess(level: int, window: int)
    requires level >= window > 0
    ensures (level - window) / window == level / window - 1
  {
    var q := level / window;
    DivideGap(window, level);
    Distribute(window, q, -1);
    Distribute(window, q, 1);
    Quotient(window, level - window, q - 1);
  }

  lemma Quotient(d: int, n: int, q: int)
    requires d > 0 && d * q <= n < d * (q + 1)
    ensures n / d == q
  {
    DivideGap(d, n);
    if n / d < q { Scale(d, n / d + 1, q); }
    if n / d > q { Scale(d, q + 1, n / d); }
  }

  // At a time that refills nothing, a bucket admits as many calls as it holds whole tokens.
  lemma {:induction false} BurstAllows(p: ActivePolicy, cap: nat, t: Table, k: string, now: int, m: nat)
    requires k in t && now <= t[k].last && t[k].level >= 0
    ensures Allowed(p, cap, t, Burst(k, now, m), k) == Min(m, t[k].level / p.window)
    decreases m
  {
    DivideGap(p.window, t[k].level);
    if m == 0 {
    } else {
      var t1 := Next(p, cap, t, Call(k, now));
      assert Burst(k, now, m)[1..] == Burst(k, now, m - 1);
      BurstAllows(p, cap, t1, k, now, m - 1);
      if t[k].level >= p.window { OneTokenLess(t[k].level, p.window); }
    }
  }

  /** The number of remaining calls a client is told is exact: of any number of further calls
      at that instant, that many are allowed.  A rejected call is told none, an allowed one
      not to wait. */
  lemma RemainingIsExact(p: ActivePolicy, cap: nat, t: Table, c: Call, now: int, m: nat)
    requires Sound(p, t) && now <= Next(p, cap, t, c)[c.key].last
    ensures Allowed(p, cap, Next(p, cap, t, c), Burst(c.key, now, m), c.key) == Min(m, Told(p, t, c).remaining)
    ensures Told(p, t, c).ok <==> Accepts(p, t, c)
    ensures if Told(p, t, c).ok then Told(p, t, c).retryAfter == 0 else Told(p, t, c).remaining == 0
  {
    NextKeepsSound(p, cap, t, c);
    var t1 := Next(p, cap, t, c);
    BurstAllows(p, cap, t1, c.key, now, m);
    DivideGap(p.window, t1[c.key].level);
  }
}
