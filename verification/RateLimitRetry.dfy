/** When a rejected client is admitted again, and what its Retry-After header is worth
(backend/pkg/middleware/ratelimit.go). */
module RateLimitRetry {
  import opened Outcomes
  import opened RateLimit
  import opened RateLimitTight

  // Calls by other clients leave the client's bucket alone.
  lemma {:induction false} OthersLeaveBucket(p: ActivePolicy, cap: nat, t: Table, others: seq<Call>, k: string)
    requires k in t && Clears(p, cap, t, others) == 0
    requires forall i :: 0 <= i < |others| ==> others[i].key != k
    ensures k in After(p, cap, t, others) && After(p, cap, t, others)[k] == t[k]
    decreases |others|
  {
    if others == [] {
    } else {
      OthersLeaveBucket(p, cap, Next(p, cap, t, others[0]), others[1..], k);
    }
  }

  // A bucket that is short of a token admits a call at time `at` exactly when the
  // deficit has been refilled since its last reading.
  lemma DeficitDecides(p: ActivePolicy, b: Bucket, at: int)
    requires 0 <= b.level < p.window
    ensures Admits(p, Refill(p, b, at)) <==> p.requests * (at - b.last) >= p.window - b.level
  {
    CapacityHoldsAToken(p);
    if at <= b.last { Scale(p.requests, at - b.last, 0); }
  }

  lemma WaitIsEnough(p: ActivePolicy, deficit: int, wait: int)
    requires 0 < deficit <= p.window && wait == Max(deficit / p.requests, NS_PER_SECOND)
    ensures p.requests * (wait + 1) >= deficit
    ensures wait <= Max(p.window / p.requests, NS_PER_SECOND)
  {
    DivideGap(p.requests, deficit);
    DivideGap(p.requests, p.window);
    Scale(p.requests, deficit / p.requests + 1, wait + 1);
    if deficit / p.requests > p.window / p.requests {
      Scale(p.requests, p.window / p.requests + 1, deficit / p.requests);
    }
  }

  // The advice `wait` given with bucket b against the decision `admitted` on a next
  // call at time `at`: the call is admitted exactly when the deficit has been
  // refilled since the bucket's own clock; one nanosecond after `last` + wait is
  // always late enough, and a wait of more than a second is never a nanosecond too
  // long; and the wait is at most max(Window / Requests, 1 s).
  ghost predicate RetryAdvice(p: ActivePolicy, b: Bucket, wait: int, at: int, admitted: bool) {
    && (admitted <==> p.requests * (at - b.last) >= p.window - b.level)
    && (at >= b.last + wait + 1 ==> admitted)
    && (wait > NS_PER_SECOND && at < b.last + wait ==> !admitted)
    && NS_PER_SECOND <= wait <= Max(p.window / p.requests, NS_PER_SECOND)
  }

  /** Retry timing after a rejection, with any calls by other clients but no clear
      before the client's next call. */
  lemma RetryIsExact(p: ActivePolicy, cap: nat, t: Table, c: Call, others: seq<Call>, at: int)
    requires Sound(p, t) && !Accepts(p, t, c)
    requires Clears(p, cap, Next(p, cap, t, c), others) == 0
    requires forall i :: 0 <= i < |others| ==> others[i].key != c.key
    ensures var t1 := Next(p, cap, t, c);
            RetryAdvice(p, t1[c.key], Told(p, t, c).retryAfter, at,
                        Accepts(p, After(p, cap, t1, others), Call(c.key, at)))
  {
    OthersLeaveBucket(p, cap, Next(p, cap, t, c), others, c.key);
    NextKeepsSound(p, cap, t, c);
    RetryOnBucket(p, Fetched(p, t, c), at);
  }

  lemma RetryOnBucket(p: ActivePolicy, b: Bucket, at: int)
    requires 0 <= b.level < p.window
    ensures RetryAdvice(p, b, Reply(p, b).retryAfter, at, Admits(p, Refill(p, b, at)))
  {
    var wait := Reply(p, b).retryAfter;
    DeficitDecides(p, b, at);
    WaitIsEnough(p, p.window - b.level, wait);
    if at >= b.last + wait + 1 { Scale(p.requests, wait + 1, at - b.last); }
    if wait > NS_PER_SECOND && at < b.last + wait { WaitIsNeeded(p, p.window - b.level, wait, at - b.last); }
  }

  lemma WaitIsNeeded(p: ActivePolicy, deficit: int, wait: int, elapsed: int)
    requires wait == deficit / p.requests && elapsed < wait
    ensures p.requests * elapsed < deficit
  {
    DivideGap(p.requests, deficit);
    Scale(p.requests, elapsed, wait - 1);
    Distribute(p.requests, wait, -1);
  }

  // ---------------------------------------------------------------------
  // Spaced calls
  // ---------------------------------------------------------------------

  predicate Spaced(p: ActivePolicy, early: int, late: int) {
    p.requests * (late - early) >= p.window
  }

  // Each call is at least Window / Requests after the one before it, the first after
  // `last` if there is one.
  predicate AllSpaced(p: ActivePolicy, last: Option<int>, own: seq<Call>)
    decreases |own|
  {
    own == [] ||
    ((last.Some? ==> Spaced(p, last.value, own[0].now)) && AllSpaced(p, Some(own[0].now), own[1..]))
  }

  function LastReading(t: Table, k: string): Option<int> {
    if k in t then Some(t[k].last) else None
  }

  /** A client whose calls are at least Window / Requests apart is never rejected: in any
      sound table, new or known, whatever other clients do and however often the table is
      cleared. */
  lemma {:induction false} SpacedCallsAreAllowed(p: ActivePolicy, cap: nat, t: Table, calls: seq<Call>, k: string)
    requires Sound(p, t) && AllSpaced(p, LastReading(t, k), CallsOf(calls, k))
    ensures Allowed(p, cap, t, calls, k) == |CallsOf(calls, k)|
    decreases |calls|
  {
    if calls == [] {
    } else {
      var c, t1 := calls[0], Next(p, cap, t, calls[0]);
      NextKeepsSound(p, cap, t, c);
      if c.key == k {
        var own := CallsOf(calls, k);
        assert own[0] == c && own[1..] == CallsOf(calls[1..], k);
        SpacedCallIsAllowed(p, t, c);
      } else {
        assert CallsOf(calls, k) == CallsOf(calls[1..], k);
      }
      SpacedCallsAreAllowed(p, cap, t1, calls[1..], k);
    }
  }

  lemma SpacedCallIsAllowed(p: ActivePolicy, t: Table, c: Call)
    requires Sound(p, t) && (c.key in t ==> Spaced(p, t[c.key].last, c.now))
    ensures Accepts(p, t, c) && Fetched(p, t, c).last == c.now
  {
    CapacityHoldsAToken(p);
    if c.key in t && c.now <= t[c.key].last { Scale(p.requests, c.now - t[c.key].last, 0); }
  }

  // ---------------------------------------------------------------------
  // The Retry-After header
  // ---------------------------------------------------------------------

  // The header is within half a second of the wait it reports.
  lemma RoundingError(d: nat)
    ensures -NS_PER_SECOND < 2 * (RoundToSeconds(d) * NS_PER_SECOND - d) <= NS_PER_SECOND
  {
  }

  // How much older the call's clock reading is than its bucket's clock.
  function Lag(t: Table, c: Call): nat {
    if c.key in t && t[c.key].last > c.now then t[c.key].last - c.now else 0
  }

  // A client whose call is rejected after the run, and which waits exactly what its header
  // says, is admitted.
  predicate ObeyingSuffices(p: ActivePolicy, cap: nat, run: seq<Call>, c: Call) {
    var t := After(p, cap, map[], run);
    !Accepts(p, t, c) ==>
      Accepts(p, Next(p, cap, t, c), Call(c.key, c.now + HeaderSeconds(Told(p, t, c)) * NS_PER_SECOND))
  }

  // The header is enough for every call with the given lag, after every run of a limiter.
  ghost predicate HeaderIsEnough(p: ActivePolicy, cap: nat, lag: nat) {
    forall run: seq<Call>, c: Call | Lag(After(p, cap, map[], run), c) == lag :: ObeyingSuffices(p, cap, run, c)
  }

  /** Obeying Retry-After always gets a client admitted if and only if the policy earns a
      token in a second, less the lag of the call's reading behind its bucket's clock: with
      in-order readings, if and only if Window <= Requests seconds. */
  lemma HeaderIsEnoughIffFast(p: ActivePolicy, cap: nat, lag: nat)
    ensures HeaderIsEnough(p, cap, lag) <==> p.window <= p.requests * (NS_PER_SECOND - lag)
  {
    if p.window <= p.requests * (NS_PER_SECOND - lag) {
      forall run: seq<Call>, c: Call | Lag(After(p, cap, map[], run), c) == lag
        ensures ObeyingSuffices(p, cap, run, c)
      {
        TokensStayInRange(p, cap, map[], run);
        if !Accepts(p, After(p, cap, map[], run), c) { FastPolicySuffices(p, cap, After(p, cap, map[], run), c); }
      }
    } else {
      var e := WitnessTime(p);
      SlowPolicyFails(p, cap, "", lag, e);
      assert !ObeyingSuffices(p, cap, WitnessRun(p, "", e), Call("", e - lag));
    }
  }

  lemma FastPolicySuffices(p: ActivePolicy, cap: nat, t: Table, c: Call)
    requires Sound(p, t) && !Accepts(p, t, c)
    requires p.window <= p.requests * (NS_PER_SECOND - Lag(t, c))
    ensures Accepts(p, Next(p, cap, t, c), Call(c.key, c.now + HeaderSeconds(Told(p, t, c)) * NS_PER_SECOND))
  {
    var b := Fetched(p, t, c);
    NextKeepsSound(p, cap, t, c);
    CapacityHoldsAToken(p);
    var rest := NS_PER_SECOND - Lag(t, c);
    assert c.now + NS_PER_SECOND == b.last + rest;
    Scale(p.requests, rest, NS_PER_SECOND);
    assert p.window - b.level <= p.window <= p.requests * rest;
    OneSecondHeader(p, p.window - b.level);
    DeficitDecides(p, b, c.now + NS_PER_SECOND);
  }

  // A deficit of at most a nanosecond's tokens over a second's is announced as one second.
  lemma OneSecondHeader(p: ActivePolicy, deficit: int)
    requires deficit <= p.requests * NS_PER_SECOND + p.requests
    ensures RoundToSeconds(Max(Max(Whole(deficit, p.requests), NS_PER_SECOND), 0)) == 1
  {
    DivideGap(p.requests, deficit);
    if deficit / p.requests > NS_PER_SECOND + 1 {
      Scale(p.requests, NS_PER_SECOND + 2, deficit / p.requests);
      Distribute(p.requests, NS_PER_SECOND, 2);
    }
  }

  // A quota at time 0 and, once rejected at time e, a call that is rejected again.
  function WitnessRun(p: ActivePolicy, k: string, e: nat): seq<Call> {
    Burst(k, 0, p.requests) + [Call(k, e)]
  }

  // The latest time at which what is missing is not earned in a second.
  function WitnessTime(p: ActivePolicy): nat {
    Max((p.window - 1) / p.requests - NS_PER_SECOND, 0)
  }

  lemma WitnessDeficit(p: ActivePolicy)
    ensures var deficit := p.window - p.requests * WitnessTime(p);
            && 0 < deficit <= p.requests * NS_PER_SECOND + p.requests && deficit <= p.window
            && (p.window > p.requests * NS_PER_SECOND ==> deficit > p.requests * NS_PER_SECOND)
            && (p.window <= p.requests * NS_PER_SECOND ==> deficit == p.window)
  {
    var q := (p.window - 1) / p.requests;
    DivideGap(p.requests, p.window - 1);
    Spread(p.requests, q, NS_PER_SECOND, 0);
    Unit(p.requests, q);
    if q >= NS_PER_SECOND {
      Scale(p.requests, NS_PER_SECOND, q);
    } else {
      Scale(p.requests, q + 1, NS_PER_SECOND);
    }
  }

  lemma WitnessTable(p: ActivePolicy, cap: nat, k: string, e: nat)
    requires p.requests * e < p.window
    ensures After(p, cap, map[], WitnessRun(p, k, e)) == map[k := Bucket(p.requests * e, e)]
  {
    FullBurst(p, cap, map[], k, 0);
    AfterConcat(p, cap, map[], Burst(k, 0, p.requests), [Call(k, e)]);
    CapacityHoldsAToken(p);
    var t := After(p, cap, map[], Burst(k, 0, p.requests));
    assert t == map[k := Bucket(0, 0)];
    assert Next(p, cap, t, Call(k, e)) == map[k := Bucket(p.requests * e, e)];
  }

  lemma {:induction false} AfterConcat(p: ActivePolicy, cap: nat, t: Table, a: seq<Call>, b: seq<Call>)
    ensures After(p, cap, t, a + b) == After(p, cap, After(p, cap, t, a), b)
    decreases |a|
  {
    if a == [] {
      assert a + b == b;
    } else {
      assert (a + b)[1..] == a[1..] + b;
      AfterConcat(p, cap, Next(p, cap, t, a[0]), a[1..], b);
    }
  }

  lemma SlowPolicyFails(p: ActivePolicy, cap: nat, k: string, lag: nat, e: nat)
    requires p.window > p.requests * (NS_PER_SECOND - lag) && e == WitnessTime(p)
    ensures Lag(After(p, cap, map[], WitnessRun(p, k, e)), Call(k, e - lag)) == lag
    ensures !ObeyingSuffices(p, cap, WitnessRun(p, k, e), Call(k, e - lag))
  {
    var deficit := p.window - p.requests * e;
    WitnessDeficit(p);
    PositiveProduct(p.requests, e);
    WitnessTable(p, cap, k, e);
    var b := Bucket(p.requests * e, e);
    var t := map[k := b];
    var c := Call(k, e - lag);
    assert Fetched(p, t, c) == b && Next(p, cap, t, c) == t;
    OneSecondHeader(p, deficit);
    DeficitDecides(p, b, c.now + NS_PER_SECOND);
    Scale(p.requests, NS_PER_SECOND - lag, NS_PER_SECOND);
  }

  lemma PositiveProduct(a: int, b: nat)
    requires a > 0
    ensures a * b >= 0
  {
  }

  // One request per 1.4 s: after a first call the header says one second, and obeying it
  // is too early.
  lemma RetryAfterHeaderCanBeShort()
    ensures var p: ActivePolicy := Policy(1, 1_400_000_000);
            var t := After(p, MAX_TRACKED_CLIENTS, map[], [Call("10.0.0.1", 0)]);
            var a := Told(p, t, Call("10.0.0.1", 0));
            && !a.ok && HeaderSeconds(a) == 1
            && !Accepts(p, Next(p, MAX_TRACKED_CLIENTS, t, Call("10.0.0.1", 0)), Call("10.0.0.1", NS_PER_SECOND))
  {
    var p: ActivePolicy := Policy(1, 1_400_000_000);
    var c := Call("10.0.0.1", 0);
    assert [c][1..] == [];
    assert After(p, MAX_TRACKED_CLIENTS, map[], [c]) == map[c.key := Bucket(0, 0)];
  }
}
