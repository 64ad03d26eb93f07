/** The token-bucket limiter of backend/pkg/middleware/ratelimit.go.

Times are integers in nanoseconds.  Token counts are kept exact by scaling them
with the policy's window: a bucket's `level` is tokens * window, it gains
`requests` per nanosecond, holds at most requests * window, and a call spends
`window`. */
module RateLimit {

  const NS_PER_SECOND := 1_000_000_000
  const MAX_TRACKED_CLIENTS := 50_000

  datatype Policy = Policy(requests: int, window: int) {
    predicate Enabled() {
      requests > 0 && window > 0
    }

    function Capacity(): int {
      requests * window
    }
  }

  // allow is only reached for an enabled policy.
  type ActivePolicy = p: Policy | p.Enabled() witness Policy(1, 1)

  datatype Bucket = Bucket(level: int, last: int)
  datatype Answer = Answer(ok: bool, remaining: int, retryAfter: int)
  // `now` is read before the lock is taken, so calls may reach the table with
  // clock readings out of order.
  datatype Call = Call(key: string, now: int)
  type Table = map<string, Bucket>

  function Min(a: int, b: int): int { if a <= b then a else b }
  function Max(a: int, b: int): int { if a >= b then a else b }

  // ---------------------------------------------------------------------
  // One call
  // ---------------------------------------------------------------------

  function Refill(p: ActivePolicy, b: Bucket, now: int): Bucket {
    if now > b.last
    then Bucket(Min(p.Capacity(), b.level + p.requests * (now - b.last)), now)
    else b
  }

  predicate Admits(p: ActivePolicy, b: Bucket) {
    b.level >= p.window
  }

  function Spend(p: ActivePolicy, b: Bucket): Bucket {
    if Admits(p, b) then b.(level := b.level - p.window) else b
  }

  // What the call is told; b is the bucket before the token is spent.
  function Reply(p: ActivePolicy, b: Bucket): Answer {
    if Admits(p, b)
    then Answer(true, Whole(b.level - p.window, p.window), 0)
    else Answer(false, 0, Max(Whole(p.window - b.level, p.requests), NS_PER_SECOND))
  }

  // The fractional part is dropped from remaining tokens and from waits.
  function Whole(n: int, d: int): int
    requires d > 0
  {
    n / d
  }

  // The call finds no bucket for its key in a full table.
  predicate Evicts(cap: nat, t: Table, c: Call) {
    c.key !in t && |t| >= cap
  }

  // The bucket the call decides on.
  function Fetched(p: ActivePolicy, t: Table, c: Call): Bucket {
    if c.key in t then Refill(p, t[c.key], c.now) else Bucket(p.Capacity(), c.now)
  }

  predicate Accepts(p: ActivePolicy, t: Table, c: Call) {
    Admits(p, Fetched(p, t, c))
  }

  function Next(p: ActivePolicy, cap: nat, t: Table, c: Call): Table {
    (if Evicts(cap, t, c) then map[] else t)[c.key := Spend(p, Fetched(p, t, c))]
  }

  function Told(p: ActivePolicy, t: Table, c: Call): Answer {
    Reply(p, Fetched(p, t, c))
  }

  class Limiter {
    const policy: Policy
    const maxClients: nat
    var buckets: Table

    constructor (policy: Policy, maxClients: nat)
      ensures this.policy == policy && this.maxClients == maxClients && buckets == map[]
    {
      this.policy, this.maxClients, buckets := policy, maxClients, map[];
    }

    method Allow(key: string, now: int) returns (ok: bool, remaining: int, retryAfter: int)
      requires policy.Enabled()
      modifies this
      ensures buckets == Next(policy, maxClients, old(buckets), Call(key, now))
      ensures Answer(ok, remaining, retryAfter) == Told(policy, old(buckets), Call(key, now))
    {
      var b;
      if key in buckets {
        b := buckets[key];
        var elapsed := now - b.last;
        if elapsed > 0 {
          b := Bucket(Min(policy.Capacity(), b.level + policy.requests * elapsed), now);
          buckets := buckets[key := b];
        }
      } else {
        if |buckets| >= maxClients {
          buckets := map[];
        }
        b := Bucket(policy.Capacity(), now);
        buckets := buckets[key := b];
      }
      assert b == Fetched(policy, old(buckets), Call(key, now));

      if b.level < policy.window {
        var wait := (policy.window - b.level) / policy.requests;
        return false, 0, Max(wait, NS_PER_SECOND);
      }
      b := b.(level := b.level - policy.window);
      buckets := buckets[key := b];
      return true, b.level / policy.window, 0;
    }
  }

  // ---------------------------------------------------------------------
  // Runs: any number of calls by any clients, in the order in which they get
  // the lock
  // ---------------------------------------------------------------------

  function After(p: ActivePolicy, cap: nat, t: Table, calls: seq<Call>): Table
    decreases |calls|
  {
    if calls == [] then t else After(p, cap, Next(p, cap, t, calls[0]), calls[1..])
  }

  function Answers(p: ActivePolicy, cap: nat, t: Table, calls: seq<Call>): seq<Answer>
    decreases |calls|
  {
    if calls == [] then []
    else [Told(p, t, calls[0])] + Answers(p, cap, Next(p, cap, t, calls[0]), calls[1..])
  }

  // How many of the calls made by client k are allowed.
  function Allowed(p: ActivePolicy, cap: nat, t: Table, calls: seq<Call>, k: string): nat
    decreases |calls|
  {
    if calls == [] then 0
    else (if calls[0].key == k && Accepts(p, t, calls[0]) then 1 else 0)
         + Allowed(p, cap, Next(p, cap, t, calls[0]), calls[1..], k)
  }

  // How many calls clear the table.
  function Clears(p: ActivePolicy, cap: nat, t: Table, calls: seq<Call>): nat
    decreases |calls|
  {
    if calls == [] then 0
    else (if Evicts(cap, t, calls[0]) then 1 else 0)
         + Clears(p, cap, Next(p, cap, t, calls[0]), calls[1..])
  }

  ghost predicate Sound(p: ActivePolicy, t: Table) {
    forall k :: k in t ==> 0 <= t[k].level <= p.Capacity()
  }

  lemma Scale(r: int, a: int, b: int)
    requires r >= 0 && a <= b
    ensures r * a <= r * b
  {
  }

  lemma Spread(r: int, hi: int, mid: int, lo: int)
    ensures r * (hi - mid) + r * (mid - lo) == r * (hi - lo)
  {
  }

  lemma DivideGap(d: int, n: int)
    requires d > 0
    ensures d * (n / d) <= n < d * (n / d + 1)
  {
  }

  lemma Distribute(r: int, a: int, b: int)
    ensures r * (a + b) == r * a + r * b
  {
  }

  lemma Unit(a: int, n: int)
    ensures a * (1 + n) == a + a * n
    ensures (1 + n) * a == a + n * a
  {
  }

  lemma CapacityHoldsAToken(p: ActivePolicy)
    ensures p.Capacity() >= p.window
  {
    Scale(p.window, 1, p.requests);
  }

  lemma NextKeepsSound(p: ActivePolicy, cap: nat, t: Table, c: Call)
    requires Sound(p, t)
    ensures Sound(p, Next(p, cap, t, c))
    ensures 0 <= Fetched(p, t, c).level <= p.Capacity()
  {
    CapacityHoldsAToken(p);
    if c.key in t && c.now > t[c.key].last {
      Scale(p.requests, 0, c.now - t[c.key].last);
    }
  }

  // In every reachable table, 0 <= tokens <= Requests.
  lemma {:induction false} TokensStayInRange(p: ActivePolicy, cap: nat, t: Table, calls: seq<Call>)
    requires Sound(p, t)
    ensures Sound(p, After(p, cap, t, calls))
    decreases |calls|
  {
    if calls == [] {
    } else {
      NextKeepsSound(p, cap, t, calls[0]);
      TokensStayInRange(p, cap, Next(p, cap, t, calls[0]), calls[1..]);
    }
  }

  // ---------------------------------------------------------------------
  // Clients do not influence one another
  // ---------------------------------------------------------------------

  function CallsOf(calls: seq<Call>, k: string): seq<Call> {
    if calls == [] then []
    else (if calls[0].key == k then [calls[0]] else []) + CallsOf(calls[1..], k)
  }

  function AnswersTo(p: ActivePolicy, cap: nat, t: Table, calls: seq<Call>, k: string): seq<Answer>
    decreases |calls|
  {
    if calls == [] then []
    else (if calls[0].key == k then [Told(p, t, calls[0])] else [])
         + AnswersTo(p, cap, Next(p, cap, t, calls[0]), calls[1..], k)
  }

  function Only(t: Table, k: string): Table {
    if k in t then map[k := t[k]] else map[]
  }

  lemma NextOnly(p: ActivePolicy, cap: nat, t: Table, c: Call, k: string)
    requires cap > 0 && !Evicts(cap, t, c)
    ensures c.key == k ==> Only(Next(p, cap, t, c), k) == Next(p, cap, Only(t, k), c)
    ensures c.key == k ==> Told(p, t, c) == Told(p, Only(t, k), c)
    ensures c.key != k ==> Only(Next(p, cap, t, c), k) == Only(t, k)
  {
  }

  lemma AnswersCons(p: ActivePolicy, cap: nat, t: Table, c: Call, rest: seq<Call>)
    ensures Answers(p, cap, t, [c] + rest) == [Told(p, t, c)] + Answers(p, cap, Next(p, cap, t, c), rest)
  {
    assert ([c] + rest)[1..] == rest;
  }

  lemma OwnCallFirst(p: ActivePolicy, cap: nat, t: Table, calls: seq<Call>, k: string)
    requires cap > 0 && calls != [] && calls[0].key == k && !Evicts(cap, t, calls[0])
    requires var t1 := Next(p, cap, t, calls[0]);
             AnswersTo(p, cap, t1, calls[1..], k) == Answers(p, cap, Only(t1, k), CallsOf(calls[1..], k))
    ensures AnswersTo(p, cap, t, calls, k) == Answers(p, cap, Only(t, k), CallsOf(calls, k))
  {
    NextOnly(p, cap, t, calls[0], k);
    AnswersCons(p, cap, Only(t, k), calls[0], CallsOf(calls[1..], k));
  }

  lemma OtherCallFirst(p: ActivePolicy, cap: nat, t: Table, calls: seq<Call>, k: string)
    requires cap > 0 && calls != [] && calls[0].key != k && !Evicts(cap, t, calls[0])
    requires var t1 := Next(p, cap, t, calls[0]);
             AnswersTo(p, cap, t1, calls[1..], k) == Answers(p, cap, Only(t1, k), CallsOf(calls[1..], k))
    ensures AnswersTo(p, cap, t, calls, k) == Answers(p, cap, Only(t, k), CallsOf(calls, k))
  {
    NextOnly(p, cap, t, calls[0], k);
    assert CallsOf(calls, k) == CallsOf(calls[1..], k);
  }

  /** Between table clears the answers given to one client, inside any interleaving
      with other clients, are those of a limiter that saw only that client's calls. */
  lemma {:induction false} ClientIndependence(p: ActivePolicy, cap: nat, t: Table, calls: seq<Call>, k: string)
    requires cap > 0 && Clears(p, cap, t, calls) == 0
    ensures AnswersTo(p, cap, t, calls, k) == Answers(p, cap, Only(t, k), CallsOf(calls, k))
    decreases |calls|
  {
    if calls == [] {
    } else {
      ClientIndependence(p, cap, Next(p, cap, t, calls[0]), calls[1..], k);
      if calls[0].key == k {
        OwnCallFirst(p, cap, t, calls, k);
      } else {
        OtherCallFirst(p, cap, t, calls, k);
      }
    }
  }

  // ---------------------------------------------------------------------
  // The lazy bucket refines an eager one
  // ---------------------------------------------------------------------

  // n nanoseconds of a bucket that refills and saturates on every one of them.
  function Ticks(p: ActivePolicy, level: int, n: nat): int
    decreases n
  {
    if n == 0 then level else Ticks(p, Min(p.Capacity(), level + p.requests), n - 1)
  }

  // The eager bucket at a later time.
  function Ticked(p: ActivePolicy, b: Bucket, now: int): Bucket {
    Bucket(if now > b.last then Ticks(p, b.level, now - b.last) else b.level, now)
  }

  function EagerAnswers(p: ActivePolicy, b: Bucket, calls: seq<Call>): seq<Answer>
    decreases |calls|
  {
    if calls == [] then []
    else
      var ticked := Ticked(p, b, calls[0].now);
      [Reply(p, ticked)] + EagerAnswers(p, Spend(p, ticked), calls[1..])
  }

  function EagerAfter(p: ActivePolicy, b: Bucket, calls: seq<Call>): Bucket
    decreases |calls|
  {
    if calls == [] then b else EagerAfter(p, Spend(p, Ticked(p, b, calls[0].now)), calls[1..])
  }

  // The eager bucket starts from the stored one, or full at the first call.
  function FirstBucket(p: ActivePolicy, t: Table, calls: seq<Call>, k: string): Bucket {
    if k in t then t[k] else Bucket(p.Capacity(), if calls == [] then 0 else calls[0].now)
  }

  lemma {:induction false} TicksSaturate(p: ActivePolicy, level: int, n: nat)
    requires 0 <= level <= p.Capacity()
    ensures Ticks(p, level, n) == Min(p.Capacity(), level + p.requests * n)
    decreases n
  {
    if n == 0 {
    } else {
      TicksSaturate(p, Min(p.Capacity(), level + p.requests), n - 1);
      Unit(p.requests, n - 1);
      Scale(p.requests, 0, n - 1);
    }
  }

  lemma RefillIsTicking(p: ActivePolicy, b: Bucket, now: int)
    requires 0 <= b.level <= p.Capacity() && b.last <= now
    ensures Refill(p, b, now) == Ticked(p, b, now)
  {
    if now > b.last { TicksSaturate(p, b.level, now - b.last); }
  }

  predicate InOrder(calls: seq<Call>) {
    forall i, j :: 0 <= i < j < |calls| ==> calls[i].now <= calls[j].now
  }

  // The readings are in order and none is older than the stored clock.
  predicate Ordered(t: Table, calls: seq<Call>, k: string) {
    InOrder(calls) && (k in t && calls != [] ==> t[k].last <= calls[0].now)
  }

  lemma {:induction false} SoloLazyRefinesEager(p: ActivePolicy, cap: nat, t: Table, calls: seq<Call>, k: string)
    requires Sound(p, t) && t.Keys <= {k} && Ordered(t, calls, k)
    requires forall i :: 0 <= i < |calls| ==> calls[i].key == k
    ensures var b := FirstBucket(p, t, calls, k);
            && Answers(p, cap, t, calls) == EagerAnswers(p, b, calls)
            && (calls != [] ==> After(p, cap, t, calls) == map[k := EagerAfter(p, b, calls)])
    decreases |calls|
  {
    if calls == [] {
    } else {
      var c := calls[0];
      NextKeepsSound(p, cap, t, c);
      RefillIsTicking(p, FirstBucket(p, t, calls, k), c.now);
      var t1 := Next(p, cap, t, c);
      assert t1 == map[k := Spend(p, Ticked(p, FirstBucket(p, t, calls, k), c.now))];
      SoloLazyRefinesEager(p, cap, t1, calls[1..], k);
    }
  }

  lemma {:induction false} BucketIndependence(p: ActivePolicy, cap: nat, t: Table, calls: seq<Call>, k: string)
    requires cap > 0 && Clears(p, cap, t, calls) == 0
    ensures Only(After(p, cap, t, calls), k) == After(p, cap, Only(t, k), CallsOf(calls, k))
    decreases |calls|
  {
    if calls == [] {
    } else {
      NextOnly(p, cap, t, calls[0], k);
      BucketIndependence(p, cap, Next(p, cap, t, calls[0]), calls[1..], k);
      if calls[0].key == k {
        assert CallsOf(calls, k)[0] == calls[0] && CallsOf(calls, k)[1..] == CallsOf(calls[1..], k);
      } else {
        assert CallsOf(calls, k) == CallsOf(calls[1..], k);
      }
    }
  }

  lemma {:induction false} CallsOfKey(calls: seq<Call>, k: string)
    ensures forall i :: 0 <= i < |CallsOf(calls, k)| ==> CallsOf(calls, k)[i].key == k
  {
    if calls == [] {
    } else {
      CallsOfKey(calls[1..], k);
    }
  }

  /** Inside any interleaving with other clients, and from a client's first call on,
      updating its bucket only on calls gives the decisions and the final tokens of a
      bucket that refills and saturates every nanosecond, for in-order readings. */
  lemma LazyRefinesEager(p: ActivePolicy, cap: nat, t: Table, calls: seq<Call>, k: string)
    requires cap > 0 && Sound(p, t) && Clears(p, cap, t, calls) == 0
    requires Ordered(t, CallsOf(calls, k), k)
    ensures var own := CallsOf(calls, k);
            var b := FirstBucket(p, t, own, k);
            && AnswersTo(p, cap, t, calls, k) == EagerAnswers(p, b, own)
            && (own != [] ==> k in After(p, cap, t, calls)
                              && After(p, cap, t, calls)[k] == EagerAfter(p, b, own))
  {
    CallsOfKey(calls, k);
    ClientIndependence(p, cap, t, calls, k);
    BucketIndependence(p, cap, t, calls, k);
    SoloLazyRefinesEager(p, cap, Only(t, k), CallsOf(calls, k), k);
    assert k in map[k := EagerAfter(p, FirstBucket(p, t, CallsOf(calls, k), k), CallsOf(calls, k))];
  }

  // ---------------------------------------------------------------------
  // The Retry-After header
  // ---------------------------------------------------------------------

  // time.Duration.Round(time.Second) for a non-negative duration, in seconds:
  // halves round up.
  function RoundToSeconds(d: nat): nat {
    var r := d % NS_PER_SECOND;
    if r + r < NS_PER_SECOND then d / NS_PER_SECOND else d / NS_PER_SECOND + 1
  }

  function HeaderSeconds(a: Answer): nat {
    RoundToSeconds(Max(a.retryAfter, 0))
  }
}
