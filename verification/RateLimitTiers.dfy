/** The two tiers of rateLimitWithClock in backend/pkg/middleware/ratelimit.go: one
limiter for the credential endpoints, one for every other metered request. */
module RateLimitTiers {
  import opened RateLimit

  // The configured policies: `general` is the Default tier.
  datatype Config = Config(enabled: bool, general: Policy, auth: Policy) {
    function PolicyOf(tier: Tier): Policy {
      if tier == AuthTier then auth else general
    }
  }

  datatype Tier = GeneralTier | AuthTier
  datatype Request = Request(path: string, client: string, now: int)

  // Forwarded carries no rate-limit headers; TooManyRequests is status 429.
  datatype Response =
    | Forwarded
    | Metered(limit: int, remaining: int)
    | TooManyRequests(limit: int, remaining: int, retryAfter: nat)

  datatype Tables = Tables(general: Table, auth: Table) {
    function Of(tier: Tier): Table {
      if tier == AuthTier then auth else general
    }

    function With(tier: Tier, t: Table): Tables {
      if tier == AuthTier then this.(auth := t) else this.(general := t)
    }
  }

  predicate IsAuthRoute(path: string) {
    "/auth/" <= path
  }

  predicate IsExempt(path: string) {
    path == "/health" || "/internal/" <= path
  }

  function TierOf(path: string): Tier {
    if IsAuthRoute(path) then AuthTier else GeneralTier
  }

  predicate IsMetered(cfg: Config, path: string) {
    cfg.enabled && !IsExempt(path) && cfg.PolicyOf(TierOf(path)).Enabled()
  }

  function Respond(limit: int, a: Answer): Response {
    if a.ok then Metered(limit, a.remaining)
    else TooManyRequests(limit, a.remaining, HeaderSeconds(a))
  }

  function Reaction(cfg: Config, tables: Tables, r: Request): Response {
    if !IsMetered(cfg, r.path) then Forwarded
    else
      var policy := cfg.PolicyOf(TierOf(r.path));
      Respond(policy.requests, Told(policy, tables.Of(TierOf(r.path)), Call(r.client, r.now)))
  }

  function Updated(cfg: Config, cap: nat, tables: Tables, r: Request): Tables {
    if !IsMetered(cfg, r.path) then tables
    else
      var tier := TierOf(r.path);
      tables.With(tier, Next(cfg.PolicyOf(tier), cap, tables.Of(tier), Call(r.client, r.now)))
  }

  class Middleware {
    const cfg: Config
    const general: Limiter
    const auth: Limiter

    ghost predicate Valid()
    {
      && general != auth
      && general.policy == cfg.general && auth.policy == cfg.auth
      && general.maxClients == auth.maxClients == MAX_TRACKED_CLIENTS
    }

    ghost function Contents(): Tables
      reads general, auth
    {
      Tables(general.buckets, auth.buckets)
    }

    constructor (cfg: Config)
      ensures Valid() && this.cfg == cfg && fresh(general) && fresh(auth)
      ensures Contents() == Tables(map[], map[])
      ensures general.maxClients == auth.maxClients == 50_000
    {
      this.cfg := cfg;
      general := new Limiter(cfg.general, MAX_TRACKED_CLIENTS);
      auth := new Limiter(cfg.auth, MAX_TRACKED_CLIENTS);
    }

    method Serve(r: Request) returns (response: Response)
      requires Valid()
      modifies general, auth
      ensures Contents() == Updated(cfg, MAX_TRACKED_CLIENTS, old(Contents()), r)
      ensures response == Reaction(cfg, old(Contents()), r)
      ensures response == Forwarded <==> !IsMetered(cfg, r.path)
    {
      if !cfg.enabled {
        return Forwarded;
      }
      var l := general;
      if IsAuthRoute(r.path) {
        l := auth;
      }
      if IsExempt(r.path) || !l.policy.Enabled() {
        return Forwarded;
      }
      var ok, remaining, retryAfter := l.Allow(r.client, r.now);
      if !ok {
        var secs := RoundToSeconds(Max(retryAfter, 0));
        return TooManyRequests(l.policy.requests, remaining, secs);
      }
      return Metered(l.policy.requests, remaining);
    }
  }

  // ---------------------------------------------------------------------
  // The tiers do not influence one another
  // ---------------------------------------------------------------------

  function RequestsOf(tier: Tier, rs: seq<Request>): seq<Request> {
    if rs == [] then []
    else (if TierOf(rs[0].path) == tier then [rs[0]] else []) + RequestsOf(tier, rs[1..])
  }

  // The responses a run gives to the requests of one tier.
  function ResponsesTo(cfg: Config, cap: nat, tables: Tables, rs: seq<Request>, tier: Tier): seq<Response>
    decreases |rs|
  {
    if rs == [] then []
    else (if TierOf(rs[0].path) == tier then [Reaction(cfg, tables, rs[0])] else [])
         + ResponsesTo(cfg, cap, Updated(cfg, cap, tables, rs[0]), rs[1..], tier)
  }

  /** In any run, credential-endpoint requests never change what the other requests
      are answered, and the other way round: a tier's responses are those of the run
      that holds only its requests, whatever the other tier's table contains. */
  lemma {:induction false} TierIndependence(cfg: Config, cap: nat, tables: Tables, other: Table, rs: seq<Request>,
                                            tier: Tier)
    ensures var foreign := if tier == AuthTier then GeneralTier else AuthTier;
            ResponsesTo(cfg, cap, tables, rs, tier)
            == ResponsesTo(cfg, cap, tables.With(foreign, other), RequestsOf(tier, rs), tier)
    decreases |rs|
  {
    if rs == [] {
    } else {
      var foreign := if tier == AuthTier then GeneralTier else AuthTier;
      var replaced := tables.With(foreign, other);
      TierIndependence(cfg, cap, Updated(cfg, cap, tables, rs[0]), other, rs[1..], tier);
      if TierOf(rs[0].path) == tier {
        var own := RequestsOf(tier, rs);
        assert own[0] == rs[0] && own[1..] == RequestsOf(tier, rs[1..]);
        assert Updated(cfg, cap, replaced, rs[0]) == Updated(cfg, cap, tables, rs[0]).With(foreign, other);
      } else {
        assert Updated(cfg, cap, tables, rs[0]).With(foreign, other) == replaced;
        assert RequestsOf(tier, rs) == RequestsOf(tier, rs[1..]);
      }
    }
  }

  // ---------------------------------------------------------------------
  // Routes, spelled out
  // ---------------------------------------------------------------------

  // The request was metered by one limiter: the client's call decides, with its limit.
  predicate MeteredBy(policy: Policy, cap: nat, before: Table, after: Table, r: Request, response: Response)
    requires policy.Enabled()
  {
    var told := Told(policy, before, Call(r.client, r.now));
    && after == Next(policy, cap, before, Call(r.client, r.now))
    && response == if Accepts(policy, before, Call(r.client, r.now)) then Metered(policy.requests, told.remaining)
                   else TooManyRequests(policy.requests, 0, HeaderSeconds(told))
  }

  /** Every path under /auth/ is metered by the credential limiter alone, if its policy is
      enabled, and by none otherwise. */
  lemma AuthRoutes(cfg: Config, cap: nat, tables: Tables, r: Request, rest: string)
    requires cfg.enabled && r.path == "/auth/" + rest
    ensures var after := Updated(cfg, cap, tables, r);
            && after.general == tables.general
            && if cfg.auth.requests > 0 && cfg.auth.window > 0
               then MeteredBy(cfg.auth, cap, tables.auth, after.auth, r, Reaction(cfg, tables, r))
               else after == tables && Reaction(cfg, tables, r) == Forwarded
  {
    assert r.path[1] == 'a';
  }

  /** Every other path but the probe and the internal ones is metered by the general limiter
      alone, if its policy is enabled. */
  lemma GeneralRoutes(cfg: Config, cap: nat, tables: Tables, r: Request)
    requires cfg.enabled && !("/auth/" <= r.path) && r.path != "/health" && !("/internal/" <= r.path)
    ensures var after := Updated(cfg, cap, tables, r);
            && after.auth == tables.auth
            && if cfg.general.requests > 0 && cfg.general.window > 0
               then MeteredBy(cfg.general, cap, tables.general, after.general, r, Reaction(cfg, tables, r))
               else after == tables && Reaction(cfg, tables, r) == Forwarded
  {
  }

  /** The probe and the internal paths are never metered, nor is anything when the limiter is
      switched off. */
  lemma ExemptRoutes(cfg: Config, cap: nat, tables: Tables, r: Request, rest: string)
    requires r.path == "/health" || r.path == "/internal/" + rest || !cfg.enabled
    ensures Updated(cfg, cap, tables, r) == tables && Reaction(cfg, tables, r) == Forwarded
  {
  }
}
