/**
 * The HTTP local rate-limit filter: the configuration object shared by the
 * filters built from it (settings, counters, shared limiter) and the
 * per-stream filter with its request-header and response-header phases.
 */
module LocalRateLimit {

  import opened Wrappers
  import opened TokenBuckets
  import opened Descriptors
  import opened Limiters
  import opened Sources
  import opened Headers

  datatype FilterHeadersStatus = Continue | StopIteration

  /** Whether the response carries the x-ratelimit-* headers, and in which draft version. */
  datatype XRateLimitHeaders = Off | DraftVersion03

  /** HTTP 429 Too Many Requests (section 4 of RFC 6585). */
  const TooManyRequests: nat := 429
  /** gRPC status code RESOURCE_EXHAUSTED. */
  const ResourceExhausted: nat := 8
  /** The body and the details tag of a local rejection. */
  const LocalRateLimited: string := "local_rate_limited"
  /** Header names of draft-ietf-httpapi-ratelimit-headers-03. */
  const XRateLimitLimit: string := "x-ratelimit-limit"
  const XRateLimitRemaining: string := "x-ratelimit-remaining"

  /**
   * The filter configuration, already parsed. `enabled` and `enforced` are
   * the answers of the runtime feature gates.
   */
  datatype Settings = Settings(
    limiter: LimiterSettings,
    enabled: bool,
    enforced: bool,
    perDownstreamConnection: bool,
    rateLimitedAsResourceExhausted: bool,
    xRateLimitHeaders: XRateLimitHeaders,
    stage: nat,
    vhRateLimits: VhRateLimits,
    responseHeadersToAdd: seq<HeaderMutation>,
    requestHeadersToAddWhenNotEnforced: seq<HeaderMutation>,
    rateLimits: seq<LocalRule>)

  /** What the filter sees of a request: its headers, its route (if any) and the bytes received so far. */
  datatype Request = Request(headers: seq<Header>, route: Option<Route>, bytesReceived: nat)

  /** A local reply sent instead of forwarding the request; `edits` is what it does to the reply headers. */
  datatype LocalReply = LocalReply(code: nat, body: string, edits: seq<HeaderEdit>, grpcStatus: Option<nat>, details: string)

  /** The four counters `enabled`, `enforced`, `ok` and `rate_limited`. */
  datatype Counters = Counters(enabled: nat, enforced: nat, ok: nat, rateLimited: nat)

  /**
   * Every checked request is counted as exactly one of ok or rate-limited,
   * and only rate-limited requests can be enforced.
   */
  predicate Consistent(c: Counters)
  {
    c.ok + c.rateLimited == c.enabled && c.enforced <= c.rateLimited
  }

  /**
   * The descriptors a request is checked with. Without a descriptor table
   * none are gathered. The configuration's own `rate_limits` rules, when it
   * has some, take the place of the route and virtual-host policies.
   */
  function RequestHits(s: Settings, req: Request): (r: seq<Hit>)
    ensures s.limiter.table == [] ==> r == []
    ensures s.rateLimits != [] ==> |r| <= |s.rateLimits|
  {
    if s.limiter.table == [] then []
    else if s.rateLimits != [] then LocalHits(s.rateLimits, req.headers, req.bytesReceived)
    else Resolve(s.vhRateLimits, s.stage, req.route).hits
  }

  /**
   * Which parts of a request its descriptors depend on. With the
   * configuration's own rules, only the request headers and the bytes
   * received count, and the route is never consulted. Without them, only the
   * route counts.
   */
  lemma RequestHitsSources(s: Settings, req: Request, other: Request)
    ensures s.rateLimits != [] && other.headers == req.headers && other.bytesReceived == req.bytesReceived
            ==> RequestHits(s, other) == RequestHits(s, req)
    ensures s.rateLimits == [] && other.route == req.route ==> RequestHits(s, other) == RequestHits(s, req)
    ensures s.limiter.table != [] && s.rateLimits == [] ==> RequestHits(s, req) == Resolve(s.vhRateLimits, s.stage, req.route).hits
  {
  }

  /** The local reply of an enforced rejection. */
  function Rejection(s: Settings, req: Request): (r: LocalReply)
    ensures r.code == TooManyRequests && r.body == LocalRateLimited && r.details == LocalRateLimited
    ensures r.grpcStatus == if s.rateLimitedAsResourceExhausted then Some(ResourceExhausted) else None
    ensures r.edits == FormatAll(s.responseHeadersToAdd, req.headers)
  {
    LocalReply(TooManyRequests, LocalRateLimited, FormatAll(s.responseHeadersToAdd, req.headers),
               if s.rateLimitedAsResourceExhausted then Some(ResourceExhausted) else None, LocalRateLimited)
  }

  /** What a checked request does once its decision is known. */
  datatype Verdict = Verdict(status: FilterHeadersStatus, counters: Counters, headers: seq<Header>, reply: Option<LocalReply>)

  /**
   * The request-header phase after the decision: an admitted request goes on
   * and counts as ok; a rejected one counts as rate-limited and, when
   * enforced, stops with a local reply and counts as enforced, or otherwise
   * goes on carrying the not-enforced request headers.
   */
  function Conclude(s: Settings, c: Counters, allowed: bool, req: Request): (v: Verdict)
    ensures Consistent(c) ==> Consistent(v.counters)
    ensures v.counters.enabled == c.enabled + 1
    ensures v.counters.ok == c.ok + (if allowed then 1 else 0)
    ensures v.counters.rateLimited == c.rateLimited + (if allowed then 0 else 1)
    ensures v.counters.enforced == c.enforced + (if !allowed && s.enforced then 1 else 0)
    ensures v.status == StopIteration <==> !allowed && s.enforced
    ensures v.reply.Some? <==> v.status == StopIteration
    ensures v.reply.Some? ==> v.reply.value == Rejection(s, req)
    ensures v.headers == if !allowed && !s.enforced
                         then ApplyEdits(req.headers, FormatAll(s.requestHeadersToAddWhenNotEnforced, req.headers))
                         else req.headers
  {
    if allowed then
      Verdict(Continue, c.(enabled := c.enabled + 1, ok := c.ok + 1), req.headers, None)
    else if !s.enforced then
      Verdict(Continue, c.(enabled := c.enabled + 1, rateLimited := c.rateLimited + 1),
              ApplyEdits(req.headers, FormatAll(s.requestHeadersToAddWhenNotEnforced, req.headers)), None)
    else
      Verdict(StopIteration, c.(enabled := c.enabled + 1, rateLimited := c.rateLimited + 1, enforced := c.enforced + 1),
              req.headers, Some(Rejection(s, req)))
  }

  /** The response headers with the limit and remaining-token values set. */
  function WithRateLimitHeaders(hs: seq<Header>, limit: nat, remaining: nat): (r: seq<Header>)
    ensures Get(r, XRateLimitLimit) == Some(Decimal(limit))
    ensures Get(r, XRateLimitRemaining) == Some(Decimal(remaining))
    ensures forall k :: k != XRateLimitLimit && k != XRateLimitRemaining ==> Get(r, k) == Get(hs, k)
  {
    SetHeader(SetHeader(hs, XRateLimitLimit, Decimal(limit)), XRateLimitRemaining, Decimal(remaining))
  }

  /** The request-header phase of one request, with the limiter state it leaves and the bucket that decided it. */
  datatype Served = Served(verdict: Verdict, state: LimiterState, deciding: Option<Deciding>)

  /**
   * One request through the request-header phase, given the counters and the
   * state of the limiter it is checked against. A disabled filter passes the
   * request on untouched and decides nothing; otherwise the request's
   * descriptors are decided as `Decide` prescribes and the outcome is as
   * `Conclude` says.
   */
  function Serve(s: Settings, c: Counters, st: LimiterState, req: Request): (r: Served)
    requires |st.descriptors| == |s.limiter.table|
    ensures |r.state.descriptors| == |s.limiter.table|
    ensures r.deciding.Some? && r.deciding.value.DescriptorBucket? ==> r.deciding.value.index < |s.limiter.table|
  {
    if !s.enabled then Served(Verdict(Continue, c, req.headers, None), st, None)
    else
      var o := Decide(s.limiter.table, s.limiter.alwaysConsumeDefault, st, RequestHits(s, req));
      Served(Conclude(s, c, o.decision.allowed, req), o.state, Some(o.decision.deciding))
  }

  /**
   * What one request can do: a disabled filter changes nothing; otherwise
   * the request stops exactly when the limiter refuses it and rejections are
   * enforced; no bucket gains tokens; and consistent counters stay consistent.
   */
  lemma ServeInvariants(s: Settings, c: Counters, st: LimiterState, req: Request)
    requires |st.descriptors| == |s.limiter.table|
    ensures var r := Serve(s, c, st, req);
      && (!s.enabled ==> r.verdict.counters == c && r.state == st && r.verdict.status == Continue
                         && r.verdict.headers == req.headers && r.verdict.reply.None?)
      && (s.enabled ==> (r.verdict.status == StopIteration <==>
            s.enforced && !Decide(s.limiter.table, s.limiter.alwaysConsumeDefault, st, RequestHits(s, req)).decision.allowed))
      && r.state.global <= st.global
      && (forall i :: 0 <= i < |st.descriptors| ==> r.state.descriptors[i] <= st.descriptors[i])
      && (Consistent(c) ==> Consistent(r.verdict.counters))
  {
    if s.enabled {
      DecideDrains(s.limiter.table, s.limiter.alwaysConsumeDefault, st, RequestHits(s, req));
    }
  }

  /** The configuration object: its settings, the counters and the shared limiter. */
  class FilterConfig {
    const settings: Settings
    const shared: Limiter
    var counters: Counters

    ghost predicate Valid()
      reads this, shared, shared.Repr
    {
      shared.Valid() && shared.settings == settings.limiter
    }

    constructor (settings: Settings)
      ensures Valid() && fresh(shared) && fresh(shared.Repr)
      ensures this.settings == settings
      ensures counters == Counters(0, 0, 0, 0)
      ensures shared.State() == FullState(settings.limiter.globalMax, settings.limiter.table)
    {
      this.settings := settings;
      shared := new Limiter(settings.limiter);
      counters := Counters(0, 0, 0, 0);
    }
  }

  /**
   * One filter instance on one downstream connection. Its limiter is the
   * configuration's shared one, or its own when buckets are per connection.
   * `deciding` is the bucket that decided the last checked request.
   */
  class Filter {
    const config: FilterConfig
    const limiter: Limiter
    var deciding: TokenBucket?
    /** The local replies sent on this filter's stream. */
    var replies: seq<LocalReply>

    ghost predicate Valid()
      reads this, config, config.shared, config.shared.Repr, limiter, limiter.Repr
    {
      && config.Valid()
      && limiter.Valid()
      && limiter.settings == config.settings.limiter
      && (!config.settings.perDownstreamConnection ==> limiter == config.shared)
      && (config.settings.perDownstreamConnection ==> limiter != config.shared && limiter.Repr !! config.shared.Repr)
      && (deciding != null ==> deciding == limiter.global || deciding in limiter.buckets)
    }

    constructor (config: FilterConfig)
      requires config.Valid()
      ensures Valid()
      ensures this.config == config && deciding == null && replies == []
      ensures !config.settings.perDownstreamConnection ==> limiter == config.shared
      ensures config.settings.perDownstreamConnection ==>
        && fresh(limiter) && fresh(limiter.Repr)
        && limiter.State() == FullState(config.settings.limiter.globalMax, config.settings.limiter.table)
    {
      this.config := config;
      if config.settings.perDownstreamConnection {
        limiter := new Limiter(config.settings.limiter);
      } else {
        limiter := config.shared;
      }
      deciding := null;
      replies := [];
    }

    /**
     * Checks the descriptors of one request against this filter's limiter
     * and remembers the bucket that decided it.
     */
    method Check(hits: seq<Hit>) returns (allowed: bool)
      requires Valid()
      modifies this, limiter, limiter.Repr
      ensures Valid()
      ensures replies == old(replies)
      ensures config.settings.perDownstreamConnection ==> config.shared.State() == old(config.shared.State())
      ensures var o := Decide(config.settings.limiter.table, config.settings.limiter.alwaysConsumeDefault,
                              old(limiter.State()), hits);
        && allowed == o.decision.allowed
        && limiter.State() == o.state
        && deciding == limiter.BucketOf(o.decision.deciding)
    {
      var bucket;
      allowed, bucket := limiter.RequestAllowed(hits);
      assert config.shared.Valid() by {
        if config.settings.perDownstreamConnection {
          assert config.shared.Repr !! limiter.Repr;
        }
      }
      deciding := bucket;
    }

    /**
     * The request-header phase. A disabled filter lets the request through
     * and changes nothing. Otherwise the request's descriptors are checked
     * against the limiter; status, headers, counters and token counts are
     * those `Serve` gives, the deciding bucket is remembered for the
     * response, and an enforced rejection records its local reply.
     */
    method DecodeHeaders(req: Request) returns (status: FilterHeadersStatus, headers: seq<Header>)
      requires Valid()
      modifies this, config, limiter, limiter.Repr
      ensures Valid()
      ensures config.settings.perDownstreamConnection ==> config.shared.State() == old(config.shared.State())
      ensures var r := Serve(config.settings, old(config.counters), old(limiter.State()), req);
        && status == r.verdict.status && headers == r.verdict.headers
        && config.counters == r.verdict.counters
        && limiter.State() == r.state
        && deciding == (if r.deciding.Some? then limiter.BucketOf(r.deciding.value) else old(deciding))
        && replies == old(replies) + (if r.verdict.reply.Some? then [r.verdict.reply.value] else [])
    {
      var s := config.settings;
      if !s.enabled {
        return Continue, req.headers;
      }
      var allowed := Check(RequestHits(s, req));
      var v := Conclude(s, config.counters, allowed, req);
      Record(v);
      status, headers := v.status, v.headers;
    }

    /** Stores the counters of a verdict and records its local reply, if any. */
    method Record(v: Verdict)
      requires Valid()
      modifies this, config
      ensures Valid()
      ensures config.counters == v.counters
      ensures replies == old(replies) + (if v.reply.Some? then [v.reply.value] else [])
      ensures deciding == old(deciding)
      ensures limiter.State() == old(limiter.State()) && config.shared.State() == old(config.shared.State())
    {
      config.counters := v.counters;
      if v.reply.Some? {
        replies := replies + [v.reply.value];
      }
    }

    /**
     * The response-header phase. With x-ratelimit headers on and a request
     * already checked, the response gets the deciding bucket's capacity as
     * the limit and its current tokens as the remaining count; otherwise the
     * headers are left alone. The response always goes on.
     */
    method EncodeHeaders(headers: seq<Header>) returns (status: FilterHeadersStatus, result: seq<Header>)
      requires Valid()
      ensures status == Continue
      ensures var emit := config.settings.enabled && config.settings.xRateLimitHeaders == DraftVersion03 && deciding != null;
        && (emit ==> && Get(result, XRateLimitLimit) == Some(Decimal(deciding.maxTokens))
                     && Get(result, XRateLimitRemaining) == Some(Decimal(deciding.tokens))
                     && deciding.tokens <= deciding.maxTokens)
        && (!emit ==> result == headers)
        && (forall k :: k != XRateLimitLimit && k != XRateLimitRemaining ==> Get(result, k) == Get(headers, k))
    {
      status := Continue;
      if config.settings.enabled && config.settings.xRateLimitHeaders == DraftVersion03 && deciding != null {
        result := WithRateLimitHeaders(headers, deciding.maxTokens, deciding.tokens);
      } else {
        result := headers;
      }
    }
  }
}
