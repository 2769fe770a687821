/**
 * Concrete request sequences of the local rate-limit filter, each with the
 * outcome the filter promises for it. The configuration functions mirror
 * the filter configurations these sequences run under; their parameters
 * are the settings that vary between sequences.
 */
module Scenarios {

  import opened Wrappers
  import opened Descriptors
  import opened Limiters
  import opened Sources
  import opened Headers
  import opened LocalRateLimit

  /** Reply headers: `x-test-rate-limit: true` overwritten, and the request's `test-req-id` echoed. */
  const ReplyHeaders: seq<HeaderMutation> := [
    HeaderMutation("x-test-rate-limit", Literal("true"), OverwriteIfExistsOrAdd),
    HeaderMutation("test-resp-req-id", RequestHeaderValue("test-req-id"), AppendIfExistsOrAdd)
  ]

  /** Request header added when a rejection is not enforced. */
  const NotEnforcedHeaders: seq<HeaderMutation> := [
    HeaderMutation("x-local-ratelimited", Literal("true"), OverwriteIfExistsOrAdd)
  ]

  /** A configuration with only the default bucket. */
  function DefaultOnly(resourceExhausted: bool, maxTokens: nat, perConnection: bool, x: XRateLimitHeaders,
                       enabled: bool, enforced: bool): (s: Settings)
    ensures s.limiter.table == [] && s.rateLimits == []
  {
    Settings(LimiterSettings(maxTokens, [], false), enabled, enforced, perConnection, resourceExhausted, x,
             0, Override, ReplyHeaders, NotEnforcedHeaders, [])
  }

  /** A request with no headers and no route. */
  const Bare: Request := Request([], None, 0)

  // -----------------------------------------------------------------------
  // Only the default bucket

  /** Two requests without descriptors against one token: the first passes and the second is refused. */
  lemma OneTokenSteps(perConnection: bool)
    ensures var s := DefaultOnly(false, 1, perConnection, Off, true, true);
      && Serve(s, Counters(0, 0, 0, 0), LimiterState(1, []), Bare).verdict.status == Continue
      && Serve(s, Counters(0, 0, 0, 0), LimiterState(1, []), Bare).verdict.counters == Counters(1, 0, 1, 0)
      && Serve(s, Counters(0, 0, 0, 0), LimiterState(1, []), Bare).state == LimiterState(0, [])
      && Serve(s, Counters(1, 0, 1, 0), LimiterState(1, []), Bare).verdict.status == Continue
      && Serve(s, Counters(1, 0, 1, 0), LimiterState(1, []), Bare).verdict.counters == Counters(2, 0, 2, 0)
      && Serve(s, Counters(1, 0, 1, 0), LimiterState(0, []), Bare).verdict.status == StopIteration
      && Serve(s, Counters(1, 0, 1, 0), LimiterState(0, []), Bare).verdict.counters == Counters(2, 1, 1, 1)
  {
    UnmatchedUsesGlobal([], false, LimiterState(1, []), []);
    UnmatchedUsesGlobal([], false, LimiterState(0, []), []);
  }

  /** A disabled filter passes the request on and counts nothing. */
  method Disabled() returns (status: FilterHeadersStatus, c: Counters)
    ensures status == Continue && c == Counters(0, 0, 0, 0)
  {
    var config := new FilterConfig(DefaultOnly(false, 1, false, Off, false, false));
    var f := new Filter(config);
    var h;
    status, h := f.DecodeHeaders(Bare);
    c := config.counters;
  }

  /** Without an enforcement gate an admitted request is counted as checked and never as enforced. */
  method NoEnforced() returns (status: FilterHeadersStatus, c: Counters)
    ensures status == Continue && c.enabled == 1 && c.enforced == 0
  {
    var config := new FilterConfig(Settings(LimiterSettings(1, [], false), true, false, false, false, Off,
                                            0, Override, [], [], []));
    var f := new Filter(config);
    var h;
    UnmatchedUsesGlobal([], false, LimiterState(1, []), []);
    assert f.limiter.State() == LimiterState(1, []);
    status, h := f.DecodeHeaders(Bare);
    c := config.counters;
  }

  /** One request on each of two connections sharing a one-token bucket: the second is refused. */
  method RequestOk() returns (s1: FilterHeadersStatus, s2: FilterHeadersStatus, c: Counters)
    ensures s1 == Continue && s2 == StopIteration
    ensures c == Counters(2, 1, 1, 1)
  {
    var config := new FilterConfig(DefaultOnly(false, 1, false, Off, true, true));
    var f1 := new Filter(config);
    var f2 := new Filter(config);
    var h;
    OneTokenSteps(false);
    assert f1.limiter.State() == LimiterState(1, []);
    s1, h := f1.DecodeHeaders(Bare);
    assert config.counters == Counters(1, 0, 1, 0) && f2.limiter.State() == LimiterState(0, []);
    s2, h := f2.DecodeHeaders(Bare);
    c := config.counters;
  }

  /** With buckets per connection, each of two connections has its own token: both requests pass. */
  method RequestOkPerConnection() returns (s1: FilterHeadersStatus, s2: FilterHeadersStatus, c: Counters)
    ensures s1 == Continue && s2 == Continue
    ensures c == Counters(2, 0, 2, 0)
  {
    var config := new FilterConfig(DefaultOnly(false, 1, true, Off, true, true));
    s1 := NewConnectionRequest(config);
    assert config.counters == Counters(1, 0, 1, 0);
    s2 := NewConnectionRequest(config);
    c := config.counters;
  }

  /** A request without descriptors through the default bucket when it holds a token. */
  lemma FreshTokenStep(perConnection: bool, c: Counters)
    ensures var r := Serve(DefaultOnly(false, 1, perConnection, Off, true, true), c, LimiterState(1, []), Bare);
      && r.verdict.status == Continue && r.verdict.counters == c.(enabled := c.enabled + 1, ok := c.ok + 1)
  {
    UnmatchedUsesGlobal([], false, LimiterState(1, []), []);
  }

  /** A new connection with its own one-token bucket: its first request passes. */
  method NewConnectionRequest(config: FilterConfig) returns (status: FilterHeadersStatus)
    requires config.Valid() && config.settings == DefaultOnly(false, 1, true, Off, true, true)
    modifies config
    ensures config.Valid()
    ensures status == Continue
    ensures config.counters == old(config.counters).(enabled := old(config.counters.enabled) + 1,
                                                     ok := old(config.counters.ok) + 1)
  {
    var f := new Filter(config);
    FreshTokenStep(true, config.counters);
    var h;
    status, h := f.DecodeHeaders(Bare);
  }

  /** The second of two requests on one token is refused with the configured local reply. */
  lemma RejectionSteps(resourceExhausted: bool)
    ensures var s := DefaultOnly(resourceExhausted, 1, false, Off, true, true);
            var req := Request([Header("test-req-id", "123")], None, 0);
      && Serve(s, Counters(0, 0, 0, 0), LimiterState(1, []), req).verdict.status == Continue
      && Serve(s, Counters(0, 0, 0, 0), LimiterState(1, []), req).verdict.counters == Counters(1, 0, 1, 0)
      && Serve(s, Counters(0, 0, 0, 0), LimiterState(1, []), req).state == LimiterState(0, [])
      && Serve(s, Counters(1, 0, 1, 0), LimiterState(0, []), req).verdict
         == Verdict(StopIteration, Counters(2, 1, 1, 1), req.headers, Some(Rejection(s, req)))
  {
    UnmatchedUsesGlobal([], false, LimiterState(1, []), []);
    UnmatchedUsesGlobal([], false, LimiterState(0, []), []);
  }

  /**
   * The refused request gets a 429 reply whose headers carry the literal
   * `x-test-rate-limit` value and the request's own `test-req-id`, and no
   * gRPC status.
   */
  method RequestRateLimited() returns (s1: FilterHeadersStatus, s2: FilterHeadersStatus, c: Counters, reply: LocalReply)
    ensures s1 == Continue && s2 == StopIteration
    ensures c == Counters(2, 1, 1, 1)
    ensures reply.code == 429 && reply.body == "local_rate_limited" && reply.details == "local_rate_limited"
    ensures reply.grpcStatus == None
    ensures Get(ApplyEdits([Header(":status", "200")], reply.edits), "x-test-rate-limit") == Some("true")
    ensures Get(ApplyEdits([Header(":status", "200")], reply.edits), "test-resp-req-id") == Some("123")
  {
    var config := new FilterConfig(DefaultOnly(false, 1, false, Off, true, true));
    var f1 := new Filter(config);
    var f2 := new Filter(config);
    var h;
    RejectionSteps(false);
    assert f1.limiter.State() == LimiterState(1, []);
    s1, h := f1.DecodeHeaders(Request([Header("test-req-id", "123")], None, 0));
    assert config.counters == Counters(1, 0, 1, 0) && f2.limiter.State() == LimiterState(0, []);
    s2, h := f2.DecodeHeaders(Request([Header("test-req-id", "123")], None, 0));
    c := config.counters;
    assert f2.replies == [Rejection(config.settings, Request([Header("test-req-id", "123")], None, 0))];
    reply := f2.replies[0];
    ReplyHeadersOnStatus(false);
  }

  /** As `RequestRateLimited`, with the refusal also carrying the gRPC status RESOURCE_EXHAUSTED. */
  method RequestRateLimitedResourceExhausted() returns (s1: FilterHeadersStatus, s2: FilterHeadersStatus, c: Counters, reply: LocalReply)
    ensures s1 == Continue && s2 == StopIteration
    ensures c == Counters(2, 1, 1, 1)
    ensures reply.code == 429 && reply.body == "local_rate_limited" && reply.details == "local_rate_limited"
    ensures reply.grpcStatus == Some(8)
    ensures Get(ApplyEdits([Header(":status", "200")], reply.edits), "x-test-rate-limit") == Some("true")
    ensures Get(ApplyEdits([Header(":status", "200")], reply.edits), "test-resp-req-id") == Some("123")
  {
    var config := new FilterConfig(DefaultOnly(true, 1, false, Off, true, true));
    var f1 := new Filter(config);
    var f2 := new Filter(config);
    var h;
    RejectionSteps(true);
    assert f1.limiter.State() == LimiterState(1, []);
    s1, h := f1.DecodeHeaders(Request([Header("test-req-id", "123")], None, 0));
    assert config.counters == Counters(1, 0, 1, 0) && f2.limiter.State() == LimiterState(0, []);
    s2, h := f2.DecodeHeaders(Request([Header("test-req-id", "123")], None, 0));
    c := config.counters;
    assert f2.replies == [Rejection(config.settings, Request([Header("test-req-id", "123")], None, 0))];
    reply := f2.replies[0];
    ReplyHeadersOnStatus(true);
  }

  /** The reply headers of a refusal, applied to a response carrying only `:status`. */
  lemma ReplyHeadersOnStatus(resourceExhausted: bool)
    ensures var edits := Rejection(DefaultOnly(resourceExhausted, 1, false, Off, true, true),
                                   Request([Header("test-req-id", "123")], None, 0)).edits;
      && Get(ApplyEdits([Header(":status", "200")], edits), "x-test-rate-limit") == Some("true")
      && Get(ApplyEdits([Header(":status", "200")], edits), "test-resp-req-id") == Some("123")
  {
  }

  /** Two requests on each of two connections, each connection with its own token. */
  method RequestRateLimitedPerConnection() returns (s: seq<FilterHeadersStatus>, c: Counters)
    ensures s == [Continue, StopIteration, Continue, StopIteration]
    ensures c == Counters(4, 2, 2, 2)
  {
    var config := new FilterConfig(DefaultOnly(false, 1, true, Off, true, true));
    var f1 := new Filter(config);
    var f2 := new Filter(config);
    assert f1.limiter != f2.limiter && f1.limiter.Repr !! f2.limiter.Repr;
    assert f1.limiter.State() == LimiterState(1, []);
    var s1, s2 := TwoOnOneToken(f1);
    assert f2.limiter.State() == LimiterState(1, []);
    var s3, s4 := TwoOnOneToken(f2);
    s, c := [s1, s2, s3, s4], config.counters;
  }

  /** Two requests on a connection whose own bucket holds one token: one passes, one is refused. */
  method TwoOnOneToken(f: Filter) returns (s1: FilterHeadersStatus, s2: FilterHeadersStatus)
    requires f.Valid() && f.config.settings == DefaultOnly(false, 1, true, Off, true, true)
    requires f.limiter.State() == LimiterState(1, [])
    modifies f, f.config, f.limiter, f.limiter.Repr
    ensures f.Valid() && s1 == Continue && s2 == StopIteration
    ensures f.config.counters == old(f.config.counters).(enabled := old(f.config.counters).enabled + 2,
                                                        enforced := old(f.config.counters).enforced + 1,
                                                        ok := old(f.config.counters).ok + 1,
                                                        rateLimited := old(f.config.counters).rateLimited + 1)
  {
    UnmatchedUsesGlobal([], false, LimiterState(1, []), []);
    UnmatchedUsesGlobal([], false, LimiterState(0, []), []);
    var h;
    s1, h := f.DecodeHeaders(Bare);
    assert f.limiter.State() == LimiterState(0, []);
    s2, h := f.DecodeHeaders(Bare);
  }

  /** A refusal that is not enforced lets the request on, marked with `x-local-ratelimited: true`, and sends no reply. */
  method RequestRateLimitedButNotEnforced() returns (status: FilterHeadersStatus, headers: seq<Header>, c: Counters, replies: seq<LocalReply>)
    ensures status == Continue && headers == [Header("x-local-ratelimited", "true")]
    ensures c == Counters(1, 0, 0, 1) && replies == []
  {
    var config := new FilterConfig(DefaultOnly(false, 0, false, Off, true, false));
    var f := new Filter(config);
    NotEnforcedStep();
    assert f.limiter.State() == LimiterState(0, []);
    status, headers := f.DecodeHeaders(Bare);
    c, replies := config.counters, f.replies;
  }

  lemma NotEnforcedStep()
    ensures Serve(DefaultOnly(false, 0, false, Off, true, false), Counters(0, 0, 0, 0), LimiterState(0, []), Bare).verdict
            == Verdict(Continue, Counters(1, 0, 0, 1), [Header("x-local-ratelimited", "true")], None)
  {
    UnmatchedUsesGlobal([], false, LimiterState(0, []), []);
  }

  /**
   * With draft-03 headers on, each response carries the deciding bucket's
   * capacity and what is left of it: one token, none left, after the
   * admitted request and after the refused one alike.
   */
  method RequestRateLimitedXRateLimitHeaders()
    returns (s1: FilterHeadersStatus, e1: seq<Header>, s2: FilterHeadersStatus, e2: seq<Header>, c: Counters)
    ensures s1 == Continue && s2 == StopIteration
    ensures Get(e1, "x-ratelimit-limit") == Some("1") && Get(e1, "x-ratelimit-remaining") == Some("0")
    ensures Get(e2, "x-ratelimit-limit") == Some("1") && Get(e2, "x-ratelimit-remaining") == Some("0")
    ensures c == Counters(2, 1, 1, 1)
  {
    var config := new FilterConfig(DefaultOnly(false, 1, false, DraftVersion03, true, true));
    var f1 := new Filter(config);
    var f2 := new Filter(config);
    assert f1.limiter.State() == LimiterState(1, []);
    s1, e1 := DraftExchange(f1, []);
    assert f2.limiter.State() == LimiterState(0, []) && config.counters == Counters(1, 0, 1, 0);
    s2, e2 := DraftExchange(f2, e1);
    c := config.counters;
  }

  /**
   * One request and its response on a one-token default bucket shared
   * through `f`'s configuration: whether or not the request passes, the
   * bucket ends empty and the response reports a limit of one with none left.
   */
  method DraftExchange(f: Filter, response: seq<Header>) returns (status: FilterHeadersStatus, result: seq<Header>)
    requires f.Valid() && f.config.settings == DefaultOnly(false, 1, false, DraftVersion03, true, true)
    requires f.limiter.State() == LimiterState(1, []) || f.limiter.State() == LimiterState(0, [])
    modifies f, f.config, f.limiter, f.limiter.Repr
    ensures f.Valid() && f.limiter.State() == LimiterState(0, [])
    ensures status == if old(f.limiter.State()).global == 1 then Continue else StopIteration
    ensures var c := old(f.config.counters);
      f.config.counters == if old(f.limiter.State()).global == 1
                           then c.(enabled := c.enabled + 1, ok := c.ok + 1)
                           else c.(enabled := c.enabled + 1, enforced := c.enforced + 1, rateLimited := c.rateLimited + 1)
    ensures Get(result, "x-ratelimit-limit") == Some("1") && Get(result, "x-ratelimit-remaining") == Some("0")
  {
    DraftStep(f.config.counters, f.limiter.State().global);
    var h;
    status, h := f.DecodeHeaders(Bare);
    assert f.deciding == f.limiter.global && f.limiter.global.tokens == 0;
    result := DraftResponse(f, response);
  }

  /** The request of such an exchange, on its own. */
  lemma DraftStep(c: Counters, g: nat)
    requires g <= 1
    ensures var r := Serve(DefaultOnly(false, 1, false, DraftVersion03, true, true), c, LimiterState(g, []), Bare);
      && r.state == LimiterState(0, []) && r.deciding == Some(DefaultBucket)
      && r.verdict.status == (if g == 1 then Continue else StopIteration)
      && r.verdict.counters == if g == 1 then c.(enabled := c.enabled + 1, ok := c.ok + 1)
                               else c.(enabled := c.enabled + 1, enforced := c.enforced + 1, rateLimited := c.rateLimited + 1)
  {
    UnmatchedUsesGlobal([], false, LimiterState(g, []), []);
  }

  /** The response after a request decided by an empty one-token default bucket. */
  method DraftResponse(f: Filter, response: seq<Header>) returns (result: seq<Header>)
    requires f.Valid() && f.config.settings.enabled && f.config.settings.xRateLimitHeaders == DraftVersion03
    requires f.deciding == f.limiter.global && f.limiter.global.maxTokens == 1 && f.limiter.global.tokens == 0
    ensures Get(result, "x-ratelimit-limit") == Some("1") && Get(result, "x-ratelimit-remaining") == Some("0")
  {
    var st;
    st, result := f.EncodeHeaders(response);
    assert Decimal(1) == "1" && Decimal(0) == "0";
  }

  /** Before any request has been checked, a response gets no x-ratelimit headers. */
  method XRateLimitHeadersWithoutDecode() returns (s1: FilterHeadersStatus, e1: seq<Header>, s2: FilterHeadersStatus, e2: seq<Header>)
    ensures s1 == Continue && s2 == Continue
    ensures Get(e1, "x-ratelimit-limit") == None && Get(e1, "x-ratelimit-remaining") == None
    ensures Get(e2, "x-ratelimit-limit") == None && Get(e2, "x-ratelimit-remaining") == None
  {
    var config := new FilterConfig(DefaultOnly(false, 1, false, DraftVersion03, true, true));
    var f1 := new Filter(config);
    var f2 := new Filter(config);
    s1, e1 := f1.EncodeHeaders([]);
    s2, e2 := f2.EncodeHeaders(e1);
  }

  // -----------------------------------------------------------------------
  // A descriptor table, descriptors from the route and virtual host

  const HelloFoo: Descriptor := {Entry("hello", "world"), Entry("foo", "bar")}
  const Foo2: Descriptor := {Entry("foo2", "bar2")}
  const FooOnly: Descriptor := {Entry("foo", "bar")}

  /** The two-entry table: `hello=world, foo=bar` with ten tokens, then `foo2=bar2`. */
  function DescriptorTable(foo2Max: nat): (t: seq<DescriptorSetting>)
    ensures |t| == 2
  {
    [DescriptorSetting(HelloFoo, 10), DescriptorSetting(Foo2, foo2Max)]
  }

  /** A per-connection configuration with the two-entry table. */
  function DescriptorConfig(globalMax: nat, x: XRateLimitHeaders, foo2Max: nat, stage: nat,
                            vh: VhRateLimits, always: bool): (s: Settings)
    ensures s.limiter.table == DescriptorTable(foo2Max) && s.rateLimits == [] && s.enabled && s.enforced
  {
    Settings(LimiterSettings(globalMax, DescriptorTable(foo2Max), always), true, true, true, false, x, stage, vh,
             [HeaderMutation("x-test-rate-limit", Literal("true"), OverwriteIfExistsOrAdd)], [], [])
  }

  /** A request on a route with a cluster, whose route and virtual-host policies are given. */
  function OnRoute(policy: seq<PolicyEntry>, vhPolicy: seq<PolicyEntry>, includeVh: bool): Request
  {
    Request([], Some(Route(policy, vhPolicy, includeVh, true)), 0)
  }

  /** Where each test descriptor falls in the table. */
  lemma TableLookups(foo2Max: nat)
    ensures FindDescriptor(DescriptorTable(foo2Max), HelloFoo) == Some(0)
    ensures FindDescriptor(DescriptorTable(foo2Max), Foo2) == Some(1)
    ensures FindDescriptor(DescriptorTable(foo2Max), FooOnly) == None
  {
    assert Entry("hello", "world") !in Foo2;
    assert Entry("hello", "world") !in FooOnly;
    assert Entry("foo2", "bar2") !in HelloFoo;
  }

  /** The result of one request on a new connection. */
  function FirstRequest(s: Settings, req: Request): Served
  {
    Serve(s, Counters(0, 0, 0, 0), FullState(s.limiter.globalMax, s.limiter.table), req)
  }

  /**
   * A route whose rate-limit policies hold no entry gathers no descriptor, so
   * the request takes the default token; a request with no route at all is
   * decided the same way.
   */
  lemma NoRouteEntry()
    ensures var r := FirstRequest(DescriptorConfig(1, Off, 1, 0, Override, false), OnRoute([], [], false));
      && r.verdict.status == Continue && r.verdict.counters == Counters(1, 0, 1, 0)
      && r.state == LimiterState(0, [10, 1])
    ensures FirstRequest(DescriptorConfig(1, Off, 1, 0, Override, false), Request([], None, 0))
         == FirstRequest(DescriptorConfig(1, Off, 1, 0, Override, false), OnRoute([], [], false))
  {
    var s := DescriptorConfig(1, Off, 1, 0, Override, false);
    var st := FullState(1, DescriptorTable(1));
    assert st == LimiterState(1, [10, 1]);
    var req := OnRoute([], [], false);
    assert RequestHits(s, req) == [];
    assert RequestHits(s, Request([], None, 0)) == [];
    UnmatchedUsesGlobal(DescriptorTable(1), false, st, []);
    var v := Conclude(s, Counters(0, 0, 0, 0), true, req);
    assert v.status == Continue && v.counters == Counters(1, 0, 1, 0);
  }

  /** Without a cluster the route's descriptors are not looked up either. */
  lemma NoCluster()
    ensures var r := FirstRequest(DescriptorConfig(1, Off, 1, 0, Override, false),
                                  Request([], Some(Route([PolicyEntry(0, "", [Hit(Foo2, 1)])], [], false, false)), 0));
      && r.verdict.status == Continue && r.verdict.counters == Counters(1, 0, 1, 0)
      && r.state == LimiterState(0, [10, 1])
  {
    var s := DescriptorConfig(1, Off, 1, 0, Override, false);
    var st := FullState(1, DescriptorTable(1));
    assert st == LimiterState(1, [10, 1]);
    var req := Request([], Some(Route([PolicyEntry(0, "", [Hit(Foo2, 1)])], [], false, false)), 0);
    assert RequestHits(s, req) == [];
    UnmatchedUsesGlobal(DescriptorTable(1), false, st, []);
    var v := Conclude(s, Counters(0, 0, 0, 0), true, req);
    assert v.status == Continue && v.counters == Counters(1, 0, 1, 0);
  }

  /** A route entry with a disable key contributes nothing: the descriptor bucket stays full. */
  lemma DisabledInRoute()
    ensures var r := FirstRequest(DescriptorConfig(1, Off, 1, 0, Override, false),
                                  OnRoute([PolicyEntry(0, "disabled", [Hit(Foo2, 1)])], [], false));
      && r.verdict.status == Continue && r.verdict.counters == Counters(1, 0, 1, 0)
      && r.state == LimiterState(0, [10, 1])
  {
    var s := DescriptorConfig(1, Off, 1, 0, Override, false);
    var st := FullState(1, DescriptorTable(1));
    assert st == LimiterState(1, [10, 1]);
    var req := OnRoute([PolicyEntry(0, "disabled", [Hit(Foo2, 1)])], [], false);
    assert Applicable([PolicyEntry(0, "disabled", [Hit(Foo2, 1)])], 0) == [];
    assert RequestHits(s, req) == [];
    UnmatchedUsesGlobal(DescriptorTable(1), false, st, []);
    var v := Conclude(s, Counters(0, 0, 0, 0), true, req);
    assert v.status == Continue && v.counters == Counters(1, 0, 1, 0);
  }

  /** The descriptors of a single route entry of stage `stage`, under OVERRIDE with no virtual-host policy. */
  lemma RouteHits(s: Settings, stage: nat, hits: seq<Hit>)
    requires s.limiter.table != [] && s.rateLimits == [] && s.vhRateLimits == Override && s.stage == stage
    ensures RequestHits(s, OnRoute([PolicyEntry(stage, "", hits)], [], false)) == hits
  {
    assert Applicable([PolicyEntry(stage, "", hits)], stage) == hits + Applicable([], stage);
  }

  /** A matching route descriptor draws its own bucket and leaves the default one alone. */
  lemma RouteDescriptorRequestOk()
    ensures var r := FirstRequest(DescriptorConfig(1, Off, 1, 0, Override, false),
                                  OnRoute([PolicyEntry(0, "", [Hit(Foo2, 1)])], [], false));
      && r.verdict.status == Continue && r.verdict.counters == Counters(1, 0, 1, 0)
      && r.state == LimiterState(1, [10, 0]) && r.deciding == Some(DescriptorBucket(1))
  {
    var s := DescriptorConfig(1, Off, 1, 0, Override, false);
    var table := DescriptorTable(1);
    var hits := [Hit(Foo2, 1)];
    var st := FullState(1, table);
    assert st == LimiterState(1, [10, 1]);
    RouteHits(s, 0, hits);
    TableLookups(1);
    ScanPay(table, [10, 1], hits, None, 1);
    assert [10, 1][1 := 0] == [10, 0];
    assert Scan(table, [10, 1], hits, None) == Scanned(None, Some(1), [10, 0]);
    assert Decide(table, false, st, hits) == Outcome(Decision(true, DescriptorBucket(1)), LimiterState(1, [10, 0]));
    var v := Conclude(s, Counters(0, 0, 0, 0), true, OnRoute([PolicyEntry(0, "", hits)], [], false));
    assert v.status == Continue && v.counters == Counters(1, 0, 1, 0);
  }

  /** A matching route descriptor whose bucket is empty is refused, and the refusal names that bucket. */
  lemma RouteDescriptorRequestRatelimited(x: XRateLimitHeaders)
    ensures var r := FirstRequest(DescriptorConfig(0, x, 0, 0, Override, false),
                                  OnRoute([PolicyEntry(0, "", [Hit(Foo2, 1)])], [], false));
      && r.verdict.status == StopIteration && r.verdict.counters == Counters(1, 1, 0, 1)
      && r.state == LimiterState(0, [10, 0]) && r.deciding == Some(DescriptorBucket(1))
  {
    var s := DescriptorConfig(0, x, 0, 0, Override, false);
    var table := DescriptorTable(0);
    var hits := [Hit(Foo2, 1)];
    var st := FullState(0, table);
    assert st == LimiterState(0, [10, 0]);
    RouteHits(s, 0, hits);
    TableLookups(0);
    ScanRefuse(table, [10, 0], hits, None, 1);
    assert Decide(table, false, st, hits) == Outcome(Decision(false, DescriptorBucket(1)), st);
    var v := Conclude(s, Counters(0, 0, 0, 0), false, OnRoute([PolicyEntry(0, "", hits)], [], false));
    assert v.status == StopIteration && v.counters == Counters(1, 1, 0, 1);
  }

  /** A descriptor the table does not list falls back to the default bucket. */
  lemma RouteDescriptorNotFound()
    ensures var r := FirstRequest(DescriptorConfig(1, Off, 1, 0, Override, false),
                                  OnRoute([PolicyEntry(0, "", [Hit(FooOnly, 1)])], [], false));
      && r.verdict.status == Continue && r.verdict.counters == Counters(1, 0, 1, 0)
      && r.state == LimiterState(0, [10, 1]) && r.deciding == Some(DefaultBucket)
  {
    var s := DescriptorConfig(1, Off, 1, 0, Override, false);
    var table := DescriptorTable(1);
    var hits := [Hit(FooOnly, 1)];
    var st := FullState(1, table);
    assert st == LimiterState(1, [10, 1]);
    RouteHits(s, 0, hits);
    TableLookups(1);
    UnmatchedUsesGlobal(table, false, st, hits);
    var v := Conclude(s, Counters(0, 0, 0, 0), true, OnRoute([PolicyEntry(0, "", hits)], [], false));
    assert v.status == Continue && v.counters == Counters(1, 0, 1, 0);
  }

  /**
   * With an empty default bucket: an unlisted descriptor is refused whatever
   * always_consume_default_token_bucket says, and a listed one is refused
   * exactly when that option is on, in which case the descriptor token it
   * drew stays drawn.
   */
  lemma ConsumeDefaultToken(always: bool, found: bool)
    ensures var r := FirstRequest(DescriptorConfig(0, Off, 1, 0, Override, always),
                                  OnRoute([PolicyEntry(0, "", [Hit(if found then Foo2 else FooOnly, 1)])], [], false));
      && (r.verdict.status == StopIteration <==> always || !found)
      && r.verdict.counters == (if always || !found then Counters(1, 1, 0, 1) else Counters(1, 0, 1, 0))
      && r.state == LimiterState(0, if found then [10, 0] else [10, 1])
  {
    if found {
      ConsumeFound(always);
    } else {
      ConsumeNotFound(always);
    }
  }

  /** A listed descriptor against an empty default bucket. */
  lemma ConsumeFound(always: bool)
    ensures var r := FirstRequest(DescriptorConfig(0, Off, 1, 0, Override, always),
                                  OnRoute([PolicyEntry(0, "", [Hit(Foo2, 1)])], [], false));
      && r.verdict.status == (if always then StopIteration else Continue)
      && r.verdict.counters == (if always then Counters(1, 1, 0, 1) else Counters(1, 0, 1, 0))
      && r.state == LimiterState(0, [10, 0])
  {
    var s := DescriptorConfig(0, Off, 1, 0, Override, always);
    var hits := [Hit(Foo2, 1)];
    assert FullState(0, DescriptorTable(1)) == LimiterState(0, [10, 1]);
    RouteHits(s, 0, hits);
    FoundDecision(always);
    var v := Conclude(s, Counters(0, 0, 0, 0), !always, OnRoute([PolicyEntry(0, "", hits)], [], false));
    assert v.status == (if always then StopIteration else Continue);
  }

  /** The decision for a listed descriptor against an empty default bucket. */
  lemma FoundDecision(always: bool)
    ensures Decide(DescriptorTable(1), always, LimiterState(0, [10, 1]), [Hit(Foo2, 1)])
         == if always then Outcome(Decision(false, DefaultBucket), LimiterState(0, [10, 0]))
            else Outcome(Decision(true, DescriptorBucket(1)), LimiterState(0, [10, 0]))
  {
    Foo2Scan();
  }

  /** An unlisted descriptor against an empty default bucket. */
  lemma ConsumeNotFound(always: bool)
    ensures var r := FirstRequest(DescriptorConfig(0, Off, 1, 0, Override, always),
                                  OnRoute([PolicyEntry(0, "", [Hit(FooOnly, 1)])], [], false));
      && r.verdict.status == StopIteration && r.verdict.counters == Counters(1, 1, 0, 1)
      && r.state == LimiterState(0, [10, 1])
  {
    var s := DescriptorConfig(0, Off, 1, 0, Override, always);
    var table := DescriptorTable(1);
    var hits := [Hit(FooOnly, 1)];
    var st := FullState(0, table);
    assert st == LimiterState(0, [10, 1]);
    RouteHits(s, 0, hits);
    TableLookups(1);
    UnmatchedUsesGlobal(table, always, st, hits);
    var v := Conclude(s, Counters(0, 0, 0, 0), false, OnRoute([PolicyEntry(0, "", hits)], [], false));
    assert v.status == StopIteration && v.counters == Counters(1, 1, 0, 1);
  }

  /**
   * Two listed descriptors: the first draws its token, the second finds its
   * bucket empty and the request is refused without returning the first token.
   */
  lemma RouteDescriptorBothMatch()
    ensures var r := FirstRequest(DescriptorConfig(0, Off, 0, 0, Override, false),
                                  OnRoute([PolicyEntry(0, "", [Hit(HelloFoo, 1), Hit(Foo2, 1)])], [], false));
      && r.verdict.status == StopIteration && r.verdict.counters == Counters(1, 1, 0, 1)
      && r.state == LimiterState(0, [9, 0]) && r.deciding == Some(DescriptorBucket(1))
  {
    var s := DescriptorConfig(0, Off, 0, 0, Override, false);
    var table := DescriptorTable(0);
    var hits := [Hit(HelloFoo, 1), Hit(Foo2, 1)];
    var st := FullState(0, table);
    assert st == LimiterState(0, [10, 0]);
    RouteHits(s, 0, hits);
    TableLookups(0);
    ScanPay(table, [10, 0], hits, None, 0);
    assert [10, 0][0 := 9] == [9, 0];
    ScanRefuse(table, [9, 0], hits[1..], Some(0), 1);
    assert Decide(table, false, st, hits) == Outcome(Decision(false, DescriptorBucket(1)), LimiterState(0, [9, 0]));
    var v := Conclude(s, Counters(0, 0, 0, 0), false, OnRoute([PolicyEntry(0, "", hits)], [], false));
    assert v.status == StopIteration && v.counters == Counters(1, 1, 0, 1);
  }

  /** Route entries of the configured stage apply. */
  lemma RouteDescriptorWithStageConfig()
    ensures var r := FirstRequest(DescriptorConfig(1, Off, 1, 1, Override, false),
                                  OnRoute([PolicyEntry(1, "", [Hit(Foo2, 1)])], [], false));
      && r.verdict.status == Continue && r.verdict.counters == Counters(1, 0, 1, 0)
      && r.state == LimiterState(1, [10, 0]) && r.deciding == Some(DescriptorBucket(1))
  {
    var s := DescriptorConfig(1, Off, 1, 1, Override, false);
    var table := DescriptorTable(1);
    var hits := [Hit(Foo2, 1)];
    var st := FullState(1, table);
    assert st == LimiterState(1, [10, 1]);
    RouteHits(s, 1, hits);
    TableLookups(1);
    ScanPay(table, [10, 1], hits, None, 1);
    assert [10, 1][1 := 0] == [10, 0];
    assert Scan(table, [10, 1], hits, None) == Scanned(None, Some(1), [10, 0]);
    var v := Conclude(s, Counters(0, 0, 0, 0), true, OnRoute([PolicyEntry(1, "", hits)], [], false));
    assert v.status == Continue && v.counters == Counters(1, 0, 1, 0);
  }

  /**
   * A request refused by an empty descriptor bucket, then its response: with
   * draft-03 headers on, the limit and remaining values are those of the
   * descriptor bucket that refused it.
   */
  method RouteDescriptorRequestRatelimitedXRateLimitHeaders()
    returns (decoded: FilterHeadersStatus, encoded: FilterHeadersStatus, response: seq<Header>, c: Counters)
    ensures decoded == StopIteration && encoded == Continue && c == Counters(1, 1, 0, 1)
    ensures Get(response, XRateLimitLimit) == Some("0") && Get(response, XRateLimitRemaining) == Some("0")
  {
    var config := new FilterConfig(DescriptorConfig(0, DraftVersion03, 0, 0, Override, false));
    var f := new Filter(config);
    RouteDescriptorRequestRatelimited(DraftVersion03);
    var h;
    decoded, h := f.DecodeHeaders(OnRoute([PolicyEntry(0, "", [Hit(Foo2, 1)])], [], false));
    assert f.deciding == f.limiter.buckets[1];
    encoded, response := f.EncodeHeaders([]);
    assert Decimal(0) == "0";
    c := config.counters;
  }

  /** The same refusal with the x-ratelimit headers off leaves the response without them. */
  method RouteDescriptorRequestRatelimitedWithoutXRateLimitHeaders()
    returns (decoded: FilterHeadersStatus, encoded: FilterHeadersStatus, response: seq<Header>, c: Counters)
    ensures decoded == StopIteration && encoded == Continue && c == Counters(1, 1, 0, 1)
    ensures Get(response, XRateLimitLimit) == None && Get(response, XRateLimitRemaining) == None
  {
    var config := new FilterConfig(DescriptorConfig(0, Off, 0, 0, Override, false));
    var f := new Filter(config);
    RouteDescriptorRequestRatelimited(Off);
    var h;
    decoded, h := f.DecodeHeaders(OnRoute([PolicyEntry(0, "", [Hit(Foo2, 1)])], [], false));
    encoded, response := f.EncodeHeaders([]);
    c := config.counters;
  }

  // -----------------------------------------------------------------------
  // Route and virtual-host policies under `vh_rate_limits`

  /** The walk over `foo2=bar2` alone, on a full table with one token for it. */
  lemma Foo2Scan()
    ensures Scan(DescriptorTable(1), [10, 1], [Hit(Foo2, 1)], None) == Scanned(None, Some(1), [10, 0])
  {
    var table := DescriptorTable(1);
    var hits := [Hit(Foo2, 1)];
    TableLookups(1);
    ScanPay(table, [10, 1], hits, None, 1);
    assert [10, 1][1 := 0] == [10, 0];
  }

  /** A full table with one token for `foo2=bar2` admits a request with that descriptor through its bucket. */
  lemma Foo2Decision()
    ensures Decide(DescriptorTable(1), false, LimiterState(1, [10, 1]), [Hit(Foo2, 1)])
         == Outcome(Decision(true, DescriptorBucket(1)), LimiterState(1, [10, 0]))
  {
    Foo2Scan();
  }

  /** Whatever the policies, a request whose only descriptor is `foo2=bar2` takes that bucket's token. */
  lemma Foo2Admitted(mode: VhRateLimits, req: Request)
    requires Resolve(mode, 0, req.route).hits == [Hit(Foo2, 1)]
    ensures var r := FirstRequest(DescriptorConfig(1, Off, 1, 0, mode, false), req);
      && r.verdict.status == Continue && r.verdict.counters == Counters(1, 0, 1, 0)
      && r.state == LimiterState(1, [10, 0])
  {
    var s := DescriptorConfig(1, Off, 1, 0, mode, false);
    assert FullState(1, DescriptorTable(1)) == LimiterState(1, [10, 1]);
    assert RequestHits(s, req) == [Hit(Foo2, 1)];
    Foo2Decision();
    var v := Conclude(s, Counters(0, 0, 0, 0), true, req);
    assert v.status == Continue && v.counters == Counters(1, 0, 1, 0);
  }

  /** An entry of stage 0 yielding `hits`. */
  function Entry0(hits: seq<Hit>): seq<PolicyEntry>
  {
    [PolicyEntry(0, "", hits)]
  }

  /** The descriptors of a single entry of stage 0. */
  lemma Entry0Hits(hits: seq<Hit>)
    ensures Applicable(Entry0(hits), 0) == hits
  {
    assert Applicable(Entry0(hits), 0) == hits + Applicable([], 0);
  }

  /** OVERRIDE with a route policy: only the route policy is looked up. */
  lemma OverrideWithRouteRateLimitSet()
    ensures var req := OnRoute(Entry0([Hit(Foo2, 1)]), Entry0([]), false);
      && Resolve(Override, 0, req.route).queries == [Query(RoutePolicy, 0)]
      && FirstRequest(DescriptorConfig(1, Off, 1, 0, Override, false), req).verdict.status == Continue
      && FirstRequest(DescriptorConfig(1, Off, 1, 0, Override, false), req).state == LimiterState(1, [10, 0])
  {
    Entry0Hits([Hit(Foo2, 1)]);
    Foo2Admitted(Override, OnRoute(Entry0([Hit(Foo2, 1)]), Entry0([]), false));
  }

  /** OVERRIDE without a route policy: the virtual-host policy is looked up and supplies the descriptor. */
  lemma OverrideWithoutRouteRateLimit()
    ensures var req := OnRoute([], Entry0([Hit(Foo2, 1)]), false);
      && Resolve(Override, 0, req.route).queries == [Query(RoutePolicy, 0), Query(VirtualHostPolicy, 0)]
      && FirstRequest(DescriptorConfig(1, Off, 1, 0, Override, false), req).verdict.status == Continue
      && FirstRequest(DescriptorConfig(1, Off, 1, 0, Override, false), req).state == LimiterState(1, [10, 0])
  {
    Entry0Hits([Hit(Foo2, 1)]);
    Foo2Admitted(Override, OnRoute([], Entry0([Hit(Foo2, 1)]), false));
  }

  /** INCLUDE: both policies are looked up; here only the virtual host yields a descriptor. */
  lemma IncludeWithOnlyVirtualHostRateLimitSet()
    ensures var req := OnRoute(Entry0([]), Entry0([Hit(Foo2, 1)]), false);
      && Resolve(Include, 0, req.route).queries == [Query(RoutePolicy, 0), Query(VirtualHostPolicy, 0)]
      && FirstRequest(DescriptorConfig(1, Off, 1, 0, Include, false), req).verdict.status == Continue
      && FirstRequest(DescriptorConfig(1, Off, 1, 0, Include, false), req).state == LimiterState(1, [10, 0])
  {
    Entry0Hits([]);
    Entry0Hits([Hit(Foo2, 1)]);
    Foo2Admitted(Include, OnRoute(Entry0([]), Entry0([Hit(Foo2, 1)]), false));
  }

  /** INCLUDE with both policies: both are looked up and the route's descriptors come first. */
  lemma IncludeWithRouteAndVirtualHostRateLimitSet()
    ensures var req := OnRoute(Entry0([Hit(Foo2, 1)]), Entry0([Hit(Foo2, 1)]), false);
      && Resolve(Include, 0, req.route) == Resolution([Hit(Foo2, 1), Hit(Foo2, 1)],
                                                      [Query(RoutePolicy, 0), Query(VirtualHostPolicy, 0)])
  {
    Entry0Hits([Hit(Foo2, 1)]);
  }

  /** IGNORE with a route policy: the virtual host is never looked up. */
  lemma IgnoreWithRouteRateLimitSet()
    ensures var req := OnRoute(Entry0([Hit(Foo2, 1)]), Entry0([]), false);
      && Resolve(Ignore, 0, req.route).queries == [Query(RoutePolicy, 0)]
      && FirstRequest(DescriptorConfig(1, Off, 1, 0, Ignore, false), req).verdict.status == Continue
      && FirstRequest(DescriptorConfig(1, Off, 1, 0, Ignore, false), req).state == LimiterState(1, [10, 0])
  {
    Entry0Hits([Hit(Foo2, 1)]);
    Foo2Admitted(Ignore, OnRoute(Entry0([Hit(Foo2, 1)]), Entry0([]), false));
  }

  /** IGNORE with a route policy that yields nothing: no descriptor, so the default bucket decides. */
  lemma IgnoreWithoutRouteRateLimit()
    ensures var req := OnRoute(Entry0([]), Entry0([Hit(Foo2, 1)]), false);
      && Resolve(Ignore, 0, req.route) == Resolution([], [Query(RoutePolicy, 0)])
      && FirstRequest(DescriptorConfig(1, Off, 1, 0, Ignore, false), req).verdict.status == Continue
      && FirstRequest(DescriptorConfig(1, Off, 1, 0, Ignore, false), req).state == LimiterState(0, [10, 1])
  {
    var s := DescriptorConfig(1, Off, 1, 0, Ignore, false);
    var req := OnRoute(Entry0([]), Entry0([Hit(Foo2, 1)]), false);
    Entry0Hits([]);
    var st := FullState(1, DescriptorTable(1));
    assert st == LimiterState(1, [10, 1]);
    assert RequestHits(s, req) == [];
    UnmatchedUsesGlobal(DescriptorTable(1), false, st, []);
    var v := Conclude(s, Counters(0, 0, 0, 0), true, req);
    assert v.status == Continue;
  }

  /** The route's include-virtual-host flag overrides IGNORE: the virtual host is looked up. */
  lemma IncludeVirtualHostRateLimitsSetTrue()
    ensures var req := OnRoute(Entry0([]), Entry0([Hit(Foo2, 1)]), true);
      && Resolve(Ignore, 0, req.route).queries == [Query(RoutePolicy, 0), Query(VirtualHostPolicy, 0)]
      && FirstRequest(DescriptorConfig(1, Off, 1, 0, Ignore, false), req).verdict.status == Continue
      && FirstRequest(DescriptorConfig(1, Off, 1, 0, Ignore, false), req).state == LimiterState(1, [10, 0])
  {
    Entry0Hits([]);
    Entry0Hits([Hit(Foo2, 1)]);
    Foo2Admitted(Ignore, OnRoute(Entry0([]), Entry0([Hit(Foo2, 1)]), true));
  }

  // -----------------------------------------------------------------------
  // The filter's own rate_limits rules

  /** A rule that yields `foo2=bar2` when `x-header-name` has exactly the value `value`. */
  function HeaderRule(value: string, addend: HitsAddend): LocalRule
  {
    LocalRule([HeaderValueMatch("foo2", "bar2", "x-header-name", value)], addend)
  }

  /** A request carrying `x-header-name`. */
  function WithHeaderName(value: string, bytesReceived: nat): Request
  {
    Request([Header("x-header-name", value)], None, bytesReceived)
  }

  /** A shared configuration with a large default bucket, a `foo2=bar2` entry and the given rules. */
  function InlinedConfig(foo2Max: nat, rules: seq<LocalRule>): (s: Settings)
    ensures s.enabled && s.enforced && s.limiter.table == [DescriptorSetting(Foo2, foo2Max)] && !s.limiter.alwaysConsumeDefault
  {
    Settings(LimiterSettings(100000, [DescriptorSetting(Foo2, foo2Max)], false), true, true, false, false, Off,
             0, Override, [], [], rules)
  }

  /** The descriptor of a header rule. */
  lemma HeaderRuleDescriptor(value: string, addend: HitsAddend)
    ensures RuleDescriptor(HeaderRule(value, addend)) == Foo2
  {
    var rule := HeaderRule(value, addend);
    forall e ensures e in RuleDescriptor(rule) <==> e in Foo2 {
      if e in RuleDescriptor(rule) {
        assert rule.actions[0] in rule.actions;
      }
      if e in Foo2 {
        assert rule.actions[0] in rule.actions;
        assert Entry(rule.actions[0].descriptorKey, rule.actions[0].descriptorValue) in RuleDescriptor(rule);
      }
    }
  }

  /**
   * One request through `f` that yields no listed descriptor: it is admitted
   * by the default bucket, which loses one token.
   */
  method SendUnmatched(f: Filter, req: Request, n: nat) returns (statuses: seq<FilterHeadersStatus>)
    requires f.Valid() && f.config.settings.enabled
    requires forall h :: h in RequestHits(f.config.settings, req) ==> !Matches(f.config.settings.limiter.table, h.descriptor)
    requires n <= f.limiter.State().global
    modifies f, f.config, f.limiter, f.limiter.Repr
    ensures f.Valid()
    ensures |statuses| == n && forall i :: 0 <= i < n ==> statuses[i] == Continue
    ensures f.limiter.State() == LimiterState(old(f.limiter.State().global) - n, old(f.limiter.State().descriptors))
    ensures f.config.counters == old(f.config.counters).(enabled := old(f.config.counters.enabled) + n,
                                                        ok := old(f.config.counters.ok) + n)
  {
    var s := f.config.settings;
    ghost var g0 := f.limiter.State().global;
    ghost var d0 := f.limiter.State().descriptors;
    ghost var c0 := f.config.counters;
    statuses := [];
    var k := 0;
    while k < n
      invariant 0 <= k <= n && |statuses| == k
      invariant forall i :: 0 <= i < k ==> statuses[i] == Continue
      invariant f.Valid()
      invariant f.limiter.State() == LimiterState(g0 - k, d0)
      invariant f.config.counters == c0.(enabled := c0.enabled + k, ok := c0.ok + k)
    {
      var hits := RequestHits(s, req);
      UnmatchedUsesGlobal(s.limiter.table, s.limiter.alwaysConsumeDefault, f.limiter.State(), hits);
      var status, h := f.DecodeHeaders(req);
      statuses := statuses + [status];
      k := k + 1;
    }
  }

  /** A bucket of `t` tokens facing one descriptor of weight `w`. */
  lemma WeightedDecision(foo2Max: nat, g: nat, t: nat, w: nat)
    ensures Decide([DescriptorSetting(Foo2, foo2Max)], false, LimiterState(g, [t]), [Hit(Foo2, w)])
         == if w <= t then Outcome(Decision(true, DescriptorBucket(0)), LimiterState(g, [t - w]))
            else Outcome(Decision(false, DescriptorBucket(0)), LimiterState(g, [t]))
  {
    var table := [DescriptorSetting(Foo2, foo2Max)];
    var hits := [Hit(Foo2, w)];
    assert FindDescriptor(table, Foo2) == Some(0);
    if w <= t {
      ScanPay(table, [t], hits, None, 0);
      assert [t][0 := t - w] == [t - w];
    } else {
      ScanRefuse(table, [t], hits, None, 0);
    }
  }

  /** One request through `f` whose single descriptor `foo2=bar2` weighs `w`. */
  method SendWeighted(f: Filter, req: Request, w: nat) returns (status: FilterHeadersStatus)
    requires f.Valid() && f.config.settings.enabled && f.config.settings.enforced
    requires |f.config.settings.limiter.table| == 1 && f.config.settings.limiter.table[0].entries == Foo2
    requires !f.config.settings.limiter.alwaysConsumeDefault
    requires RequestHits(f.config.settings, req) == [Hit(Foo2, w)]
    modifies f, f.config, f.limiter, f.limiter.Repr
    ensures f.Valid()
    ensures var t := old(f.limiter.State().descriptors[0]);
      && status == (if w <= t then Continue else StopIteration)
      && f.limiter.State() == LimiterState(old(f.limiter.State().global), [if w <= t then t - w else t])
  {
    var st := f.limiter.State();
    assert st.descriptors == [st.descriptors[0]];
    assert f.config.settings.limiter.table == [DescriptorSetting(Foo2, f.config.settings.limiter.table[0].maxTokens)];
    WeightedDecision(f.config.settings.limiter.table[0].maxTokens, st.global, st.descriptors[0], w);
    var h;
    status, h := f.DecodeHeaders(req);
  }

  /**
   * A rule on `x-header-name: test_value` against a one-token `foo2=bar2`
   * bucket: requests without the header are admitted by the default bucket;
   * of two with it, the first is admitted and the second refused.
   */
  method UseInlinedRateLimitConfig() returns (unmatched: seq<FilterHeadersStatus>, s1: FilterHeadersStatus, s2: FilterHeadersStatus)
    ensures unmatched == [Continue, Continue, Continue]
    ensures s1 == Continue && s2 == StopIteration
  {
    var rules := [HeaderRule("test_value", DefaultAddend)];
    var config := new FilterConfig(InlinedConfig(1, rules));
    var f := new Filter(config);
    HeaderRuleDescriptor("test_value", DefaultAddend);
    assert RequestHits(config.settings, Request([], None, 0)) == [];
    unmatched := SendUnmatched(f, Request([], None, 0), 3);
    assert RequestHits(config.settings, WithHeaderName("test_value", 0)) == [Hit(Foo2, 1)];
    s1 := SendWeighted(f, WithHeaderName("test_value", 0), 1);
    s2 := SendWeighted(f, WithHeaderName("test_value", 0), 1);
  }

  /** A rule drawing the bytes received for `test_value_1`, and one drawing 5 tokens for `test_value_2`. */
  const AddendRules: seq<LocalRule> := [HeaderRule("test_value_1", BytesReceived), HeaderRule("test_value_2", Number(5))]

  /** The descriptors the addend rules yield: none without the header, else one weighted by its rule. */
  lemma AddendHits()
    ensures RequestHits(InlinedConfig(119, AddendRules), Request([], None, 0)) == []
    ensures RequestHits(InlinedConfig(119, AddendRules), WithHeaderName("test_value_1", 100)) == [Hit(Foo2, 100)]
    ensures RequestHits(InlinedConfig(119, AddendRules), WithHeaderName("test_value_2", 100)) == [Hit(Foo2, 5)]
  {
    AddendRulesOn([], 0);
    AddendRulesOn([Header("x-header-name", "test_value_1")], 100);
    AddendRulesOn([Header("x-header-name", "test_value_2")], 100);
  }

  /** The two addend rules, one after the other, against a request carrying at most `x-header-name`. */
  lemma AddendRulesOn(request: seq<Header>, bytesReceived: nat)
    requires request == [] || (|request| == 1 && request[0].key == "x-header-name")
    ensures LocalHits(AddendRules, request, bytesReceived)
            == (if request != [] && request[0].value == "test_value_1" then [Hit(Foo2, bytesReceived)] else [])
               + (if request != [] && request[0].value == "test_value_2" then [Hit(Foo2, 5)] else [])
  {
    assert AddendRules == [AddendRules[0]] + [AddendRules[1]];
    LocalHitsAppend([AddendRules[0]], [AddendRules[1]], request, bytesReceived);
    RuleOnHeader("test_value_1", BytesReceived, request, bytesReceived);
    RuleOnHeader("test_value_2", Number(5), request, bytesReceived);
  }

  /** A header rule against a request carrying at most `x-header-name`. */
  lemma RuleOnHeader(value: string, addend: HitsAddend, request: seq<Header>, bytesReceived: nat)
    requires request == [] || (|request| == 1 && request[0].key == "x-header-name")
    ensures LocalHits([HeaderRule(value, addend)], request, bytesReceived)
            == if request != [] && request[0].value == value then [Hit(Foo2, Weight(addend, bytesReceived))] else []
  {
    LocalHitsSingle(HeaderRule(value, addend), request, bytesReceived);
    HeaderRuleDescriptor(value, addend);
    if request != [] {
      assert Get(request, "x-header-name") == Some(request[0].value);
    }
  }

  /**
   * Rules with hits addends against a 119-token `foo2=bar2` bucket: 360
   * requests without the header are admitted by the default bucket; then,
   * with 100 bytes received, a `test_value_1` request draws 100 tokens
   * (119 to 19), and `test_value_2` requests draw 5 each (to 14, 9 and 4)
   * until the fourth finds too few and is refused.
   */
  method UseInlinedRateLimitConfigWithCustomHitsAddend()
    returns (unmatched: seq<FilterHeadersStatus>, weighted: seq<FilterHeadersStatus>, remaining: nat)
    ensures |unmatched| == 360 && forall i :: 0 <= i < 360 ==> unmatched[i] == Continue
    ensures weighted == [Continue, Continue, Continue, Continue, StopIteration]
    ensures remaining == 4
  {
    var config := new FilterConfig(InlinedConfig(119, AddendRules));
    var f := new Filter(config);
    AddendHits();
    assert f.limiter.State() == LimiterState(100000, [119]);
    unmatched := SendUnmatched(f, Request([], None, 0), 360);
    weighted, remaining := AddendRequests(f);
  }

  /** The weighted requests, from a full 119-token `foo2=bar2` bucket. */
  method AddendRequests(f: Filter) returns (weighted: seq<FilterHeadersStatus>, remaining: nat)
    requires f.Valid() && f.config.settings == InlinedConfig(119, AddendRules)
    requires f.limiter.State().descriptors == [119]
    modifies f, f.config, f.limiter, f.limiter.Repr
    ensures weighted == [Continue, Continue, Continue, Continue, StopIteration]
    ensures remaining == 4
  {
    AddendHits();
    var first := SendWeighted(f, WithHeaderName("test_value_1", 100), 100);
    assert first == Continue && f.limiter.State().descriptors == [19];
    var req := WithHeaderName("test_value_2", 100);
    var a := SendWeighted(f, req, 5);
    var b := SendWeighted(f, req, 5);
    var c := SendWeighted(f, req, 5);
    var d := SendWeighted(f, req, 5);
    weighted := [first, a, b, c, d];
    remaining := f.limiter.buckets[0].tokens;
  }
}
