/**
 * Where a request's descriptors come from: the rate-limit policies of the
 * route and of its virtual host, filtered by stage and combined according to
 * `vh_rate_limits`, or the filter configuration's own `rate_limits` rules.
 * The descriptors a policy entry produces for a request are supplied as data.
 */
module Sources {

  import opened Wrappers
  import opened Descriptors
  import opened Headers

  /**
   * One rate-limit policy entry: its stage, its disable key (an entry with a
   * non-empty key is skipped) and the descriptors it produces for the request.
   */
  datatype PolicyEntry = PolicyEntry(stage: nat, disableKey: string, descriptors: seq<Hit>)

  /** The route resolved for a request. */
  datatype Route = Route(
    policy: seq<PolicyEntry>,
    virtualHostPolicy: seq<PolicyEntry>,
    includeVirtualHostRateLimits: bool,
    hasCluster: bool)

  /** How virtual-host policies combine with route policies. */
  datatype VhRateLimits = Override | Include | Ignore

  datatype PolicySource = RoutePolicy | VirtualHostPolicy

  /** A lookup of the applicable entries of a policy for a stage. */
  datatype Query = Query(source: PolicySource, stage: nat)

  /** The descriptors gathered for a request and the policy lookups made to gather them. */
  datatype Resolution = Resolution(hits: seq<Hit>, queries: seq<Query>)

  /** An entry contributes its descriptors when it is of the stage and not disabled. */
  predicate Applies(e: PolicyEntry, stage: nat)
  {
    e.stage == stage && e.disableKey == ""
  }

  /** The descriptors of the applicable entries of a policy, in entry order. */
  function Applicable(policy: seq<PolicyEntry>, stage: nat): (r: seq<Hit>)
    ensures forall h :: h in r ==> exists e :: e in policy && Applies(e, stage) && h in e.descriptors
    ensures forall e, h :: e in policy && Applies(e, stage) && h in e.descriptors ==> h in r
  {
    if policy == [] then []
    else (if Applies(policy[0], stage) then policy[0].descriptors else []) + Applicable(policy[1..], stage)
  }

  /** The entries of a policy contribute in entry order: gathering over two runs of entries concatenates. */
  lemma {:induction false} ApplicableAppend(a: seq<PolicyEntry>, b: seq<PolicyEntry>, stage: nat)
    ensures Applicable(a + b, stage) == Applicable(a, stage) + Applicable(b, stage)
  {
    if a != [] {
      assert (a + b)[1..] == a[1..] + b;
      ApplicableAppend(a[1..], b, stage);
    } else {
      assert a + b == b;
    }
  }

  /** A single entry yields its descriptors exactly when it applies. */
  lemma ApplicableSingle(e: PolicyEntry, stage: nat)
    ensures Applicable([e], stage) == if Applies(e, stage) then e.descriptors else []
  {
    assert [e][1..] == [];
  }

  /** Whether the virtual-host policy is looked up, for a route with a cluster. */
  predicate QueriesVirtualHost(mode: VhRateLimits, route: Route)
  {
    route.includeVirtualHostRateLimits || mode == Include || (mode == Override && route.policy == [])
  }

  /**
   * Gathers the route and virtual-host descriptors. Without a route or
   * without a cluster nothing is looked up. Otherwise the route policy is
   * looked up for the configured stage; the route's include-virtual-host flag
   * forces INCLUDE; IGNORE never looks at the virtual host, INCLUDE always
   * does, and OVERRIDE does only when the route has no policy at all. The
   * route's descriptors come first.
   */
  function Resolve(mode: VhRateLimits, stage: nat, route: Option<Route>): (r: Resolution)
    ensures route.None? || !route.value.hasCluster ==> r == Resolution([], [])
    ensures route.Some? && route.value.hasCluster ==>
      var withVh := QueriesVirtualHost(mode, route.value);
      && r.queries == [Query(RoutePolicy, stage)] + (if withVh then [Query(VirtualHostPolicy, stage)] else [])
      && r.hits == Applicable(route.value.policy, stage)
                   + (if withVh then Applicable(route.value.virtualHostPolicy, stage) else [])
  {
    match route
    case None => Resolution([], [])
    case Some(rt) =>
      if !rt.hasCluster then Resolution([], [])
      else
        var fromRoute := Applicable(rt.policy, stage);
        var fromVh := Applicable(rt.virtualHostPolicy, stage);
        var effective := if rt.includeVirtualHostRateLimits then Include else mode;
        match effective
        case Ignore => Resolution(fromRoute, [Query(RoutePolicy, stage)])
        case Include => Resolution(fromRoute + fromVh, [Query(RoutePolicy, stage), Query(VirtualHostPolicy, stage)])
        case Override =>
          if rt.policy == [] then Resolution(fromVh, [Query(RoutePolicy, stage), Query(VirtualHostPolicy, stage)])
          else Resolution(fromRoute, [Query(RoutePolicy, stage)])
  }

  // -----------------------------------------------------------------------
  // The filter's own `rate_limits` rules

  /** A `header_value_match` action: the descriptor entry it yields when the header has exactly the value. */
  datatype HeaderValueMatch = HeaderValueMatch(descriptorKey: string, descriptorValue: string, headerName: string, exact: string)

  /** How many tokens a rule's descriptor draws. */
  datatype HitsAddend = DefaultAddend | Number(n: nat) | BytesReceived

  datatype LocalRule = LocalRule(actions: seq<HeaderValueMatch>, addend: HitsAddend)

  function Weight(a: HitsAddend, bytesReceived: nat): nat
  {
    match a
    case DefaultAddend => 1
    case Number(n) => n
    case BytesReceived => bytesReceived
  }

  /** Every action of the rule matches the request headers. */
  predicate RuleMatches(rule: LocalRule, request: seq<Header>)
  {
    forall a :: a in rule.actions ==> Get(request, a.headerName) == Some(a.exact)
  }

  /** The descriptor of a rule: the entries of all its actions. */
  function RuleDescriptor(rule: LocalRule): Descriptor
  {
    set a | a in rule.actions :: Entry(a.descriptorKey, a.descriptorValue)
  }

  /** The descriptors the rules produce for a request, in rule order. */
  function LocalHits(rules: seq<LocalRule>, request: seq<Header>, bytesReceived: nat): (r: seq<Hit>)
    ensures |r| <= |rules|
    ensures forall h :: h in r <==> exists rule :: rule in rules && RuleMatches(rule, request)
                                     && h == Hit(RuleDescriptor(rule), Weight(rule.addend, bytesReceived))
  {
    if rules == [] then []
    else
      (if RuleMatches(rules[0], request) then [Hit(RuleDescriptor(rules[0]), Weight(rules[0].addend, bytesReceived))] else [])
      + LocalHits(rules[1..], request, bytesReceived)
  }

  /** The rules contribute in rule order: gathering over two runs of rules concatenates. */
  lemma {:induction false} LocalHitsAppend(a: seq<LocalRule>, b: seq<LocalRule>, request: seq<Header>, bytesReceived: nat)
    ensures LocalHits(a + b, request, bytesReceived) == LocalHits(a, request, bytesReceived) + LocalHits(b, request, bytesReceived)
  {
    if a != [] {
      assert (a + b)[1..] == a[1..] + b;
      LocalHitsAppend(a[1..], b, request, bytesReceived);
    } else {
      assert a + b == b;
    }
  }

  /** A single rule yields one descriptor, weighted by its hits addend, exactly when all its actions match. */
  lemma LocalHitsSingle(rule: LocalRule, request: seq<Header>, bytesReceived: nat)
    ensures LocalHits([rule], request, bytesReceived)
            == if RuleMatches(rule, request) then [Hit(RuleDescriptor(rule), Weight(rule.addend, bytesReceived))] else []
  {
    assert [rule][1..] == [];
  }
}
