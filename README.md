# Envoy HTTP local rate-limit filter — a Dafny model

This project models Envoy's HTTP local rate-limit filter (`envoy.filters.http.local_ratelimit`)
as its test suite pins it down:

- **Token buckets.** A bucket has a capacity (`max_tokens`) and a current token count. A
  consumption of `weight` tokens is admitted, and subtracts the weight, only when enough tokens
  remain.
- **The descriptor table.** There is a global (default) bucket and an ordered list of
  descriptor entries, each with its own bucket.
  - A request descriptor matches an entry only when the two sets of key/value pairs are equal.
  - Matched descriptors draw their hits addend from their buckets, in request order. The first
    refusal rejects the request, and tokens already drawn stay drawn.
  - The global bucket is charged one token when nothing matched, or when
    `always_consume_default_token_bucket` is set.
- **Descriptor sources.**
  - The route's rate-limit policy is looked up for the configured `stage`.
  - Whether the virtual host's policy is looked up too depends on `vh_rate_limits`
    (OVERRIDE, INCLUDE, IGNORE), on whether the route has a policy, and on the route's
    include-virtual-host flag.
  - With no route, or no cluster, no descriptors are gathered.
  - The filter's own `rate_limits` rules (`header_value_match` actions with a hits addend) take
    the place of the route policies.
- **The filter.**
  - The `filter_enabled` and `filter_enforced` gates are given booleans.
  - The filter keeps four counters: enabled, enforced, ok and rate_limited.
  - The request-header phase returns Continue or StopIteration.
  - An enforced rejection sends a local reply: 429 Too Many Requests (section 4 of RFC 6585),
    optionally with gRPC status RESOURCE_EXHAUSTED, and the configured response headers.
  - A rejection that is not enforced adds the configured request headers instead.
  - The response-header phase can add `x-ratelimit-limit` and `x-ratelimit-remaining`
    (draft-ietf-httpapi-ratelimit-headers-03), taken from the bucket that decided the request.
- **Bucket ownership.** With `local_rate_limit_per_downstream_connection`, each filter instance
  (one per downstream connection) builds its own limiter. Otherwise every filter built from a
  configuration uses that configuration's single limiter object.

## Layout

- `wrappers.dfy`: `Option`.
- `token_bucket.dfy` (module `TokenBuckets`):
  - the bucket rule `Take`;
  - the `TokenBucket` class, updated in place;
  - `Admissions`, the admissions of a run of consumptions.
- `descriptors.dfy` (module `Descriptors`):
  - descriptors and the table;
  - `Scan`, the walk over the request descriptors;
  - `Decide`, the decision for one request, as a reference function on token counts;
  - their properties.
- `limiter.dfy` (module `Limiters`): the `Limiter` class.
  - It holds a global bucket and one bucket object per table entry.
  - `RequestAllowed` walks the descriptors with a loop, updates the buckets in place, and is
    proved to do exactly what `Decide` says.
- `sources.dfy` (module `Sources`):
  - route and virtual-host policy selection (`Resolve`);
  - the filter's own rules (`LocalHits`).
- `headers.dfy` (module `Headers`):
  - header lists;
  - the configured header mutations;
  - the decimal rendering of the x-ratelimit values.
- `filter.dfy` (module `LocalRateLimit`):
  - the reference function `Serve` for one request;
  - the `FilterConfig` class, which holds the counters and the shared limiter;
  - the `Filter` class, with `DecodeHeaders` and `EncodeHeaders`.
- `scenarios.dfy` (module `Scenarios`): the request sequences of the test suite. Each one runs
  through the classes or through `Serve`, with the outcome the suite asserts.

## Model

All source paths are in `test/extensions/filters/http/local_ratelimit/`. The file
`filter_test.cc` is the only source of this model, so where its assertions leave a choice open the model makes one, listed under "Left out"; the filter's implementation
(`local_ratelimit.h`, included at line 4) is not part of this model.

| member | source | states |
|---|---|---|
| TokenBuckets.Take | test/extensions/filters/http/local_ratelimit/filter_test.cc:1030-1053 | A consumption is admitted exactly when the weight does not exceed the tokens held, and then leaves exactly `tokens - weight` |
| TokenBuckets.TokenBucket.constructor | test/extensions/filters/http/local_ratelimit/filter_test.cc:21-27 | A new bucket is full: its token count equals its capacity |
| TokenBuckets.TokenBucket.Consume | test/extensions/filters/http/local_ratelimit/filter_test.cc:1030-1053 | Test-and-decrement in place: admitted iff enough tokens remain; the count drops by the weight on admission and is unchanged on refusal; never exceeds capacity |
| TokenBuckets.Admissions | test/extensions/filters/http/local_ratelimit/filter_test.cc:297-302 | One admission verdict per consumption in a run against one bucket |
| TokenBuckets.EmptyBucketRefuses | test/extensions/filters/http/local_ratelimit/filter_test.cc:309-323 | A capacity-0 bucket refuses every consumption of at least one token |
| TokenBuckets.UnitDrain | test/extensions/filters/http/local_ratelimit/filter_test.cc:161-170 | Unit consumptions against `n` tokens: exactly the first `n` are admitted and every later one refused |
| Descriptors.FindDescriptor | test/extensions/filters/http/local_ratelimit/filter_test.cc:672-686 | The first table entry whose pattern equals the descriptor as a set; none exactly when no entry equals it |
| Descriptors.FullState | test/extensions/filters/http/local_ratelimit/filter_test.cc:360-402 | A new limiter holds the global capacity and each entry's capacity, in table order |
| Descriptors.Scan | test/extensions/filters/http/local_ratelimit/filter_test.cc:752-767 | The walk over the request descriptors in request order (the model's draw order, see Left out): it keeps one count per table entry and only ever names existing entries; a refused walk stops at the refusing descriptor (`ScanRefusedPrefix`), an unrefused one draws every matched weight (`ScanPaysAll`) and records the first match (`ScanFirst`) |
| Descriptors.Decide | test/extensions/filters/http/local_ratelimit/filter_test.cc:640-767 | The decision for one request: it keeps one count per table entry and names only an existing bucket. Admitted exactly when its buckets can pay (`AdmittedIffPayable`), attributed to the first matching descriptor (`AdmittedNamesFirstMatch`), and the state after a refusal is pinned by `RefusedState`; `Limiters.Limiter.RequestAllowed` is proved equal to it |
| Descriptors.ScanDrains | test/extensions/filters/http/local_ratelimit/filter_test.cc:752-767 | The walk over request descriptors never adds tokens to any descriptor bucket |
| Descriptors.ScanSparesUnmatched | test/extensions/filters/http/local_ratelimit/filter_test.cc:999-1015 | A bucket whose pattern no request descriptor equals keeps its tokens through the walk |
| Descriptors.ScanNoMatch | test/extensions/filters/http/local_ratelimit/filter_test.cc:672-686 | A walk over descriptors none of which matches changes nothing and records no match |
| Descriptors.ScanRecordsMatch | test/extensions/filters/http/local_ratelimit/filter_test.cc:640-654 | Once any descriptor matches, the walk ends refused or with a first match recorded |
| Descriptors.ScanRefusalIsExhaustion | test/extensions/filters/http/local_ratelimit/filter_test.cc:656-670 | A walk refused at bucket `i` met a descriptor equal to that bucket's pattern whose weight exceeds what the bucket holds |
| Descriptors.ScanUnpayable | test/extensions/filters/http/local_ratelimit/filter_test.cc:656-670 | A walk that reaches a matched descriptor asking for more than its bucket holds is refused |
| Descriptors.ScanPaysAll | test/extensions/filters/http/local_ratelimit/filter_test.cc:1030-1053 | A walk that is not refused has drawn from each bucket exactly the summed weights of the descriptors equal to its pattern |
| Descriptors.ScanPayable | test/extensions/filters/http/local_ratelimit/filter_test.cc:1030-1053 | A walk in which every bucket holds at least the summed weights of the descriptors equal to its pattern is never refused |
| Descriptors.ScanRefusedPrefix | test/extensions/filters/http/local_ratelimit/filter_test.cc:752-767 | A refused walk was refused at some position by a descriptor equal to the refusing bucket's pattern that asked for more than it still held; every bucket lost exactly what the descriptors before that position drew, and nothing after it draws |
| Descriptors.FirstMatch | test/extensions/filters/http/local_ratelimit/filter_test.cc:640-654 | The table index of the first request descriptor that matches some entry; none exactly when no descriptor matches |
| Descriptors.ScanFirst | test/extensions/filters/http/local_ratelimit/filter_test.cc:640-654 | An unrefused walk records the match already seen, or else the first match of its descriptors |
| Descriptors.DecideDrains | test/extensions/filters/http/local_ratelimit/filter_test.cc:1030-1053 | Deciding a request never raises the global or any descriptor token count |
| Descriptors.SparesUnmatchedBuckets | test/extensions/filters/http/local_ratelimit/filter_test.cc:999-1028 | Requests that match no descriptor never drain that descriptor's bucket |
| Descriptors.UnmatchedUsesGlobal | test/extensions/filters/http/local_ratelimit/filter_test.cc:672-686 | A request with no matching descriptor is decided by the global bucket alone: admitted iff it holds a token, which it then loses; descriptor buckets untouched |
| Descriptors.MatchedSparesGlobal | test/extensions/filters/http/local_ratelimit/filter_test.cc:720-735 | With always-consume-default off, a request with a matching descriptor never touches the global bucket and is decided by a descriptor bucket |
| Descriptors.AlwaysChargesGlobal | test/extensions/filters/http/local_ratelimit/filter_test.cc:704-719 | With always-consume-default on, every admitted request has drawn exactly one global token |
| Descriptors.RejectionIsExhaustion | test/extensions/filters/http/local_ratelimit/filter_test.cc:656-767 | A rejection by the global bucket means it was empty; a rejection by descriptor bucket `i` means a descriptor equal to its pattern asked for more than the bucket held after the walk's earlier draws |
| Descriptors.UnpayableRejects | test/extensions/filters/http/local_ratelimit/filter_test.cc:656-670 | Converse of the above: a matched descriptor asking for more tokens than its bucket holds makes the request rejected |
| Descriptors.AdmittedPaysAll | test/extensions/filters/http/local_ratelimit/filter_test.cc:1030-1053 | Each match consumes its hit weight: after an admitted request each descriptor bucket has lost exactly the summed weights of the descriptors equal to its pattern |
| Descriptors.PayableAdmitted | test/extensions/filters/http/local_ratelimit/filter_test.cc:640-654 | A request whose descriptor buckets each hold the summed weights asked of them, and whose global bucket holds a token whenever it is charged, is admitted |
| Descriptors.AdmittedIffPayable | test/extensions/filters/http/local_ratelimit/filter_test.cc:640-767 | A request is admitted if and only if every descriptor bucket holds the summed weights asked of it and, when the global bucket is charged (always-consume set or nothing matched), it holds a token |
| Descriptors.RefusedState | test/extensions/filters/http/local_ratelimit/filter_test.cc:656-767 | After a rejection the global bucket keeps its tokens; a global refusal follows a walk that drew every weight; a descriptor refusal stops at the refusing descriptor, with only the earlier descriptors drawn |
| Descriptors.AdmittedNamesFirstMatch | test/extensions/filters/http/local_ratelimit/filter_test.cc:640-654 | An admitted request is attributed to the bucket of its first matching descriptor, or to the global bucket when nothing matched |
| Descriptors.GlobalCharge | test/extensions/filters/http/local_ratelimit/filter_test.cc:688-750 | The global bucket loses at most one token, none on a refusal, and exactly one when it is the bucket that admits the request |
| Descriptors.NoRollback | test/extensions/filters/http/local_ratelimit/filter_test.cc:752-767 | Tokens drawn by a paid first descriptor stay drawn, whatever later descriptors decide (the absence of a refund is the model's choice, see Left out) |
| Descriptors.EmptyTableIgnoresHits | test/extensions/filters/http/local_ratelimit/filter_test.cc:161-181 | With no descriptor table, a request's descriptors do not affect its decision |
| Limiters.Limiter.constructor | test/extensions/filters/http/local_ratelimit/filter_test.cc:103-110 | Fresh, distinct bucket objects, all full |
| Limiters.Limiter.Charge | test/extensions/filters/http/local_ratelimit/filter_test.cc:1030-1053 | Draws from one descriptor bucket as `Take` says and leaves every other bucket, the global one included, as it was |
| Limiters.Limiter.Visit | test/extensions/filters/http/local_ratelimit/filter_test.cc:752-767 | One descriptor of the walk: the in-place buckets follow `Scan` for one step |
| Limiters.Limiter.Walk | test/extensions/filters/http/local_ratelimit/filter_test.cc:752-767 | The in-place loop over the request descriptors ends in exactly the state, refusal and first match `Scan` gives |
| Limiters.Limiter.RequestAllowed | test/extensions/filters/http/local_ratelimit/filter_test.cc:640-767 | Admission, new token counts and deciding bucket are exactly those of `Decide` |
| Sources.Applicable | test/extensions/filters/http/local_ratelimit/filter_test.cc:625-638 | A descriptor is gathered iff some entry of the policy has the stage, has no disable key, and yields it |
| Sources.ApplicableAppend | test/extensions/filters/http/local_ratelimit/filter_test.cc:829-997 | Policy entries contribute in entry order: gathering over two runs of entries concatenates their descriptors |
| Sources.ApplicableSingle | test/extensions/filters/http/local_ratelimit/filter_test.cc:625-638 | A single entry yields its descriptors exactly when it has the stage and no disable key |
| Sources.Resolve | test/extensions/filters/http/local_ratelimit/filter_test.cc:829-997 | No route or no cluster: nothing is looked up. Otherwise the route policy is looked up for the stage, then the virtual-host policy exactly when the include flag is set, or under INCLUDE, or under OVERRIDE with an empty route policy. Route descriptors come first |
| Sources.LocalHits | test/extensions/filters/http/local_ratelimit/filter_test.cc:429-486 | A descriptor is produced iff some rule's actions all match the request headers exactly; its entries are the actions' and its weight is the rule's hits addend; no more descriptors than rules |
| Sources.LocalHitsAppend | test/extensions/filters/http/local_ratelimit/filter_test.cc:466-486 | Rules contribute in rule order: gathering over two runs of rules concatenates their descriptors |
| Sources.LocalHitsSingle | test/extensions/filters/http/local_ratelimit/filter_test.cc:466-486 | A single rule yields exactly one descriptor, weighted by its hits addend, when all its actions match, and none otherwise |
| Headers.Get | test/extensions/filters/http/local_ratelimit/filter_test.cc:200-206 | The value of the first header with the key (no earlier header has it), present exactly when some header has that key |
| Headers.Remove | test/extensions/filters/http/local_ratelimit/filter_test.cc:38-42 | Keeps exactly the headers of other keys |
| Headers.SetHeader | test/extensions/filters/http/local_ratelimit/filter_test.cc:38-42 | OVERWRITE_IF_EXISTS_OR_ADD: the key then reads the new value, and every other key reads as before |
| Headers.AddHeader | test/extensions/filters/http/local_ratelimit/filter_test.cc:43-45 | APPEND_IF_EXISTS_OR_ADD: an existing first value keeps precedence, otherwise the key reads the new value; other keys read as before |
| Headers.Format | test/extensions/filters/http/local_ratelimit/filter_test.cc:43-45 | A literal renders as itself; `%REQ(name)%` renders as the request header's first value, or as empty when the request lacks it |
| Headers.FormatAll | test/extensions/filters/http/local_ratelimit/filter_test.cc:43-45 | Each mutation keeps its key and action, and its value is the literal or the request header named by `%REQ(...)%` |
| Headers.ApplyEditsGet | test/extensions/filters/http/local_ratelimit/filter_test.cc:196-206 | After the edits, a key no edit names reads as before, and the last overwriting edit of a key decides its value |
| Headers.DecimalRoundTrip | test/extensions/filters/http/local_ratelimit/filter_test.cc:330-337 | The rendered decimal value reads back as the number |
| LocalRateLimit.RequestHits | test/extensions/filters/http/local_ratelimit/filter_test.cc:603-638 | Without a descriptor table no descriptors are gathered; with the configuration's own rules, no more descriptors than rules |
| LocalRateLimit.RequestHitsSources | test/extensions/filters/http/local_ratelimit/filter_test.cc:999-1055 | With the configuration's own rules the descriptors depend only on the request headers and bytes received, never on the route; without them only on the route, through `Resolve` |
| LocalRateLimit.Rejection | test/extensions/filters/http/local_ratelimit/filter_test.cc:183-264 | Code 429, body and details `local_rate_limited`, the configured response headers formatted against the request, and gRPC RESOURCE_EXHAUSTED exactly when configured |
| LocalRateLimit.Conclude | test/extensions/filters/http/local_ratelimit/filter_test.cc:161-323 | Enabled counts every checked request. ok counts admissions and rate_limited refusals. enforced counts enforced refusals. It stops iff refused and enforced, and then sends exactly one reply. An unenforced refusal carries the not-enforced headers. Consistent counters stay consistent |
| LocalRateLimit.WithRateLimitHeaders | test/extensions/filters/http/local_ratelimit/filter_test.cc:325-344 | The limit and remaining headers read the two decimal values and every other header is unchanged |
| LocalRateLimit.Serve | test/extensions/filters/http/local_ratelimit/filter_test.cc:145-323 | The request-header phase of one request on values: it keeps one count per table entry and names only an existing bucket; its behaviour is stated by `ServeInvariants`, and `Filter.DecodeHeaders` is proved equal to it |
| LocalRateLimit.ServeInvariants | test/extensions/filters/http/local_ratelimit/filter_test.cc:145-323 | A disabled filter changes nothing and continues; an enabled one stops iff the limiter refuses and rejections are enforced; no bucket gains tokens; counters stay consistent |
| LocalRateLimit.FilterConfig.constructor | test/extensions/filters/http/local_ratelimit/filter_test.cc:103-104 | Zero counters and one fresh, full shared limiter |
| LocalRateLimit.Filter.constructor | test/extensions/filters/http/local_ratelimit/filter_test.cc:105-110 | A filter uses the configuration's shared limiter, or with per-connection buckets a fresh full limiter of its own; nothing decided yet |
| LocalRateLimit.Filter.Check | test/extensions/filters/http/local_ratelimit/filter_test.cc:272-307 | Decides against this filter's limiter as `Decide` says, remembers the deciding bucket, and leaves the shared limiter alone when buckets are per connection |
| LocalRateLimit.Filter.DecodeHeaders | test/extensions/filters/http/local_ratelimit/filter_test.cc:145-323 | Status, headers, counters, token counts and the reply sent are exactly those of `Serve`; the deciding bucket is remembered; other connections' buckets are untouched |
| LocalRateLimit.Filter.Record | test/extensions/filters/http/local_ratelimit/filter_test.cc:183-222 | Stores the counters and records the local reply, if any, without touching any bucket |
| LocalRateLimit.Filter.EncodeHeaders | test/extensions/filters/http/local_ratelimit/filter_test.cc:325-358 | Always continues. With draft-03 headers on and a request decided, limit = capacity and remaining = tokens of the deciding bucket; otherwise the response is unchanged |
| Scenarios.OneTokenSteps | test/extensions/filters/http/local_ratelimit/filter_test.cc:161-170 | On one token: the first request continues and counts ok, the next stops and counts enforced and rate-limited |
| Scenarios.Disabled | test/extensions/filters/http/local_ratelimit/filter_test.cc:145-151 | A disabled filter continues and all counters stay 0 |
| Scenarios.NoEnforced | test/extensions/filters/http/local_ratelimit/filter_test.cc:153-159 | Enabled without enforcement: continues, enabled 1, enforced 0 |
| Scenarios.RequestOk | test/extensions/filters/http/local_ratelimit/filter_test.cc:161-170 | Shared one-token bucket across two filters: Continue then StopIteration; counters 2/1/1/1 |
| Scenarios.RequestOkPerConnection | test/extensions/filters/http/local_ratelimit/filter_test.cc:172-181 | Per-connection buckets: both connections' first requests continue; ok 2, rate-limited 0 |
| Scenarios.NewConnectionRequest | test/extensions/filters/http/local_ratelimit/filter_test.cc:172-181 | A new connection's first request on its own one-token bucket continues and counts ok |
| Scenarios.RejectionSteps | test/extensions/filters/http/local_ratelimit/filter_test.cc:183-264 | The second request on one token stops with exactly the configured reply |
| Scenarios.RequestRateLimited | test/extensions/filters/http/local_ratelimit/filter_test.cc:183-222 | Continue then StopIteration; counters 2/1/1/1; the reply is 429 `local_rate_limited` with no gRPC status, and its headers carry `x-test-rate-limit: true` and `test-resp-req-id: 123` |
| Scenarios.RequestRateLimitedResourceExhausted | test/extensions/filters/http/local_ratelimit/filter_test.cc:224-264 | As above, with gRPC status RESOURCE_EXHAUSTED (8) |
| Scenarios.ReplyHeadersOnStatus | test/extensions/filters/http/local_ratelimit/filter_test.cc:196-206 | The reply's header edits applied to `:status: 200` give `x-test-rate-limit: true` and `test-resp-req-id: 123` |
| Scenarios.RequestRateLimitedPerConnection | test/extensions/filters/http/local_ratelimit/filter_test.cc:272-307 | Two requests on each of two connections: Continue, Stop, Continue, Stop; counters 4/2/2/2 |
| Scenarios.TwoOnOneToken | test/extensions/filters/http/local_ratelimit/filter_test.cc:296-302 | On a connection's own one-token bucket: one request continues, the next stops |
| Scenarios.RequestRateLimitedButNotEnforced | test/extensions/filters/http/local_ratelimit/filter_test.cc:309-323 | The refused request continues with `x-local-ratelimited: true`, no reply; enabled 1, enforced 0, rate-limited 1 |
| Scenarios.NotEnforcedStep | test/extensions/filters/http/local_ratelimit/filter_test.cc:309-323 | The same request through `Serve` |
| Scenarios.RequestRateLimitedXRateLimitHeaders | test/extensions/filters/http/local_ratelimit/filter_test.cc:325-344 | Both responses carry limit "1" and remaining "0"; Continue then StopIteration; counters 2/1/1/1 |
| Scenarios.DraftExchange | test/extensions/filters/http/local_ratelimit/filter_test.cc:330-341 | One request and response on the shared one-token bucket: the bucket ends empty and the response reads "1"/"0" whether or not the request passed |
| Scenarios.DraftResponse | test/extensions/filters/http/local_ratelimit/filter_test.cc:332-334 | After an empty one-token default bucket decided, the response reads "1"/"0" |
| Scenarios.XRateLimitHeadersWithoutDecode | test/extensions/filters/http/local_ratelimit/filter_test.cc:346-358 | Without a decoded request, neither response gets the x-ratelimit headers |
| Scenarios.TableLookups | test/extensions/filters/http/local_ratelimit/filter_test.cc:586-593 | `hello=world,foo=bar` is entry 0, `foo2=bar2` entry 1, and `foo=bar` alone matches no entry |
| Scenarios.NoRouteEntry | test/extensions/filters/http/local_ratelimit/filter_test.cc:603-611 | A route without rate-limit entries: the request continues on the default token, ok 1, descriptor buckets full; a request with no route at all is served identically |
| Scenarios.NoCluster | test/extensions/filters/http/local_ratelimit/filter_test.cc:613-623 | No cluster: no descriptors gathered even with a route policy; continues on the default token |
| Scenarios.DisabledInRoute | test/extensions/filters/http/local_ratelimit/filter_test.cc:625-638 | A route entry with a disable key contributes nothing; the descriptor bucket stays full |
| Scenarios.RouteDescriptorRequestOk | test/extensions/filters/http/local_ratelimit/filter_test.cc:640-654 | A matching descriptor draws its own bucket and not the default one; continues with ok 1 |
| Scenarios.RouteDescriptorRequestRatelimited | test/extensions/filters/http/local_ratelimit/filter_test.cc:656-670 | A matching descriptor with an empty bucket is refused by that bucket; stops, enforced 1 |
| Scenarios.RouteDescriptorNotFound | test/extensions/filters/http/local_ratelimit/filter_test.cc:672-686 | `foo=bar` alone falls through to the default bucket; continues, rate-limited 0 |
| Scenarios.ConsumeDefaultToken | test/extensions/filters/http/local_ratelimit/filter_test.cc:688-750 | Empty default bucket: an unlisted descriptor is refused under either setting; a listed one is refused exactly when always-consume-default is on, keeping its drawn token drawn |
| Scenarios.ConsumeFound | test/extensions/filters/http/local_ratelimit/filter_test.cc:704-735 | A listed descriptor against an empty default bucket, for both settings |
| Scenarios.ConsumeNotFound | test/extensions/filters/http/local_ratelimit/filter_test.cc:688-703 | An unlisted descriptor against an empty default bucket stops, for both settings |
| Scenarios.RouteDescriptorBothMatch | test/extensions/filters/http/local_ratelimit/filter_test.cc:752-767 | Two listed descriptors, the second with an empty bucket: StopIteration with enabled, enforced and rate-limited at 1, as asserted; the token state `[9, 0]` (first token kept drawn) follows the model's draw order and no-refund rule |
| Scenarios.RouteDescriptorWithStageConfig | test/extensions/filters/http/local_ratelimit/filter_test.cc:769-783 | Route entries of the configured stage 1 are looked up and applied |
| Scenarios.RouteDescriptorRequestRatelimitedXRateLimitHeaders | test/extensions/filters/http/local_ratelimit/filter_test.cc:785-805 | The refused request stops, and the response reports limit "0" and remaining "0" from the refusing descriptor bucket |
| Scenarios.RouteDescriptorRequestRatelimitedWithoutXRateLimitHeaders | test/extensions/filters/http/local_ratelimit/filter_test.cc:807-827 | With the headers off the refused request's response has neither header |
| Scenarios.Foo2Admitted | test/extensions/filters/http/local_ratelimit/filter_test.cc:829-997 | Whatever the mode, a request gathering only `foo2=bar2` takes that bucket's token and continues |
| Scenarios.OverrideWithRouteRateLimitSet | test/extensions/filters/http/local_ratelimit/filter_test.cc:829-871 | OVERRIDE with a route policy: only the route policy is looked up; continues |
| Scenarios.OverrideWithoutRouteRateLimit | test/extensions/filters/http/local_ratelimit/filter_test.cc:875-894 | OVERRIDE with no route policy: the virtual-host policy is looked up; continues |
| Scenarios.IncludeWithOnlyVirtualHostRateLimitSet | test/extensions/filters/http/local_ratelimit/filter_test.cc:898-914 | INCLUDE: both policies are looked up; continues |
| Scenarios.IncludeWithRouteAndVirtualHostRateLimitSet | test/extensions/filters/http/local_ratelimit/filter_test.cc:918-937 | INCLUDE with both set: both are looked up and the route's descriptors come first |
| Scenarios.IgnoreWithRouteRateLimitSet | test/extensions/filters/http/local_ratelimit/filter_test.cc:941-959 | IGNORE: the virtual host is never looked up; continues |
| Scenarios.IgnoreWithoutRouteRateLimit | test/extensions/filters/http/local_ratelimit/filter_test.cc:963-978 | IGNORE with a route entry that yields nothing: no descriptors, decided by the default bucket |
| Scenarios.IncludeVirtualHostRateLimitsSetTrue | test/extensions/filters/http/local_ratelimit/filter_test.cc:981-997 | The route's include flag forces the virtual-host lookup under IGNORE |
| Scenarios.SendUnmatched | test/extensions/filters/http/local_ratelimit/filter_test.cc:1024-1028 | `n` requests matching no descriptor all continue, each taking one default token; descriptor buckets untouched |
| Scenarios.SendWeighted | test/extensions/filters/http/local_ratelimit/filter_test.cc:1030-1053 | A request with one `foo2=bar2` descriptor of weight `w` passes iff the bucket holds `w`, and then draws `w` |
| Scenarios.UseInlinedRateLimitConfig | test/extensions/filters/http/local_ratelimit/filter_test.cc:999-1015 | Three unmatched requests continue; with the header, one continues and the next stops |
| Scenarios.AddendHits | test/extensions/filters/http/local_ratelimit/filter_test.cc:466-486 | No header gives no descriptor; `test_value_1` weighs the bytes received; `test_value_2` weighs 5 |
| Scenarios.AddendRulesOn | test/extensions/filters/http/local_ratelimit/filter_test.cc:466-486 | The two addend rules in order: `test_value_1` yields one descriptor weighing the bytes received, `test_value_2` one weighing 5, anything else none |
| Scenarios.UseInlinedRateLimitConfigWithCustomHitsAddend | test/extensions/filters/http/local_ratelimit/filter_test.cc:1017-1055 | 360 unmatched requests continue; then 119 → 19 → 14 → 9 → 4, and the next weight-5 request stops, leaving 4 |
| Scenarios.AddendRequests | test/extensions/filters/http/local_ratelimit/filter_test.cc:1030-1053 | The weighted requests from a full 119-token bucket: Continue ×4 then StopIteration, 4 tokens left |

## Left out

- Token refill: the fill interval and tokens per fill are not modelled, so buckets only drain. No sequence modelled lets time pass.
- Configuration parsing (YAML, placeholder substitution): settings are a plain record.
- Runtime feature-gate percentages: `filter_enabled` and `filter_enforced` are given booleans.
- Stats registry and counter lookup by name: the four counters are plain fields of the configuration.
- The `Runtime` accessor and the `toErrorCode` mapping (filter_test.cc:135-143): they hold no rate-limit logic.
- Cross-thread sharing: shared versus per-connection buckets are one aliased object versus separate objects, in sequential code.
- Header formatting beyond literals and `%REQ(name)%`: `%BYTES_RECEIVED%` is the request's given byte count, used as a hits addend.
- `header_value_match` beyond exact string matching.
- Route-policy actions (`populateDescriptors`): each policy entry carries the descriptors it yields as data.
- The stream's local-reply transport: the reply is recorded on the filter.
- The x-ratelimit-reset header: the tests never assert it.
- Scenarios.IncludeWithRouteAndVirtualHostRateLimitSet: states only the lookups and the gathered descriptors, not the test's Continue. The model appends the route's `foo2=bar2` and the virtual host's `foo2=bar2`, and two hits on a one-token bucket are refused. The test's Continue relies on its mock overwriting the descriptor vector rather than appending.
- The enforced counter counts enforced rejections only; admitted requests are never counted as enforced (filter_test.cc:161-170 expects 1 after one admitted and one refused request).
- Route-policy emptiness is derived from the route's entries (of any stage); it is not an independent input.
- Draw order and refunds: the model draws matched descriptors in request order and never returns tokens drawn before a refusal. filter_test.cc:752-767 asserts only the status and counters of such a request, so this order and the absence of a refund are the model's choice; Descriptors.NoRollback and the token state of Scenarios.RouteDescriptorBothMatch rest on it.
- Header-name case: Envoy header names are case-insensitive; the model compares keys exactly and assumes they are already lower-case.
- LocalRateLimit.WithRateLimitHeaders and LocalRateLimit.Filter.EncodeHeaders overwrite `x-ratelimit-limit` and `x-ratelimit-remaining` rather than appending them: filter_test.cc:337-339 cannot tell the two apart, so overwriting is the model's choice.
- TokenBuckets.EmptyBucketRefuses: a capacity-0 bucket is shown to refuse only consumptions of weight at least 1; a weight of 0 is admitted by the bucket rule.
