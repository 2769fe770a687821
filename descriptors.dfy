/**
 * Descriptors, the descriptor table and the consumption rule that decides
 * one request against a global bucket and the per-descriptor buckets.
 * Everything here works on values: `LimiterState` holds the token counts of
 * the buckets, and `Decide` is the reference definition that the limiter's
 * in-place loop is proved against.
 */
module Descriptors {

  import opened Wrappers
  import opened TokenBuckets

  /** One key/value fact about a request. */
  datatype Entry = Entry(key: string, value: string)

  /** A descriptor is a set of entries: two descriptors are equal when they hold the same pairs. */
  type Descriptor = set<Entry>

  /** A request descriptor with the number of tokens it draws (its hits addend). */
  datatype Hit = Hit(descriptor: Descriptor, weight: nat)

  /** A configured descriptor pattern with the capacity of its own bucket. */
  datatype DescriptorSetting = DescriptorSetting(entries: Descriptor, maxTokens: nat)

  /** Which bucket a decision was taken by. */
  datatype Deciding = DefaultBucket | DescriptorBucket(index: nat)

  datatype Decision = Decision(allowed: bool, deciding: Deciding)

  /** Token counts of the global bucket and of the descriptor buckets, in table order. */
  datatype LimiterState = LimiterState(global: nat, descriptors: seq<nat>)

  datatype Outcome = Outcome(decision: Decision, state: LimiterState)

  /** A request descriptor matches a table entry only when the two sets of pairs are equal. */
  predicate Matches(table: seq<DescriptorSetting>, d: Descriptor)
  {
    exists j :: 0 <= j < |table| && table[j].entries == d
  }

  /** The first table entry whose pattern equals `d`, if any. */
  function FindDescriptor(table: seq<DescriptorSetting>, d: Descriptor): (r: Option<nat>)
    ensures r.Some? ==> r.value < |table| && table[r.value].entries == d
    ensures r.Some? ==> forall j :: 0 <= j < r.value ==> table[j].entries != d
    ensures r.None? <==> !Matches(table, d)
  {
    if table == [] then None
    else if table[0].entries == d then Some(0)
    else match FindDescriptor(table[1..], d)
      case None =>
        assert forall j :: 1 <= j < |table| ==> table[j] == table[1..][j - 1];
        None
      case Some(i) => Some(i + 1)
  }

  /** The capacities of the buckets of a table, all full. */
  function FullState(globalMax: nat, table: seq<DescriptorSetting>): (r: LimiterState)
    ensures r.global == globalMax && |r.descriptors| == |table|
    ensures forall i :: 0 <= i < |table| ==> r.descriptors[i] == table[i].maxTokens
  {
    LimiterState(globalMax, seq(|table|, i requires 0 <= i < |table| => table[i].maxTokens))
  }

  /** Where the walk over the request descriptors ended. */
  datatype Scanned = Scanned(rejectedAt: Option<nat>, firstMatch: Option<nat>, tokens: seq<nat>)

  /**
   * The walk over the request descriptors, in order: an unmatched descriptor
   * is skipped; a matched one draws its weight from its bucket, and the first
   * refusal ends the walk with the tokens already drawn left drawn.
   * `first` is the first matched table index seen so far.
   */
  function Scan(table: seq<DescriptorSetting>, tokens: seq<nat>, hits: seq<Hit>, first: Option<nat>): (r: Scanned)
    requires |tokens| == |table|
    requires first.Some? ==> first.value < |table|
    ensures |r.tokens| == |table|
    ensures r.rejectedAt.Some? ==> r.rejectedAt.value < |table|
    ensures r.firstMatch.Some? ==> r.firstMatch.value < |table|
    decreases |hits|
  {
    if hits == [] then Scanned(None, first, tokens)
    else match FindDescriptor(table, hits[0].descriptor)
      case None => Scan(table, tokens, hits[1..], first)
      case Some(i) =>
        match Take(tokens[i], hits[0].weight)
        case None => Scanned(Some(i), first, tokens)
        case Some(rest) => Scan(table, tokens[i := rest], hits[1..], if first.None? then Some(i) else first)
  }

  /**
   * The decision for one request. A descriptor refusal rejects. Otherwise the
   * global bucket is charged one token when nothing matched or when
   * `always` (always_consume_default_token_bucket) is set, and rejects if it
   * is empty. An admitted request is attributed to the first matched
   * descriptor bucket, or to the global bucket when nothing matched.
   */
  function Decide(table: seq<DescriptorSetting>, always: bool, st: LimiterState, hits: seq<Hit>): (r: Outcome)
    requires |st.descriptors| == |table|
    ensures |r.state.descriptors| == |table|
    ensures r.decision.deciding.DescriptorBucket? ==> r.decision.deciding.index < |table|
  {
    var scan := Scan(table, st.descriptors, hits, None);
    if scan.rejectedAt.Some? then
      Outcome(Decision(false, DescriptorBucket(scan.rejectedAt.value)), LimiterState(st.global, scan.tokens))
    else if scan.firstMatch.None? || always then
      match Take(st.global, 1)
      case Some(rest) =>
        Outcome(Decision(true, if scan.firstMatch.None? then DefaultBucket else DescriptorBucket(scan.firstMatch.value)),
                LimiterState(rest, scan.tokens))
      case None => Outcome(Decision(false, DefaultBucket), LimiterState(st.global, scan.tokens))
    else
      Outcome(Decision(true, DescriptorBucket(scan.firstMatch.value)), LimiterState(st.global, scan.tokens))
  }

  // ---------------------------------------------------------------------
  // Properties of the walk

  /** One step of the walk over an unmatched descriptor. */
  lemma ScanSkip(table: seq<DescriptorSetting>, tokens: seq<nat>, hits: seq<Hit>, first: Option<nat>)
    requires |tokens| == |table|
    requires first.Some? ==> first.value < |table|
    requires hits != [] && FindDescriptor(table, hits[0].descriptor).None?
    ensures Scan(table, tokens, hits, first) == Scan(table, tokens, hits[1..], first)
  {
  }

  /** One step of the walk over a matched descriptor that its bucket can pay. */
  lemma ScanPay(table: seq<DescriptorSetting>, tokens: seq<nat>, hits: seq<Hit>, first: Option<nat>, i: nat)
    requires |tokens| == |table|
    requires first.Some? ==> first.value < |table|
    requires hits != [] && FindDescriptor(table, hits[0].descriptor) == Some(i)
    requires hits[0].weight <= tokens[i]
    ensures Scan(table, tokens, hits, first)
         == Scan(table, tokens[i := tokens[i] - hits[0].weight], hits[1..], if first.None? then Some(i) else first)
  {
  }

  /** One step of the walk over a matched descriptor that its bucket cannot pay. */
  lemma ScanRefuse(table: seq<DescriptorSetting>, tokens: seq<nat>, hits: seq<Hit>, first: Option<nat>, i: nat)
    requires |tokens| == |table|
    requires first.Some? ==> first.value < |table|
    requires hits != [] && FindDescriptor(table, hits[0].descriptor) == Some(i)
    requires tokens[i] < hits[0].weight
    ensures Scan(table, tokens, hits, first) == Scanned(Some(i), first, tokens)
  {
  }

  /** The walk only ever removes tokens. */
  lemma {:induction false} ScanDrains(table: seq<DescriptorSetting>, tokens: seq<nat>, hits: seq<Hit>, first: Option<nat>)
    requires |tokens| == |table|
    requires first.Some? ==> first.value < |table|
    ensures var r := Scan(table, tokens, hits, first);
      forall i :: 0 <= i < |table| ==> r.tokens[i] <= tokens[i]
    decreases |hits|
  {
    if hits != [] {
      match FindDescriptor(table, hits[0].descriptor)
      case None => ScanDrains(table, tokens, hits[1..], first);
      case Some(i) =>
        match Take(tokens[i], hits[0].weight)
        case None =>
        case Some(rest) =>
          var f := if first.None? then Some(i) else first;
          assert Scan(table, tokens, hits, first) == Scan(table, tokens[i := rest], hits[1..], f);
          ScanDrains(table, tokens[i := rest], hits[1..], f);
          assert rest <= tokens[i];
          var r := Scan(table, tokens[i := rest], hits[1..], f);
          forall x | 0 <= x < |table| ensures r.tokens[x] <= tokens[x] {
            assert r.tokens[x] <= tokens[i := rest][x];
          }
    }
  }

  /** A bucket whose pattern no request descriptor equals keeps its tokens. */
  lemma {:induction false} ScanSparesUnmatched(table: seq<DescriptorSetting>, tokens: seq<nat>, hits: seq<Hit>, first: Option<nat>, j: nat)
    requires |tokens| == |table| && j < |table|
    requires first.Some? ==> first.value < |table|
    requires forall k :: 0 <= k < |hits| ==> hits[k].descriptor != table[j].entries
    ensures Scan(table, tokens, hits, first).tokens[j] == tokens[j]
    decreases |hits|
  {
    if hits != [] {
      match FindDescriptor(table, hits[0].descriptor)
      case None => ScanSparesUnmatched(table, tokens, hits[1..], first, j);
      case Some(i) =>
        match Take(tokens[i], hits[0].weight)
        case None =>
        case Some(rest) =>
          ScanSparesUnmatched(table, tokens[i := rest], hits[1..], if first.None? then Some(i) else first, j);
    }
  }

  /** A walk over descriptors none of which matches changes nothing and records nothing. */
  lemma {:induction false} ScanNoMatch(table: seq<DescriptorSetting>, tokens: seq<nat>, hits: seq<Hit>, first: Option<nat>)
    requires |tokens| == |table|
    requires first.Some? ==> first.value < |table|
    requires forall k :: 0 <= k < |hits| ==> !Matches(table, hits[k].descriptor)
    ensures Scan(table, tokens, hits, first) == Scanned(None, first, tokens)
    decreases |hits|
  {
    if hits != [] {
      ScanNoMatch(table, tokens, hits[1..], first);
    }
  }

  /** Once a descriptor has matched, the walk ends either refused or with a first match recorded. */
  lemma {:induction false} ScanRecordsMatch(table: seq<DescriptorSetting>, tokens: seq<nat>, hits: seq<Hit>, first: Option<nat>)
    requires |tokens| == |table|
    requires first.Some? ==> first.value < |table|
    requires first.Some? || exists k :: 0 <= k < |hits| && Matches(table, hits[k].descriptor)
    ensures var r := Scan(table, tokens, hits, first); r.rejectedAt.Some? || r.firstMatch.Some?
    decreases |hits|
  {
    if hits != [] {
      match FindDescriptor(table, hits[0].descriptor)
      case None =>
        if first.None? {
          var k :| 0 <= k < |hits| && Matches(table, hits[k].descriptor);
          assert k != 0;
          assert hits[1..][k - 1] == hits[k];
        }
        ScanRecordsMatch(table, tokens, hits[1..], first);
      case Some(i) =>
        match Take(tokens[i], hits[0].weight)
        case None =>
        case Some(rest) =>
          ScanRecordsMatch(table, tokens[i := rest], hits[1..], if first.None? then Some(i) else first);
    }
  }

  /**
   * A walk refused at bucket `i` was refused by a request descriptor equal to
   * that bucket's pattern whose weight exceeds what the bucket still holds.
   */
  lemma {:induction false} ScanRefusalIsExhaustion(table: seq<DescriptorSetting>, tokens: seq<nat>, hits: seq<Hit>, first: Option<nat>)
    requires |tokens| == |table|
    requires first.Some? ==> first.value < |table|
    ensures var r := Scan(table, tokens, hits, first);
      r.rejectedAt.Some? ==>
        exists k :: 0 <= k < |hits| && hits[k].descriptor == table[r.rejectedAt.value].entries
                    && r.tokens[r.rejectedAt.value] < hits[k].weight
    decreases |hits|
  {
    if hits != [] {
      match FindDescriptor(table, hits[0].descriptor)
      case None =>
        ScanRefusalIsExhaustion(table, tokens, hits[1..], first);
        var r := Scan(table, tokens, hits[1..], first);
        if r.rejectedAt.Some? {
          var k :| 0 <= k < |hits[1..]| && hits[1..][k].descriptor == table[r.rejectedAt.value].entries
                   && r.tokens[r.rejectedAt.value] < hits[1..][k].weight;
          assert hits[k + 1] == hits[1..][k];
        }
      case Some(i) =>
        match Take(tokens[i], hits[0].weight)
        case None =>
        case Some(rest) =>
          var f := if first.None? then Some(i) else first;
          ScanRefusalIsExhaustion(table, tokens[i := rest], hits[1..], f);
          var r := Scan(table, tokens[i := rest], hits[1..], f);
          if r.rejectedAt.Some? {
            var k :| 0 <= k < |hits[1..]| && hits[1..][k].descriptor == table[r.rejectedAt.value].entries
                     && r.tokens[r.rejectedAt.value] < hits[1..][k].weight;
            assert hits[k + 1] == hits[1..][k];
          }
    }
  }

  /**
   * A walk that reaches a matched descriptor asking for more than its bucket
   * holds is refused, at that descriptor or earlier.
   */
  lemma {:induction false} ScanUnpayable(table: seq<DescriptorSetting>, tokens: seq<nat>, hits: seq<Hit>, first: Option<nat>, k: nat, i: nat)
    requires |tokens| == |table|
    requires first.Some? ==> first.value < |table|
    requires k < |hits| && FindDescriptor(table, hits[k].descriptor) == Some(i)
    requires tokens[i] < hits[k].weight
    ensures Scan(table, tokens, hits, first).rejectedAt.Some?
    decreases |hits|
  {
    match FindDescriptor(table, hits[0].descriptor)
    case None =>
      assert hits[1..][k - 1] == hits[k];
      ScanUnpayable(table, tokens, hits[1..], first, k - 1, i);
    case Some(j) =>
      match Take(tokens[j], hits[0].weight)
      case None =>
      case Some(rest) =>
        assert hits[1..][k - 1] == hits[k];
        ScanUnpayable(table, tokens[j := rest], hits[1..], if first.None? then Some(j) else first, k - 1, i);
  }

  /** The tokens that the request descriptors equal to entry `j`'s pattern ask of its bucket, in total. */
  function Drawn(table: seq<DescriptorSetting>, hits: seq<Hit>, j: nat): nat
    decreases |hits|
  {
    if hits == [] then 0
    else (if FindDescriptor(table, hits[0].descriptor) == Some(j) then hits[0].weight else 0) + Drawn(table, hits[1..], j)
  }

  /** A walk that is not refused has drawn from every bucket exactly what its descriptors asked for. */
  lemma {:induction false} ScanPaysAll(table: seq<DescriptorSetting>, tokens: seq<nat>, hits: seq<Hit>, first: Option<nat>, j: nat)
    requires |tokens| == |table| && j < |table|
    requires first.Some? ==> first.value < |table|
    ensures var r := Scan(table, tokens, hits, first);
      r.rejectedAt.None? ==> r.tokens[j] + Drawn(table, hits, j) == tokens[j]
    decreases |hits|
  {
    if hits != [] {
      match FindDescriptor(table, hits[0].descriptor)
      case None => ScanPaysAll(table, tokens, hits[1..], first, j);
      case Some(i) =>
        match Take(tokens[i], hits[0].weight)
        case None =>
        case Some(rest) =>
          ScanPaysAll(table, tokens[i := rest], hits[1..], if first.None? then Some(i) else first, j);
    }
  }

  /**
   * A walk in which every bucket holds at least what the descriptors equal to
   * its pattern ask of it, in total, is never refused.
   */
  lemma {:induction false} ScanPayable(table: seq<DescriptorSetting>, tokens: seq<nat>, hits: seq<Hit>, first: Option<nat>)
    requires |tokens| == |table|
    requires first.Some? ==> first.value < |table|
    requires forall j :: 0 <= j < |table| ==> Drawn(table, hits, j) <= tokens[j]
    ensures Scan(table, tokens, hits, first).rejectedAt.None?
    decreases |hits|
  {
    if hits != [] {
      match FindDescriptor(table, hits[0].descriptor)
      case None =>
        assert forall j :: 0 <= j < |table| ==> Drawn(table, hits[1..], j) == Drawn(table, hits, j);
        ScanPayable(table, tokens, hits[1..], first);
      case Some(i) =>
        assert hits[0].weight + Drawn(table, hits[1..], i) == Drawn(table, hits, i);
        var after := tokens[i := tokens[i] - hits[0].weight];
        forall j | 0 <= j < |table| ensures Drawn(table, hits[1..], j) <= after[j] {
          assert j != i ==> Drawn(table, hits[1..], j) == Drawn(table, hits, j);
        }
        ScanPay(table, tokens, hits, first, i);
        ScanPayable(table, after, hits[1..], if first.None? then Some(i) else first);
    }
  }

  /** The first step of `Drawn` over a prefix of the descriptors. */
  lemma DrawnPrefixCons(table: seq<DescriptorSetting>, hits: seq<Hit>, k: nat, j: nat)
    requires k < |hits|
    ensures Drawn(table, hits[..k + 1], j)
         == (if FindDescriptor(table, hits[0].descriptor) == Some(j) then hits[0].weight else 0)
            + Drawn(table, hits[1..][..k], j)
  {
    assert hits[..k + 1][0] == hits[0];
    assert hits[..k + 1][1..] == hits[1..][..k];
  }

  /**
   * The walk from `tokens` was refused at position `k` by bucket `i`, leaving
   * `left`: descriptor `k` equals bucket `i`'s pattern and asks for more than
   * the bucket still holds, and every bucket has lost exactly what the
   * descriptors before `k` drew from it.
   */
  predicate StopsAt(table: seq<DescriptorSetting>, tokens: seq<nat>, hits: seq<Hit>, k: nat, i: nat, left: seq<nat>)
    requires |tokens| == |table| && |left| == |table| && i < |table|
  {
    && k < |hits| && FindDescriptor(table, hits[k].descriptor) == Some(i)
    && left[i] < hits[k].weight
    && forall j :: 0 <= j < |table| ==> left[j] + Drawn(table, hits[..k], j) == tokens[j]
  }

  /** A refusal at position `k` of the rest of the walk is a refusal at `k + 1` of the whole walk. */
  lemma StopsAtCons(table: seq<DescriptorSetting>, tokens: seq<nat>, after: seq<nat>, hits: seq<Hit>, k: nat, i: nat, left: seq<nat>)
    requires |tokens| == |table| && |after| == |table| && |left| == |table| && i < |table|
    requires hits != []
    requires forall j :: 0 <= j < |table| ==>
      after[j] + (if FindDescriptor(table, hits[0].descriptor) == Some(j) then hits[0].weight else 0) == tokens[j]
    requires StopsAt(table, after, hits[1..], k, i, left)
    ensures StopsAt(table, tokens, hits, k + 1, i, left)
  {
    assert hits[k + 1] == hits[1..][k];
    forall j | 0 <= j < |table| ensures left[j] + Drawn(table, hits[..k + 1], j) == tokens[j] {
      DrawnPrefixCons(table, hits, k, j);
    }
  }

  /**
   * A refused walk stops at the refusing descriptor: it was refused at some
   * position, and nothing after that position draws.
   */
  lemma {:induction false} ScanRefusedPrefix(table: seq<DescriptorSetting>, tokens: seq<nat>, hits: seq<Hit>, first: Option<nat>)
    requires |tokens| == |table|
    requires first.Some? ==> first.value < |table|
    ensures var r := Scan(table, tokens, hits, first);
      r.rejectedAt.Some? ==> exists k :: StopsAt(table, tokens, hits, k, r.rejectedAt.value, r.tokens)
    decreases |hits|
  {
    if hits != [] {
      var r := Scan(table, tokens, hits, first);
      match FindDescriptor(table, hits[0].descriptor)
      case None =>
        ScanRefusedPrefix(table, tokens, hits[1..], first);
        if r.rejectedAt.Some? {
          var k :| StopsAt(table, tokens, hits[1..], k, r.rejectedAt.value, r.tokens);
          StopsAtCons(table, tokens, tokens, hits, k, r.rejectedAt.value, r.tokens);
        }
      case Some(i) =>
        match Take(tokens[i], hits[0].weight)
        case None =>
          assert hits[..0] == [];
          assert StopsAt(table, tokens, hits, 0, i, r.tokens);
        case Some(rest) =>
          var after := tokens[i := rest];
          ScanRefusedPrefix(table, after, hits[1..], if first.None? then Some(i) else first);
          if r.rejectedAt.Some? {
            var k :| StopsAt(table, after, hits[1..], k, r.rejectedAt.value, r.tokens);
            StopsAtCons(table, tokens, after, hits, k, r.rejectedAt.value, r.tokens);
          }
    }
  }

  /** The table index of the first request descriptor that matches, if any. */
  function FirstMatch(table: seq<DescriptorSetting>, hits: seq<Hit>): (r: Option<nat>)
    ensures r.Some? ==> exists k :: 0 <= k < |hits| && FindDescriptor(table, hits[k].descriptor) == r
                                    && forall m :: 0 <= m < k ==> !Matches(table, hits[m].descriptor)
    ensures r.None? <==> forall k :: 0 <= k < |hits| ==> !Matches(table, hits[k].descriptor)
    decreases |hits|
  {
    if hits == [] then None
    else if FindDescriptor(table, hits[0].descriptor).Some? then FindDescriptor(table, hits[0].descriptor)
    else
      var r := FirstMatch(table, hits[1..]);
      assert forall k :: 1 <= k < |hits| ==> hits[k] == hits[1..][k - 1];
      if r.None? then r
      else
        var k :| 0 <= k < |hits[1..]| && FindDescriptor(table, hits[1..][k].descriptor) == r
                 && forall m :: 0 <= m < k ==> !Matches(table, hits[1..][m].descriptor);
        assert hits[k + 1] == hits[1..][k];
        r
  }

  /** A walk that is not refused records the first match of the walk, or the one already seen. */
  lemma {:induction false} ScanFirst(table: seq<DescriptorSetting>, tokens: seq<nat>, hits: seq<Hit>, first: Option<nat>)
    requires |tokens| == |table|
    requires first.Some? ==> first.value < |table|
    ensures var r := Scan(table, tokens, hits, first);
      r.rejectedAt.None? ==> r.firstMatch == if first.Some? then first else FirstMatch(table, hits)
    decreases |hits|
  {
    if hits != [] {
      match FindDescriptor(table, hits[0].descriptor)
      case None => ScanFirst(table, tokens, hits[1..], first);
      case Some(i) =>
        match Take(tokens[i], hits[0].weight)
        case None =>
        case Some(rest) =>
          ScanFirst(table, tokens[i := rest], hits[1..], if first.None? then Some(i) else first);
    }
  }

  // ---------------------------------------------------------------------
  // Properties of the decision

  /** Deciding a request never adds tokens to any bucket, so no bucket ever exceeds its capacity. */
  lemma DecideDrains(table: seq<DescriptorSetting>, always: bool, st: LimiterState, hits: seq<Hit>)
    requires |st.descriptors| == |table|
    ensures var r := Decide(table, always, st, hits);
      r.state.global <= st.global &&
      forall i :: 0 <= i < |table| ==> r.state.descriptors[i] <= st.descriptors[i]
  {
    ScanDrains(table, st.descriptors, hits, None);
  }

  /** Requests that match no descriptor never drain a descriptor bucket. */
  lemma SparesUnmatchedBuckets(table: seq<DescriptorSetting>, always: bool, st: LimiterState, hits: seq<Hit>, j: nat)
    requires |st.descriptors| == |table| && j < |table|
    requires forall k :: 0 <= k < |hits| ==> hits[k].descriptor != table[j].entries
    ensures Decide(table, always, st, hits).state.descriptors[j] == st.descriptors[j]
  {
    ScanSparesUnmatched(table, st.descriptors, hits, None, j);
  }

  /**
   * A request none of whose descriptors matches is decided by the global
   * bucket alone: admitted exactly when it holds a token, which it then loses.
   */
  lemma UnmatchedUsesGlobal(table: seq<DescriptorSetting>, always: bool, st: LimiterState, hits: seq<Hit>)
    requires |st.descriptors| == |table|
    requires forall k :: 0 <= k < |hits| ==> !Matches(table, hits[k].descriptor)
    ensures var r := Decide(table, always, st, hits);
      && r.decision == Decision(1 <= st.global, DefaultBucket)
      && r.state.descriptors == st.descriptors
      && r.state.global == if 1 <= st.global then st.global - 1 else st.global
  {
    ScanNoMatch(table, st.descriptors, hits, None);
  }

  /**
   * With always_consume_default_token_bucket off, a request in which some
   * descriptor matched never touches the global bucket, so an empty global
   * bucket cannot reject it.
   */
  lemma MatchedSparesGlobal(table: seq<DescriptorSetting>, st: LimiterState, hits: seq<Hit>)
    requires |st.descriptors| == |table|
    requires exists k :: 0 <= k < |hits| && Matches(table, hits[k].descriptor)
    ensures var r := Decide(table, false, st, hits);
      r.state.global == st.global && r.decision.deciding.DescriptorBucket?
  {
    ScanRecordsMatch(table, st.descriptors, hits, None);
  }

  /**
   * With always_consume_default_token_bucket on, every admitted request has
   * drawn one token from the global bucket, so an empty global bucket rejects
   * every request.
   */
  lemma AlwaysChargesGlobal(table: seq<DescriptorSetting>, st: LimiterState, hits: seq<Hit>)
    requires |st.descriptors| == |table|
    ensures var r := Decide(table, true, st, hits);
      r.decision.allowed ==> r.state.global + 1 == st.global
  {
  }

  /**
   * A rejection names a bucket that could not pay: the global bucket is empty,
   * or a request descriptor equal to the named pattern asks for more tokens
   * than its bucket holds.
   */
  lemma RejectionIsExhaustion(table: seq<DescriptorSetting>, always: bool, st: LimiterState, hits: seq<Hit>)
    requires |st.descriptors| == |table|
    ensures var r := Decide(table, always, st, hits);
      && (r.decision == Decision(false, DefaultBucket) ==> st.global == 0 && r.state.global == 0)
      && (r.decision.deciding.DescriptorBucket? && !r.decision.allowed ==>
            var i := r.decision.deciding.index;
            exists k :: 0 <= k < |hits| && hits[k].descriptor == table[i].entries
                        && r.state.descriptors[i] < hits[k].weight)
  {
    ScanRefusalIsExhaustion(table, st.descriptors, hits, None);
  }

  /**
   * The global bucket is charged at most once and never by a refused
   * request; a request admitted by the global bucket has taken its token.
   */
  lemma GlobalCharge(table: seq<DescriptorSetting>, always: bool, st: LimiterState, hits: seq<Hit>)
    requires |st.descriptors| == |table|
    ensures var r := Decide(table, always, st, hits);
      && (!r.decision.allowed ==> r.state.global == st.global)
      && (r.decision.allowed && r.decision.deciding.DefaultBucket? ==> r.state.global + 1 == st.global)
      && (r.state.global == st.global || r.state.global + 1 == st.global)
  {
  }

  /**
   * The converse of `RejectionIsExhaustion`: a request with a matched
   * descriptor asking for more tokens than its bucket holds is rejected.
   */
  lemma UnpayableRejects(table: seq<DescriptorSetting>, always: bool, st: LimiterState, hits: seq<Hit>, k: nat, i: nat)
    requires |st.descriptors| == |table|
    requires k < |hits| && FindDescriptor(table, hits[k].descriptor) == Some(i)
    requires st.descriptors[i] < hits[k].weight
    ensures !Decide(table, always, st, hits).decision.allowed
  {
    ScanUnpayable(table, st.descriptors, hits, None, k, i);
  }

  /**
   * Each match consumes its hit weight: after an admitted request, every
   * descriptor bucket has lost exactly the weights of the request
   * descriptors equal to its pattern.
   */
  lemma AdmittedPaysAll(table: seq<DescriptorSetting>, always: bool, st: LimiterState, hits: seq<Hit>, j: nat)
    requires |st.descriptors| == |table| && j < |table|
    ensures var r := Decide(table, always, st, hits);
      r.decision.allowed ==> r.state.descriptors[j] + Drawn(table, hits, j) == st.descriptors[j]
  {
    ScanPaysAll(table, st.descriptors, hits, None, j);
  }

  /**
   * The converse of `AdmittedPaysAll`: a request is admitted when every
   * descriptor bucket holds what its descriptors ask for and, when the global
   * bucket is charged (always_consume_default_token_bucket set, or nothing
   * matched), the global bucket holds a token.
   */
  lemma PayableAdmitted(table: seq<DescriptorSetting>, always: bool, st: LimiterState, hits: seq<Hit>)
    requires |st.descriptors| == |table|
    requires forall j :: 0 <= j < |table| ==> Drawn(table, hits, j) <= st.descriptors[j]
    requires (always || forall k :: 0 <= k < |hits| ==> !Matches(table, hits[k].descriptor)) ==> 1 <= st.global
    ensures Decide(table, always, st, hits).decision.allowed
  {
    ScanPayable(table, st.descriptors, hits, None);
    if exists k :: 0 <= k < |hits| && Matches(table, hits[k].descriptor) {
      ScanRecordsMatch(table, st.descriptors, hits, None);
    }
  }

  /**
   * A request is admitted exactly when its buckets can pay: each descriptor
   * bucket holds the total its descriptors ask for, and the global bucket
   * holds a token whenever it is charged.
   */
  lemma AdmittedIffPayable(table: seq<DescriptorSetting>, always: bool, st: LimiterState, hits: seq<Hit>)
    requires |st.descriptors| == |table|
    ensures Decide(table, always, st, hits).decision.allowed <==>
      && (forall j :: 0 <= j < |table| ==> Drawn(table, hits, j) <= st.descriptors[j])
      && ((always || forall k :: 0 <= k < |hits| ==> !Matches(table, hits[k].descriptor)) ==> 1 <= st.global)
  {
    var r := Decide(table, always, st, hits);
    if r.decision.allowed {
      forall j | 0 <= j < |table| ensures Drawn(table, hits, j) <= st.descriptors[j] {
        AdmittedPaysAll(table, always, st, hits, j);
      }
      if !always && forall k :: 0 <= k < |hits| ==> !Matches(table, hits[k].descriptor) {
        UnmatchedUsesGlobal(table, always, st, hits);
      }
    } else if (forall j :: 0 <= j < |table| ==> Drawn(table, hits, j) <= st.descriptors[j])
           && ((always || forall k :: 0 <= k < |hits| ==> !Matches(table, hits[k].descriptor)) ==> 1 <= st.global) {
      PayableAdmitted(table, always, st, hits);
    }
  }

  /**
   * The token state after a rejection. A descriptor refusal stops at the
   * refusing descriptor: every bucket has lost exactly what the descriptors
   * before it drew, and nothing after it draws. A refusal by the global
   * bucket comes after the walk, which has then drawn every descriptor's
   * weight. Either way the global bucket keeps its tokens.
   */
  lemma RefusedState(table: seq<DescriptorSetting>, always: bool, st: LimiterState, hits: seq<Hit>)
    requires |st.descriptors| == |table|
    ensures var r := Decide(table, always, st, hits);
      && (!r.decision.allowed ==> r.state.global == st.global)
      && (r.decision == Decision(false, DefaultBucket) ==>
            forall j :: 0 <= j < |table| ==> r.state.descriptors[j] + Drawn(table, hits, j) == st.descriptors[j])
      && (!r.decision.allowed && r.decision.deciding.DescriptorBucket? ==>
            exists k :: StopsAt(table, st.descriptors, hits, k, r.decision.deciding.index, r.state.descriptors))
  {
    var r := Decide(table, always, st, hits);
    ScanRefusedPrefix(table, st.descriptors, hits, None);
    if r.decision == Decision(false, DefaultBucket) {
      forall j | 0 <= j < |table| ensures r.state.descriptors[j] + Drawn(table, hits, j) == st.descriptors[j] {
        ScanPaysAll(table, st.descriptors, hits, None, j);
      }
    }
  }

  /**
   * An admitted request is attributed to the bucket of its first matching
   * descriptor, or to the global bucket when none matched.
   */
  lemma AdmittedNamesFirstMatch(table: seq<DescriptorSetting>, always: bool, st: LimiterState, hits: seq<Hit>)
    requires |st.descriptors| == |table|
    ensures var r := Decide(table, always, st, hits);
      r.decision.allowed ==>
        r.decision.deciding == match FirstMatch(table, hits)
                               case None => DefaultBucket
                               case Some(i) => DescriptorBucket(i)
  {
    ScanFirst(table, st.descriptors, hits, None);
  }

  /**
   * Tokens drawn before a refusal stay drawn: when the first descriptor of a
   * request is paid by its bucket, that bucket ends at least its weight lower,
   * whatever the later descriptors decide.
   */
  lemma NoRollback(table: seq<DescriptorSetting>, always: bool, st: LimiterState, hits: seq<Hit>, i: nat)
    requires |st.descriptors| == |table|
    requires hits != [] && FindDescriptor(table, hits[0].descriptor) == Some(i)
    requires hits[0].weight <= st.descriptors[i]
    ensures Decide(table, always, st, hits).state.descriptors[i] + hits[0].weight <= st.descriptors[i]
  {
    DecideTokens(table, always, st, hits);
    WalkAfterPay(table, st.descriptors, hits, i);
  }

  /** A walk whose first descriptor is paid by bucket `i` leaves that bucket at least its weight lower. */
  lemma WalkAfterPay(table: seq<DescriptorSetting>, tokens: seq<nat>, hits: seq<Hit>, i: nat)
    requires |tokens| == |table|
    requires hits != [] && FindDescriptor(table, hits[0].descriptor) == Some(i)
    requires hits[0].weight <= tokens[i]
    ensures Scan(table, tokens, hits, None).tokens[i] + hits[0].weight <= tokens[i]
  {
    var after := tokens[i := tokens[i] - hits[0].weight];
    ScanPay(table, tokens, hits, None, i);
    ScanDrains(table, after, hits[1..], Some(i));
  }

  /** The descriptor buckets after a decision are those the walk left. */
  lemma DecideTokens(table: seq<DescriptorSetting>, always: bool, st: LimiterState, hits: seq<Hit>)
    requires |st.descriptors| == |table|
    ensures Decide(table, always, st, hits).state.descriptors == Scan(table, st.descriptors, hits, None).tokens
  {
  }

  /**
   * With an empty descriptor table the request's descriptors are irrelevant:
   * the decision is the one for a request without descriptors.
   */
  lemma EmptyTableIgnoresHits(always: bool, st: LimiterState, hits: seq<Hit>)
    requires st.descriptors == []
    ensures Decide([], always, st, hits) == Decide([], always, st, [])
  {
    ScanNoMatch([], [], hits, None);
  }
}
