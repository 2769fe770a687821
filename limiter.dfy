/**
 * The rate limiter: a global bucket and one bucket per configured descriptor,
 * held as objects whose token counts are updated in place. One limiter is
 * either shared by every filter built from a configuration or owned by a
 * single downstream connection.
 */
module Limiters {

  import opened Wrappers
  import opened TokenBuckets
  import opened Descriptors

  /** The part of the filter configuration the limiter is built from. */
  datatype LimiterSettings = LimiterSettings(globalMax: nat, table: seq<DescriptorSetting>, alwaysConsumeDefault: bool)

  class Limiter {
    const settings: LimiterSettings
    const global: TokenBucket
    const buckets: seq<TokenBucket>
    ghost const Repr: set<TokenBucket>
    /** The token counts of the descriptor buckets, in table order. */
    ghost var descriptorTokens: seq<nat>

    /** The buckets are distinct objects, each within its capacity, one per table entry. */
    ghost predicate Valid()
      reads this, Repr
    {
      && global in Repr
      && (forall i :: 0 <= i < |buckets| ==> buckets[i] in Repr)
      && |buckets| == |settings.table|
      && |descriptorTokens| == |buckets|
      && global.maxTokens == settings.globalMax
      && global.Valid()
      && global !in buckets
      && (forall i :: 0 <= i < |buckets| ==> buckets[i].maxTokens == settings.table[i].maxTokens)
      && (forall i :: 0 <= i < |buckets| ==> buckets[i].Valid())
      && (forall i :: 0 <= i < |buckets| ==> descriptorTokens[i] == buckets[i].tokens)
      && (forall i, j :: 0 <= i < j < |buckets| ==> buckets[i] != buckets[j])
    }

    /** The token counts of all buckets. */
    ghost function State(): (s: LimiterState)
      requires Valid()
      reads this, Repr
      ensures |s.descriptors| == |settings.table|
    {
      LimiterState(global.tokens, descriptorTokens)
    }

    /** The bucket object a decision names. */
    function BucketOf(d: Deciding): (b: TokenBucket)
      requires |buckets| == |settings.table|
      requires d.DescriptorBucket? ==> d.index < |settings.table|
      ensures d.DefaultBucket? ==> b == global
      ensures d.DescriptorBucket? ==> b == buckets[d.index]
    {
      match d
      case DefaultBucket => global
      case DescriptorBucket(i) => buckets[i]
    }

    /** A new limiter has fresh buckets, all full. */
    constructor (settings: LimiterSettings)
      ensures Valid() && fresh(Repr)
      ensures this.settings == settings
      ensures State() == FullState(settings.globalMax, settings.table)
    {
      var bs: seq<TokenBucket> := [];
      var k := 0;
      while k < |settings.table|
        invariant 0 <= k <= |settings.table| && |bs| == k
        invariant forall i :: 0 <= i < k ==> fresh(bs[i])
        invariant forall i :: 0 <= i < k ==> bs[i].maxTokens == settings.table[i].maxTokens && bs[i].tokens == bs[i].maxTokens
        invariant forall i, j :: 0 <= i < j < k ==> bs[i] != bs[j]
      {
        var b := new TokenBucket(settings.table[k].maxTokens);
        bs := bs + [b];
        k := k + 1;
      }
      this.settings := settings;
      global := new TokenBucket(settings.globalMax);
      buckets := bs;
      Repr := {global} + set b | b in bs;
      descriptorTokens := FullState(settings.globalMax, settings.table).descriptors;
    }

    /** Draws `weight` tokens from descriptor bucket `i`, leaving every other bucket as it was. */
    method Charge(i: nat, weight: nat) returns (ok: bool)
      requires Valid() && i < |buckets|
      modifies this, buckets[i]
      ensures Valid()
      ensures global.tokens == old(global.tokens)
      ensures ok == Take(old(descriptorTokens[i]), weight).Some?
      ensures descriptorTokens == if ok then old(descriptorTokens)[i := old(descriptorTokens[i]) - weight]
                                  else old(descriptorTokens)
    {
      ok := buckets[i].Consume(weight);
      descriptorTokens := descriptorTokens[i := buckets[i].tokens];
      forall j | 0 <= j < |buckets| && j != i ensures buckets[j].tokens == old(buckets[j].tokens) {
        assert buckets[j] != buckets[i];
      }
    }

    /**
     * One step of the walk: `hit`, the first of the remaining descriptors
     * `rest`, draws from its bucket, if it has one, as `Scan` prescribes.
     */
    method Visit(hit: Hit, ghost rest: seq<Hit>, first: Option<nat>) returns (rejectedAt: Option<nat>, next: Option<nat>)
      requires Valid() && rest != [] && rest[0] == hit
      requires first.Some? ==> first.value < |settings.table|
      modifies this, Repr
      ensures Valid()
      ensures global.tokens == old(global.tokens)
      ensures next.Some? ==> next.value < |settings.table|
      ensures rejectedAt.Some? ==> next == first
      ensures rejectedAt.Some? ==> Scan(settings.table, old(descriptorTokens), rest, first) == Scanned(rejectedAt, first, descriptorTokens)
      ensures rejectedAt.None? ==> Scan(settings.table, old(descriptorTokens), rest, first)
                                   == Scan(settings.table, descriptorTokens, rest[1..], next)
    {
      var idx := FindDescriptor(settings.table, hit.descriptor);
      next := first;
      if idx.Some? {
        var i := idx.value;
        ghost var before := descriptorTokens;
        var ok := Charge(i, hit.weight);
        if !ok {
          ScanRefuse(settings.table, before, rest, first, i);
          return Some(i), first;
        }
        ScanPay(settings.table, before, rest, first, i);
        if first.None? {
          next := Some(i);
        }
      } else {
        ScanSkip(settings.table, descriptorTokens, rest, first);
      }
      rejectedAt := None;
    }

    /**
     * The walk over the request descriptors, in order, drawing from the
     * descriptor buckets as `Scan` prescribes; it reports the refusing bucket,
     * if any, and the first matched bucket.
     */
    method Walk(hits: seq<Hit>) returns (rejectedAt: Option<nat>, first: Option<nat>)
      requires Valid()
      modifies this, Repr
      ensures Valid()
      ensures global.tokens == old(global.tokens)
      ensures Scan(settings.table, old(descriptorTokens), hits, None) == Scanned(rejectedAt, first, descriptorTokens)
    {
      ghost var scan := Scan(settings.table, descriptorTokens, hits, None);
      first := None;
      var k := 0;
      assert hits[k..] == hits;
      while k < |hits|
        invariant 0 <= k <= |hits|
        invariant Valid()
        invariant global.tokens == old(global.tokens)
        invariant first.Some? ==> first.value < |settings.table|
        invariant Scan(settings.table, descriptorTokens, hits[k..], first) == scan
      {
        assert hits[k..][0] == hits[k] && hits[k..][1..] == hits[k + 1..];
        rejectedAt, first := Visit(hits[k], hits[k..], first);
        if rejectedAt.Some? {
          return;
        }
        k := k + 1;
      }
      assert hits[k..] == [];
      rejectedAt := None;
    }

    /**
     * Decides one request: consumes from the buckets exactly as `Decide`
     * prescribes and returns whether the request is admitted and the bucket
     * that decided it.
     */
    method RequestAllowed(hits: seq<Hit>) returns (allowed: bool, bucket: TokenBucket)
      requires Valid()
      modifies this, Repr
      ensures Valid()
      ensures var o := Decide(settings.table, settings.alwaysConsumeDefault, old(State()), hits);
        && allowed == o.decision.allowed
        && State() == o.state
        && bucket == BucketOf(o.decision.deciding)
    {
      var rejectedAt, first := Walk(hits);
      if rejectedAt.Some? {
        return false, buckets[rejectedAt.value];
      }
      if first.None? || settings.alwaysConsumeDefault {
        var ok := global.Consume(1);
        if !ok {
          return false, global;
        }
        bucket := if first.None? then global else buckets[first.value];
        return true, bucket;
      }
      return true, buckets[first.value];
    }
  }
}
