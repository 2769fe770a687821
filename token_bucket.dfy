/**
 * The token bucket primitive: a capacity (`max_tokens`) and a current token
 * count. Refill over time is not part of this model (no interval elapses in
 * the behaviour modelled), so a bucket only ever drains.
 */
module TokenBuckets {

  import opened Wrappers

  /**
   * The bucket rule: a consumption of `weight` tokens from a bucket holding
   * `tokens` is admitted exactly when enough tokens remain, and then leaves
   * `tokens - weight`; a refused consumption leaves the bucket untouched.
   * The result is the token count left after an admitted consumption.
   */
  function Take(tokens: nat, weight: nat): (r: Option<nat>)
    ensures r.Some? <==> weight <= tokens
    ensures r.Some? ==> r.value + weight == tokens
  {
    if weight <= tokens then Some(tokens - weight) else None
  }

  /** A bucket whose token count the consumers update in place. */
  class TokenBucket {
    const maxTokens: nat
    var tokens: nat

    /** The count never exceeds the capacity. */
    ghost predicate Valid()
      reads this
    {
      tokens <= maxTokens
    }

    /** A bucket starts full. */
    constructor (maxTokens: nat)
      ensures Valid()
      ensures this.maxTokens == maxTokens && tokens == maxTokens
    {
      this.maxTokens := maxTokens;
      tokens := maxTokens;
    }

    /** Test-and-decrement: admitted only when `weight` tokens remain. */
    method Consume(weight: nat) returns (ok: bool)
      requires Valid()
      modifies this
      ensures Valid()
      ensures ok == Take(old(tokens), weight).Some?
      ensures tokens == if ok then Take(old(tokens), weight).value else old(tokens)
    {
      ok := weight <= tokens;
      if ok {
        tokens := tokens - weight;
      }
    }
  }

  /**
   * The admissions of a run of consumptions against one bucket holding
   * `tokens`, with no time elapsing between them.
   */
  function Admissions(tokens: nat, weights: seq<nat>): (r: seq<bool>)
    ensures |r| == |weights|
  {
    if weights == [] then []
    else match Take(tokens, weights[0])
      case Some(rest) => [true] + Admissions(rest, weights[1..])
      case None => [false] + Admissions(tokens, weights[1..])
  }

  /** An empty bucket refuses every consumption of at least one token. */
  lemma {:induction false} EmptyBucketRefuses(weights: seq<nat>)
    requires forall k :: 0 <= k < |weights| ==> 1 <= weights[k]
    ensures Admissions(0, weights) == seq(|weights|, k => false)
  {
    if weights != [] {
      EmptyBucketRefuses(weights[1..]);
    }
  }

  /**
   * Unit consumptions against a bucket holding `n` tokens: exactly the first
   * `n` are admitted, and every later one is refused.
   */
  lemma {:induction false} UnitDrain(n: nat, count: nat)
    ensures Admissions(n, seq(count, k => 1)) == seq(count, k => k < n)
  {
    var ones := seq(count, k => 1);
    if count > 0 {
      assert ones[1..] == seq(count - 1, k => 1);
      if n == 0 {
        EmptyBucketRefuses(ones[1..]);
      } else {
        UnitDrain(n - 1, count - 1);
      }
    }
  }
}
