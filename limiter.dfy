/** The rate limiters: `Limiter`, whose `When` reserves a token from a token
    bucket and returns the delay before the event may run, and `NopLimiter`,
    which never delays. Also the time slice the flow controller rounds
    delays to. */
module RateLimiter {
  import opened Durations
  import TokenBucket
  import LimiterConfig

  /** The granularity of every delay the flow controller schedules. */
  const DefaultEffectiveTimeSliceInterval: int := 100 * Millisecond

  class Limiter {
    const limit: real
    const burst: int
    var tokens: real
    var last: int

    /** The bucket this limiter holds. */
    function State(): TokenBucket.Bucket
      reads this
    {
      TokenBucket.Bucket(limit, burst, tokens, last)
    }

    ghost predicate Valid()
      reads this
    {
      TokenBucket.Valid(State())
    }

    /** `rate.NewLimiter(limit, burst)`. */
    constructor (limit: real, burst: int)
      requires limit > 0.0 && burst > 0
      ensures Valid()
      ensures State() == TokenBucket.NewBucket(limit, burst)
    {
      this.limit := limit;
      this.burst := burst;
      tokens := 0.0;
      last := 0;
    }

    /** `Reserve().Delay()` at the instant `now`: advances the bucket, takes
        one token (into debt if need be) and returns the time until that
        token is paid for. */
    method When(now: int) returns (delay: int)
      requires Valid()
      modifies this
      ensures Valid()
      ensures delay >= 0
      ensures TokenBucket.Reservation(State(), delay) == TokenBucket.Reserve(old(State()), now)
    {
      if limit == TokenBucket.Inf {
        return 0;
      }
      var t := TokenBucket.Advance(State(), now);
      t := t - 1.0;
      var wait := 0;
      if t < 0.0 {
        wait := TokenBucket.DurationFromTokens(-t, limit);
      }
      last, tokens := now, t;
      delay := wait;
    }
  }

  /** `NewRateLimiter`: normalises the given config (in place, or a default
      one when none is given) and builds a bucket with exactly its rate and
      burst. */
  method NewRateLimiter(conf: LimiterConfig.Config?) returns (l: Limiter)
    modifies conf
    ensures fresh(l) && l.Valid()
    ensures l.State() == TokenBucket.NewBucket(l.limit, l.burst)
    ensures conf != null ==> l.limit == LimiterConfig.NormalizeRate(old(conf.rate))
    ensures conf != null ==> l.burst == LimiterConfig.NormalizeBurst(old(conf.burst))
    ensures conf != null ==> conf.rate == l.limit && conf.burst == l.burst
    ensures conf == null ==> l.limit == LimiterConfig.DefaultLimitRate
    ensures conf == null ==> l.burst == LimiterConfig.DefaultLimitBurst
  {
    var c := LimiterConfig.IsConfigValid(conf);
    l := new Limiter(c.rate, c.burst);
  }

  /** A limiter that never delays. */
  class NopLimiter {
    constructor ()
    {
    }

    /** Always zero, whatever calls came before. */
    method When() returns (delay: int)
      ensures delay == 0
    {
      delay := 0;
    }
  }

  /** `NewNopLimiter`: a new limiter that never delays. */
  method NewNopLimiter() returns (l: NopLimiter)
    ensures fresh(l)
  {
    l := new NopLimiter();
  }

  /** The expectation of the limiter test: rate 2, burst 1, ten calls made
      one after another on a fresh limiter; the `i`-th delay, rounded to the
      500 ms interval, is `i` intervals. Any clock reading at least half a
      second after Go's zero time gives a full bucket. */
  lemma {:induction false} TwoPerSecondSpacing(now: int, k: nat, i: nat)
    requires now >= 500 * Millisecond && i < k
    ensures var delays := TokenBucket.BackToBack(TokenBucket.NewBucket(2.0, 1), now, k);
      Round(delays[i], 500 * Millisecond) == i * (500 * Millisecond)
  {
    EvenSpacing(2, now, k, i);
  }

  /** With burst 1 and an integral rate that divides one second, a fresh
      limiter's back-to-back delays are exact multiples of the interval
      `1s / rate`, so rounding to that interval leaves them unchanged. */
  lemma {:induction false} EvenSpacing(rate: int, now: int, k: nat, i: nat)
    requires rate > 0 && Second % rate == 0 && i < k
    requires now >= Second / rate
    ensures var delays := TokenBucket.BackToBack(TokenBucket.NewBucket(rate as real, 1), now, k);
      delays[i] == i * (Second / rate) && Round(delays[i], Second / rate) == i * (Second / rate)
  {
    var interval := Second / rate;
    var b := TokenBucket.NewBucket(rate as real, 1);
    FreshBucketFullAfterInterval(rate, now);
    TokenBucket.FullBucketDelays(b, now, k, i);
    if i >= 1 {
      TokensOverIntegralRate(i, rate);
    }
    RoundOfMultiple(i, interval);
  }

  /** One interval `1s / rate` after Go's zero time a fresh burst-1 bucket
      has refilled. */
  lemma FreshBucketFullAfterInterval(rate: int, now: int)
    requires rate > 0 && Second % rate == 0
    requires now >= Second / rate
    ensures TokenBucket.Advance(TokenBucket.NewBucket(rate as real, 1), now) == 1.0
  {
    var interval := Second / rate;
    var e := if now < TokenBucket.MaxDuration then now else TokenBucket.MaxDuration;
    assert Second == interval * rate;
    assert e as real * rate as real >= interval as real * rate as real by {
      assert e >= interval;
    }
    assert (interval * rate) as real == interval as real * rate as real;
    TokenBucket.NewBucketRefills(rate as real, 1, now);
  }

  /** `n` tokens at an integral rate dividing one second accrue in exactly
      `n` intervals. */
  lemma TokensOverIntegralRate(n: nat, rate: int)
    requires rate > 0 && Second % rate == 0
    ensures TokenBucket.DurationFromTokens(n as real, rate as real) == n * (Second / rate)
  {
    var interval := Second / rate;
    assert Second == interval * rate;
    assert Second as real == interval as real * rate as real;
    assert n as real / rate as real * (interval as real * rate as real) == n as real * interval as real;
    assert (n * interval) as real == n as real * interval as real;
  }
}
