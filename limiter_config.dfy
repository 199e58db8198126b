/** The rate limiter's configuration builder: `{rate, burst}` with fixed
    defaults, fluent setters that update the receiver in place, and the
    normalisation that silently replaces every non-positive field. */
module LimiterConfig {
  import TokenBucket

  /** The "infinite rate" sentinel: the largest float64, which is also the
      token bucket's own infinite limit. */
  const DefaultInfiniteRate: real := TokenBucket.MaxFloat64

  const DefaultLimitRate: real := 10.0
  const DefaultLimitBurst: int := 5

  /** The rate normalisation applies: a positive rate is kept, any other
      becomes the default. */
  function NormalizeRate(rate: real): (r: real)
    ensures r > 0.0
    ensures rate > 0.0 ==> r == rate
    ensures rate <= 0.0 ==> r == DefaultLimitRate
  {
    if rate <= 0.0 then DefaultLimitRate else rate
  }

  /** The burst normalisation applies: a positive burst is kept, any other
      becomes the default. */
  function NormalizeBurst(burst: int): (b: int)
    ensures b > 0
    ensures burst > 0 ==> b == burst
    ensures burst <= 0 ==> b == DefaultLimitBurst
  {
    if burst <= 0 then DefaultLimitBurst else burst
  }

  /** Normalising twice is normalising once. */
  lemma NormalizeIdempotent(rate: real, burst: int)
    ensures NormalizeRate(NormalizeRate(rate)) == NormalizeRate(rate)
    ensures NormalizeBurst(NormalizeBurst(burst)) == NormalizeBurst(burst)
  {
  }

  /** The infinite-rate sentinel is positive, so it survives normalisation. */
  lemma InfiniteRateSurvives()
    ensures NormalizeRate(DefaultInfiniteRate) == DefaultInfiniteRate == TokenBucket.Inf
  {
  }

  class Config {
    var rate: real
    var burst: int

    /** Both fields in the range the token bucket needs. */
    predicate Normalized()
      reads this
    {
      rate > 0.0 && burst > 0
    }

    /** `NewConfig`: the default rate and burst. */
    constructor ()
      ensures rate == DefaultLimitRate && burst == DefaultLimitBurst
      ensures Normalized()
    {
      rate := DefaultLimitRate;
      burst := DefaultLimitBurst;
    }

    /** Sets the rate, exactly as given, and returns the same config. */
    method WithRate(rate: real) returns (c: Config)
      modifies this
      ensures c == this
      ensures this.rate == rate && burst == old(burst)
    {
      this.rate := rate;
      c := this;
    }

    /** Sets the burst, exactly as given, and returns the same config. */
    method WithBurst(burst: int) returns (c: Config)
      modifies this
      ensures c == this
      ensures this.burst == burst && rate == old(rate)
    {
      this.burst := burst;
      c := this;
    }
  }

  /** A fresh config equal to the one `NewConfig` builds. */
  method DefaultConfig() returns (c: Config)
    ensures fresh(c)
    ensures c.rate == DefaultLimitRate && c.burst == DefaultLimitBurst
  {
    c := new Config();
  }

  /** `isConfigValid`: a missing config becomes a fresh default one; a given
      one is normalised in place, field by field, and returned itself. */
  method IsConfigValid(conf: Config?) returns (c: Config)
    modifies conf
    ensures c.Normalized()
    ensures conf != null ==> c == conf
    ensures conf != null ==> c.rate == NormalizeRate(old(conf.rate))
    ensures conf != null ==> c.burst == NormalizeBurst(old(conf.burst))
    ensures conf != null && old(conf.Normalized()) ==> unchanged(conf)
    ensures conf == null ==> fresh(c)
    ensures conf == null ==> c.rate == DefaultLimitRate && c.burst == DefaultLimitBurst
  {
    if conf != null {
      if conf.rate <= 0.0 {
        conf.rate := DefaultLimitRate;
      }
      if conf.burst <= 0 {
        conf.burst := DefaultLimitBurst;
      }
      c := conf;
    } else {
      c := DefaultConfig();
    }
  }
}
