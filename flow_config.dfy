/** The flow controller's configuration builder: `{ratelimiter, callback}`,
    defaulting to the no-op limiter and the empty callback, with fluent
    setters that update the receiver in place and a normalisation that
    fills whatever is nil. */
module FlowConfig {
  import RateLimiter
  import opened Interfaces

  class Config {
    var ratelimiter: RateLimiterRef
    var callback: CallbackRef

    /** Neither field is nil. */
    predicate Complete()
      reads this
    {
      !ratelimiter.NilLimiter? && !callback.NilCallback?
    }

    /** `NewConfig`: a new no-op limiter and a new empty callback. */
    constructor ()
      ensures ratelimiter.Nop? && fresh(ratelimiter.nop)
      ensures callback.Empty? && fresh(callback.empty)
      ensures Complete()
    {
      var nop := RateLimiter.NewNopLimiter();
      var empty := NewEmptyCallback();
      ratelimiter := Nop(nop);
      callback := Empty(empty);
    }

    /** Replaces only the limiter and returns the same config. */
    method WithRateLimiter(rl: RateLimiterRef) returns (c: Config)
      modifies this
      ensures c == this
      ensures ratelimiter == rl && callback == old(callback)
    {
      ratelimiter := rl;
      c := this;
    }

    /** Replaces only the callback and returns the same config. */
    method WithCallback(cb: CallbackRef) returns (c: Config)
      modifies this
      ensures c == this
      ensures callback == cb && ratelimiter == old(ratelimiter)
    {
      callback := cb;
      c := this;
    }
  }

  /** A fresh config equal to the one `NewConfig` builds. */
  method DefaultConfig() returns (c: Config)
    ensures fresh(c)
    ensures c.ratelimiter.Nop? && fresh(c.ratelimiter.nop)
    ensures c.callback.Empty? && fresh(c.callback.empty)
  {
    c := new Config();
  }

  /** `isConfigValid`: a missing config becomes a fresh default one; in a
      given one a nil limiter becomes a new no-op limiter and a nil callback
      a new empty callback, in place, and the same config is returned. */
  method IsConfigValid(conf: Config?) returns (c: Config)
    modifies conf
    ensures c.Complete()
    ensures conf != null ==> c == conf
    ensures conf != null && !old(conf.ratelimiter).NilLimiter? ==> c.ratelimiter == old(conf.ratelimiter)
    ensures conf != null && old(conf.ratelimiter).NilLimiter? ==> c.ratelimiter.Nop? && fresh(c.ratelimiter.nop)
    ensures conf != null && !old(conf.callback).NilCallback? ==> c.callback == old(conf.callback)
    ensures conf != null && old(conf.callback).NilCallback? ==> c.callback.Empty? && fresh(c.callback.empty)
    ensures conf != null && old(conf.Complete()) ==> unchanged(conf)
    ensures conf == null ==> fresh(c)
    ensures conf == null ==> c.ratelimiter.Nop? && fresh(c.ratelimiter.nop)
    ensures conf == null ==> c.callback.Empty? && fresh(c.callback.empty)
  {
    if conf != null {
      if conf.ratelimiter.NilLimiter? {
        var nop := RateLimiter.NewNopLimiter();
        conf.ratelimiter := Nop(nop);
      }
      if conf.callback.NilCallback? {
        var empty := NewEmptyCallback();
        conf.callback := Empty(empty);
      }
      c := conf;
    } else {
      c := DefaultConfig();
    }
  }
}
