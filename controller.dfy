/** The flow controller: for each message it asks the rate limiter for a
    delay, rounds it to the 100 ms time slice, and either notifies the
    callback and submits the message to the pipeline after that delay, or
    submits it at once; and it forwards `Stop` to the pipeline once. */
module FlowControl {
  import opened Durations
  import TokenBucket
  import RateLimiter
  import opened Interfaces
  import FlowConfig

  /** What `Do` does with a message. */
  datatype Admission = Immediate | Delayed(delay: int)

  /** The decision `Do` takes on the limiter's delay `raw`: the delay
      rounded to the time slice, a positive one delaying the message. The
      no-op limiter's zero delay, in particular, is always admitted at once. */
  function Admit(raw: int): (a: Admission)
    ensures a.Delayed? <==> 2 * raw >= RateLimiter.DefaultEffectiveTimeSliceInterval
    ensures a.Delayed? ==> a.delay > 0
    ensures a.Delayed? ==> a.delay % RateLimiter.DefaultEffectiveTimeSliceInterval == 0
    ensures a.Delayed? ==> 2 * Abs(a.delay - raw) <= RateLimiter.DefaultEffectiveTimeSliceInterval
  {
    var delay := Round(raw, RateLimiter.DefaultEffectiveTimeSliceInterval);
    if delay > 0 then Delayed(delay) else Immediate
  }

  /** The admitted delay is the time slice nearest to the raw one. */
  lemma AdmitIsNearestSlice(raw: int, q: int)
    requires Admit(raw).Delayed?
    ensures Abs(Admit(raw).delay - raw) <= Abs(q * RateLimiter.DefaultEffectiveTimeSliceInterval - raw)
  {
    RoundIsNearest(raw, RateLimiter.DefaultEffectiveTimeSliceInterval, q);
  }

  /** The flow controller's test set-up: a fresh limiter at rate 10 and
      burst 1, called back to back. The first message is admitted at once
      and the `i`-th is delayed by exactly `i` time slices. */
  lemma {:induction false} TenPerSecondAdmissions(now: int, k: nat, i: nat)
    requires now >= 100 * Millisecond && i < k
    ensures var delays := TokenBucket.BackToBack(TokenBucket.NewBucket(10.0, 1), now, k);
      Admit(delays[i]) == if i == 0 then Immediate else Delayed(i * RateLimiter.DefaultEffectiveTimeSliceInterval)
  {
    RateLimiter.EvenSpacing(10, now, k, i);
  }

  /** The state of the once-guard around `Stop`. */
  datatype Phase = Running | Stopped

  /** One `Stop`: the next phase and whether the pipeline's `Stop` runs. */
  function StopStep(p: Phase): (r: (Phase, bool))
    ensures r.0 == Stopped
    ensures r.1 <==> p == Running
  {
    (Stopped, p == Running)
  }

  /** How many times `k` consecutive `Stop`s, from phase `p`, stop the
      pipeline: never more than once, and never once the guard has stopped. */
  function PipelineStops(p: Phase, k: nat): (n: nat)
    ensures n <= 1
    ensures p == Stopped ==> n == 0
    decreases k
  {
    if k == 0 then 0
    else
      var (q, forwarded) := StopStep(p);
      (if forwarded then 1 else 0) + PipelineStops(q, k - 1)
  }

  /** Any number of `Stop`s stops the pipeline exactly once, on the first. */
  lemma StopForwardedOnce(k: nat)
    ensures PipelineStops(Running, k) == if k == 0 then 0 else 1
  {
  }

  class FlowController {
    const config: FlowConfig.Config
    const pipeline: Pipeline
    var once: Phase
    /** How many times this controller has stopped the pipeline. */
    ghost var stopsForwarded: nat

    /** The once-guard's record: the pipeline was stopped exactly when the
        guard says so. */
    ghost predicate Guarded()
      reads this
    {
      stopsForwarded == (if once == Stopped then 1 else 0)
    }

    /** A controller as `NewFlowController` builds it: neither config field
        nil, a token-bucket limiter keeping its invariant, and the guard. */
    ghost predicate Valid()
      reads this, config, config.ratelimiter.Objects()
    {
      && config.Complete()
      && config.ratelimiter.Valid()
      && Guarded()
    }

    constructor (pipeline: Pipeline, config: FlowConfig.Config)
      requires config.Complete() && config.ratelimiter.Valid()
      ensures Valid()
      ensures this.pipeline == pipeline && this.config == config
      ensures once == Running
    {
      this.pipeline := pipeline;
      this.config := config;
      once := Running;
      stopsForwarded := 0;
    }

    /** Stops the pipeline the first time only. The config is never read. */
    method Stop()
      requires Guarded()
      modifies this, pipeline
      ensures Guarded()
      ensures old(Valid()) ==> Valid()
      ensures (once, old(once) == Running) == StopStep(old(once))
      ensures pipeline.calls == old(pipeline.calls) + (if old(once) == Running then [StopCall] else [])
      ensures stopsForwarded == 1
    {
      if once == Running {
        once := Stopped;
        stopsForwarded := stopsForwarded + 1;
        pipeline.Stop();
      }
    }

    /** Takes the limiter's delay for the next event at `now`, rounds it to
        the time slice, and makes exactly one submission: after the rounded
        delay, once the callback has been told, when it is positive, and at
        once otherwise. The pipeline's answer is returned unchanged. The
        callback is only reached for a positive delay, so a nil one is
        harmless to a message admitted at once. */
    method Do(fn: Handler, msg: Payload, now: int) returns (err: Status)
      requires Guarded()
      requires !config.ratelimiter.NilLimiter? && config.ratelimiter.Valid()
      requires config.callback.NilCallback? ==> Admit(config.ratelimiter.NextDelay(now)).Immediate?
      modifies pipeline, config.ratelimiter.Objects(), config.callback.Objects()
      ensures Guarded() && config.ratelimiter.Valid()
      ensures old(Valid()) ==> Valid()
      ensures var a := Admit(old(config.ratelimiter.NextDelay(now)));
        pipeline.calls == old(pipeline.calls) +
          [if a.Delayed? then SubmitAfterCall(fn, msg, a.delay) else SubmitCall(fn, msg)]
      ensures var a := Admit(old(config.ratelimiter.NextDelay(now)));
        config.callback.Recording? ==>
          config.callback.recorder.notes ==
            old(config.callback.recorder.notes) + (if a.Delayed? then [(msg, a.delay)] else [])
      ensures config.ratelimiter.Nop? ==> pipeline.calls == old(pipeline.calls) + [SubmitCall(fn, msg)]
      ensures config.ratelimiter.Rate? ==>
        config.ratelimiter.limiter.State() == TokenBucket.Reserve(old(config.ratelimiter.limiter.State()), now).next
      ensures err == pipeline.reply
    {
      var raw := When(config.ratelimiter, now);
      var delay := Round(raw, RateLimiter.DefaultEffectiveTimeSliceInterval);
      if delay > 0 {
        OnExecLimited(config.callback, msg, delay);
        err := pipeline.SubmitAfterWithFunc(fn, msg, delay);
      } else {
        err := pipeline.SubmitWithFunc(fn, msg);
      }
    }
  }

  /** `NewFlowController`: no controller, and nothing touched, without a
      pipeline; otherwise a running controller over the pipeline and the
      normalised config (a fresh default one when none is given). */
  method NewFlowController(pipeline: Pipeline?, conf: FlowConfig.Config?) returns (fc: FlowController?)
    requires conf != null ==> conf.ratelimiter.Valid()
    modifies conf
    ensures pipeline == null ==> fc == null
    ensures pipeline == null && conf != null ==> unchanged(conf)
    ensures pipeline != null ==> fc != null && fresh(fc) && fc.Valid()
    ensures pipeline != null ==> fc.pipeline == pipeline && fc.once == Running
    ensures pipeline != null && conf != null ==> fc.config == conf
    ensures pipeline != null && conf != null && !old(conf.ratelimiter).NilLimiter? ==>
      conf.ratelimiter == old(conf.ratelimiter)
    ensures pipeline != null && conf != null && !old(conf.callback).NilCallback? ==>
      conf.callback == old(conf.callback)
    ensures pipeline != null && conf != null && old(conf.ratelimiter).NilLimiter? ==>
      conf.ratelimiter.Nop? && fresh(conf.ratelimiter.nop)
    ensures pipeline != null && conf != null && old(conf.callback).NilCallback? ==>
      conf.callback.Empty? && fresh(conf.callback.empty)
    ensures pipeline != null && conf == null ==> fresh(fc.config)
    ensures pipeline != null && conf == null ==> fc.config.ratelimiter.Nop? && fc.config.callback.Empty?
  {
    if pipeline == null {
      return null;
    }
    var c := FlowConfig.IsConfigValid(conf);
    fc := new FlowController(pipeline, c);
  }
}
