/** The narrow interfaces the flow controller talks to — the pipeline, the
    rate limiter and the callback — and the default no-op callback. A Go
    interface value becomes a datatype that names which implementation the
    value holds, or nil. The pipeline, an external asynchronous backend, is
    a stub that records every call made on it. */
module Interfaces {
  import TokenBucket
  import RateLimiter

  /** A message: any value, which the core only forwards. */
  type Payload = string

  /** The identity of a message handle function; the core never runs it. */
  type Handler = nat

  /** The error a submission returns: nil, or the pipeline's refusal. */
  datatype Status = Ok | Failed(reason: string)

  /** A call made on the pipeline. */
  datatype PipelineCall =
    | SubmitCall(fn: Handler, msg: Payload)
    | SubmitAfterCall(fn: Handler, msg: Payload, delay: int)
    | StopCall

  /** The pipeline: logs every call, and answers every submission with the
      same `reply`. */
  class Pipeline {
    var calls: seq<PipelineCall>
    const reply: Status

    constructor (reply: Status)
      ensures calls == [] && this.reply == reply
    {
      calls := [];
      this.reply := reply;
    }

    /** Hands `fn(msg)` over for immediate execution. */
    method SubmitWithFunc(fn: Handler, msg: Payload) returns (err: Status)
      modifies this
      ensures calls == old(calls) + [SubmitCall(fn, msg)]
      ensures err == reply
    {
      calls := calls + [SubmitCall(fn, msg)];
      err := reply;
    }

    /** Hands `fn(msg)` over for execution no earlier than `delay` from now. */
    method SubmitAfterWithFunc(fn: Handler, msg: Payload, delay: int) returns (err: Status)
      modifies this
      ensures calls == old(calls) + [SubmitAfterCall(fn, msg, delay)]
      ensures err == reply
    {
      calls := calls + [SubmitAfterCall(fn, msg, delay)];
      err := reply;
    }

    method Stop()
      modifies this
      ensures calls == old(calls) + [StopCall]
    {
      calls := calls + [StopCall];
    }
  }

  /** A rate limiter interface value. */
  datatype RateLimiterRef =
    | NilLimiter
    | Nop(nop: RateLimiter.NopLimiter)
    | Rate(limiter: RateLimiter.Limiter)
  {
    function Objects(): set<object>
    {
      match this
      case NilLimiter => {}
      case Nop(n) => {n}
      case Rate(l) => {l}
    }

    /** A token-bucket limiter keeps its bucket invariant. */
    ghost predicate Valid()
      reads Objects()
    {
      Rate? ==> limiter.Valid()
    }

    /** The delay the next `When` at `now` returns. */
    ghost function NextDelay(now: int): int
      reads Objects()
      requires Valid()
    {
      if Rate? then TokenBucket.Reserve(limiter.State(), now).delay else 0
    }
  }

  /** `RateLimiter.When` on a non-nil interface value. */
  method When(r: RateLimiterRef, now: int) returns (delay: int)
    requires !r.NilLimiter? && r.Valid()
    modifies r.Objects()
    ensures r.Valid()
    ensures delay >= 0 && delay == old(r.NextDelay(now))
    ensures r.Nop? ==> delay == 0
    ensures r.Rate? ==> r.limiter.State() == TokenBucket.Reserve(old(r.limiter.State()), now).next
  {
    match r
    case Nop(n) =>
      delay := n.When();
    case Rate(l) =>
      delay := l.When(now);
  }

  /** The default callback: does nothing when a call is limited. */
  class EmptyCallback {
    constructor ()
    {
    }

    /** Does nothing. */
    method OnExecLimited(msg: Payload, delay: int)
      ensures unchanged(this)
    {
    }
  }

  /** `NewEmptyCallback`: a new callback that ignores every notification. */
  method NewEmptyCallback() returns (c: EmptyCallback)
    ensures fresh(c)
  {
    c := new EmptyCallback();
  }

  /** A caller-supplied callback, as a stub that records its notifications. */
  class RecordingCallback {
    var notes: seq<(Payload, int)>

    constructor ()
      ensures notes == []
    {
      notes := [];
    }

    method OnExecLimited(msg: Payload, delay: int)
      modifies this
      ensures notes == old(notes) + [(msg, delay)]
    {
      notes := notes + [(msg, delay)];
    }
  }

  /** A callback interface value. */
  datatype CallbackRef =
    | NilCallback
    | Empty(empty: EmptyCallback)
    | Recording(recorder: RecordingCallback)
  {
    function Objects(): set<object>
    {
      match this
      case NilCallback => {}
      case Empty(e) => {e}
      case Recording(r) => {r}
    }
  }

  /** `Callback.OnExecLimited` on a non-nil interface value. */
  method OnExecLimited(cb: CallbackRef, msg: Payload, delay: int)
    requires !cb.NilCallback?
    modifies cb.Objects()
    ensures cb.Recording? ==> cb.recorder.notes == old(cb.recorder.notes) + [(msg, delay)]
    ensures cb.Empty? ==> unchanged(cb.empty)
  {
    match cb
    case Empty(e) =>
      e.OnExecLimited(msg, delay);
    case Recording(r) =>
      r.OnExecLimited(msg, delay);
  }
}
