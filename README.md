# regula flow controller — a Dafny model

regula is an admission-control layer. For each message, its `FlowController`
asks a rate limiter how long the next event must wait. It rounds that wait to
a 100 ms time slice. A positive wait is reported to a callback, and the message
goes to an asynchronous pipeline with that delay. A zero wait sends the message
to the pipeline at once. `Stop` forwards `Stop` to the pipeline only the first
time it is called.

This project models:

- the controller (`controller.go`);
- its configuration `{ratelimiter, callback}` and that configuration's nil-filling normalisation (`config.go`);
- the rate limiter's configuration `{rate, burst}` and its normalisation of non-positive values (`ratelimiter/config.go`);
- the two rate limiters (`ratelimiter/limiter.go`).

The token-bucket limiter wraps `golang.org/x/time/rate`. That bucket is not
part of this repository. `TokenBucket` models it as the reservation the limiter
makes: tokens refill at `limit` per second up to `burst`, and every call takes
one token, going into debt when none is left. The clock is an explicit
parameter `now`, counted in nanoseconds since Go's zero time.

Modules, one per source file or component:

| module | models |
|---|---|
| `Durations` | `time.Duration` in nanoseconds, and `Duration.Round` |
| `TokenBucket` | the `x/time/rate` bucket behind `Reserve().Delay()` |
| `LimiterConfig` | `ratelimiter/config.go` |
| `RateLimiter` | `ratelimiter/limiter.go` |
| `Interfaces` | `interface.go` and `callback.go`: the pipeline, limiter and callback interfaces |
| `FlowConfig` | `config.go` |
| `FlowControl` | `controller.go` |

Each Go interface value becomes a datatype naming the implementation it
holds, or nil. `RateLimiterRef` is
`NilLimiter`, `Nop` or `Rate`. `CallbackRef` is `NilCallback`, `Empty` or
`Recording`. The pipeline is a stub class. It logs every call made on it and
answers every submission with a fixed `reply`. This is how "exactly one
submission", "callback only for a positive delay" and "stop exactly once"
become postconditions.

Behaviour worth knowing:

- The controller rounds to the nearest 100 ms slice, halves up, so a raw
  delay under 50 ms is admitted at once.
- The bucket goes into debt: `tokens` becomes negative while reservations
  are outstanding.
- `Do` after `Stop` still submits to the pipeline. The code has no "stopped"
  error.
- `Stop` never reads the config. `Do` reaches the callback only for a
  positive delay, so a nil callback does not disturb a message admitted at
  once.

The source is mid-refactor, and two names disagree:

- `controller.go:49` calls `callback.OnLimited(delay)`, but the `Callback`
  interface (`interface.go:38`, `callback.go:11`) declares
  `OnExecLimited(msg, delay)`. The model uses the declared, payload-aware
  `OnExecLimited(msg, delay)`.
- `controller.go:13,19` name the pipeline type `PipelineInterface`, while
  `interface.go:11` declares it as `Pipeline`. The model uses `Pipeline`.

## Model

| member | source | states |
|---|---|---|
| `Durations.Round` | controller.go:44 | `Duration.Round` to a positive `m` gives a multiple of `m` within `m/2` of the input. A tie moves away from zero. The sign is kept. A non-negative delay rounds to 0 exactly when it is below half a slice. A non-positive `m` changes nothing. |
| `Durations.RoundIsNearest` | controller.go:44 | No multiple of `m` is closer to the input than the rounded value. |
| `Durations.RoundOfMultiple` | test/limiter_test.go:19 | Rounding a delay that already is a multiple of the interval leaves it unchanged. |
| `TokenBucket.NewBucket` | ratelimiter/limiter.go:24 | A bucket built from a positive rate and burst satisfies the bucket invariant. |
| `TokenBucket.Elapsed` | ratelimiter/limiter.go:31 | Time since the last update is never negative and never over MaxDuration. A clock that went backwards counts as no time. Otherwise it is `now - last`. |
| `TokenBucket.TokensFromDuration` | ratelimiter/limiter.go:31 | The tokens earned in a time span are never negative, and positive for a positive span. |
| `TokenBucket.Advance` | ratelimiter/limiter.go:31 | The refill never loses tokens and never adds more than the tokens earned in the elapsed time. It is capped at the burst, and below the cap it adds exactly the tokens earned. |
| `TokenBucket.DurationFromTokens` | ratelimiter/limiter.go:31 | The wait for a number of tokens is the number of whole nanoseconds in `tokens / limit` seconds. |
| `TokenBucket.WaitFor` | ratelimiter/limiter.go:31 | No wait while the balance after taking a token is not negative. Otherwise the wait is the time the refill needs to repay the debt, truncated to a nanosecond. |
| `TokenBucket.WaitForMonotone` | ratelimiter/limiter.go:31 | A deeper debt never waits less. |
| `TokenBucket.Reserve` | ratelimiter/limiter.go:30-32 | The delay is never negative, and the bucket invariant, rate and burst are kept. Under the infinite limit nothing changes and the delay is 0. Otherwise exactly one token is taken from the refilled bucket and `last` becomes `now`. The delay is 0 when a whole token was available, and otherwise it is the time that repays the debt. |
| `TokenBucket.ReserveAgainNotSooner` | ratelimiter/limiter.go:31 | A second reservation at the same instant never gets a shorter delay than the first. |
| `TokenBucket.BackToBack` | ratelimiter/limiter.go:30-32 | `k` successive reservations at one instant give `k` delays, none negative. |
| `TokenBucket.BackToBackDelay` | ratelimiter/limiter.go:31 | The `i`-th of those delays is the wait for the refilled balance minus `i + 1` tokens. |
| `TokenBucket.BackToBackNonDecreasing` | ratelimiter/limiter.go:31 | Successive delays at the same instant never decrease. |
| `TokenBucket.InfiniteLimitNeverWaits` | ratelimiter/config.go:11 | Under the infinite-rate sentinel every delay is 0. |
| `TokenBucket.FullBucketDelays` | ratelimiter/limiter.go:30-32 | From a full bucket, the first `burst` calls wait 0. Call `i` after that waits for `i + 1 - burst` tokens. |
| `TokenBucket.NewBucketRefills` | ratelimiter/limiter.go:24 | A new bucket (empty, updated at Go's zero time) is full once its refill since then covers the burst. |
| `LimiterConfig.NormalizeRate` | ratelimiter/config.go:61-63 | The result is positive. A positive rate is kept exactly, and any other rate becomes 10. |
| `LimiterConfig.NormalizeBurst` | ratelimiter/config.go:64-66 | The result is positive. A positive burst is kept exactly, and any other burst becomes 5. |
| `LimiterConfig.NormalizeIdempotent` | ratelimiter/config.go:59-72 | Normalising twice is the same as normalising once. |
| `LimiterConfig.InfiniteRateSurvives` | ratelimiter/config.go:11 | The `DefaultInfniteRate` sentinel (MaxFloat64, equal to `rate.Inf`) passes normalisation unchanged. |
| `LimiterConfig.Config.constructor` | ratelimiter/config.go:30-35 | `NewConfig` gives rate 10 and burst 5. |
| `LimiterConfig.Config.WithRate` | ratelimiter/config.go:45-48 | The rate becomes exactly the argument, the burst is unchanged, and the same config is returned. |
| `LimiterConfig.Config.WithBurst` | ratelimiter/config.go:52-55 | The burst becomes exactly the argument, the rate is unchanged, and the same config is returned. |
| `LimiterConfig.DefaultConfig` | ratelimiter/config.go:39-41 | Returns a fresh config with the same fields as `NewConfig`. |
| `LimiterConfig.IsConfigValid` | ratelimiter/config.go:59-72 | A nil config becomes a fresh config with rate 10 and burst 5. A given config is normalised in place, field by field, and returned itself. The result always has a positive rate and burst. An already-valid config is left untouched, so the normalisation is idempotent. |
| `RateLimiter.Limiter.constructor` | ratelimiter/limiter.go:24 | Builds a bucket with exactly the given rate and burst, no tokens, and last update at the zero time. |
| `RateLimiter.Limiter.When` | ratelimiter/limiter.go:30-32 | The new bucket and the returned delay are those of `TokenBucket.Reserve` on the old bucket at `now`. The delay is never negative, and the bucket invariant is kept. |
| `RateLimiter.NewRateLimiter` | ratelimiter/limiter.go:21-26 | The config is normalised first, in place, or a default is used for nil. The bucket's rate and burst are exactly the normalised values, so nil or non-positive inputs give rate 10 and burst 5. |
| `RateLimiter.NewNopLimiter` | ratelimiter/limiter.go:44-46 | Returns a new no-op limiter. |
| `RateLimiter.NopLimiter.When` | ratelimiter/limiter.go:40 | Always returns 0. |
| `RateLimiter.EvenSpacing` | test/limiter_test.go:15-20 | With burst 1 and an integer rate that divides one second, the `i`-th back-to-back delay of a new limiter is exactly `i` intervals of `1s / rate`. Rounding it to that interval leaves it unchanged. |
| `RateLimiter.TwoPerSecondSpacing` | test/limiter_test.go:11-20 | The limiter test's assertion: at rate 2 and burst 1, the `i`-th delay rounded to 500 ms is `i * 500 ms`. |
| `Interfaces.Pipeline.SubmitWithFunc` | interface.go:14 | Logs one immediate submission of `(fn, msg)` and returns the pipeline's reply. |
| `Interfaces.Pipeline.SubmitAfterWithFunc` | interface.go:18 | Logs one delayed submission of `(fn, msg, delay)` and returns the pipeline's reply. |
| `Interfaces.Pipeline.Stop` | interface.go:22 | Logs one stop. |
| `Interfaces.When` | interface.go:30 | Dispatches `When` on a non-nil limiter. It returns the limiter's next delay (0 for the no-op limiter) and advances a token-bucket limiter as `Reserve` does. |
| `Interfaces.EmptyCallback.OnExecLimited` | callback.go:11 | The default callback changes nothing. |
| `Interfaces.NewEmptyCallback` | callback.go:15-17 | Returns a new empty callback. |
| `Interfaces.RecordingCallback.OnExecLimited` | interface.go:38 | Records exactly one notification `(msg, delay)`. |
| `Interfaces.OnExecLimited` | interface.go:38 | Dispatches the notification on a non-nil callback. A recording callback gets exactly `(msg, delay)` appended. The empty callback does nothing. |
| `FlowConfig.Config.constructor` | config.go:16-21 | `NewConfig` holds a new no-op limiter and a new empty callback. |
| `FlowConfig.Config.WithRateLimiter` | config.go:31-34 | Replaces only the limiter and returns the same config. |
| `FlowConfig.Config.WithCallback` | config.go:38-41 | Replaces only the callback and returns the same config. |
| `FlowConfig.DefaultConfig` | config.go:25-27 | Returns a fresh config equal to `NewConfig`'s. |
| `FlowConfig.IsConfigValid` | config.go:45-69 | A nil config becomes a fresh default config. In a given config, a nil limiter becomes a new no-op limiter and a nil callback a new empty callback. Non-nil fields are kept, and the same object is returned with neither field nil. A complete config is left untouched, so the normalisation is idempotent. |
| `FlowControl.Admit` | controller.go:44-48 | A message is delayed exactly when its raw delay is at least half a slice (50 ms). The delay is then positive, a multiple of 100 ms, and within 50 ms of the raw delay. |
| `FlowControl.AdmitIsNearestSlice` | controller.go:44 | The admitted delay is the multiple of 100 ms nearest to the raw delay. |
| `FlowControl.TenPerSecondAdmissions` | test/controller_test.go:51-68 | For a new limiter at rate 10 and burst 1, called back to back, the first message is admitted at once and the `i`-th is delayed by exactly `i * 100 ms`. |
| `FlowControl.StopStep` | controller.go:33-37 | A `Stop` always leaves the guard stopped. It forwards to the pipeline exactly when the guard was still running. |
| `FlowControl.PipelineStops` | controller.go:33-37 | Any run of `Stop` calls stops the pipeline at most once, and not at all once the guard has stopped. |
| `FlowControl.StopForwardedOnce` | controller.go:33-37 | Any sequence of `k > 0` calls to `Stop` stops the pipeline exactly once. No call stops it zero times. |
| `FlowControl.FlowController.constructor` | controller.go:24-28 | Builds a running controller over the given pipeline and complete config. |
| `FlowControl.FlowController.Stop` | controller.go:33-37 | Needs only the once-guard, not the config. Logs a pipeline `Stop` only if the controller was running. The controller ends stopped. Its count of forwarded stops is 1 and can never exceed 1. A valid controller stays valid. |
| `FlowControl.FlowController.Do` | controller.go:41-53 | Needs a non-nil limiter, and a non-nil callback only when the message will be delayed. Makes exactly one pipeline call, never a stop. The call is a delayed submission with the rounded delay when `Admit` delays, and an immediate submission otherwise. A recording callback is notified once, with `(msg, delay)`, exactly in the delayed case. The no-op limiter always gives an immediate submission. A token-bucket limiter is advanced by one reservation. The pipeline's error is returned unchanged. |
| `FlowControl.NewFlowController` | controller.go:19-29 | A nil pipeline gives a nil controller and leaves the config untouched. Otherwise the result is a fresh running controller over the pipeline. A given config is normalised in place: its non-nil fields are kept, a nil limiter becomes a new no-op limiter and a nil callback a new empty callback. A nil config is replaced by a fresh default config (no-op limiter, empty callback). |

## Left out

- Durations.Round: does not model Go's saturation at the int64 bounds, because durations are unbounded integers here. Likewise, overflow of `time.Time` and `time.Duration` arithmetic in the bucket is not modelled. It would need waits longer than 292 years.
- TokenBucket.Reserve: the clock is read once, at `now`. `Delay()` in the source reads the wall clock again. Any time that passes between the reservation and that second reading would shorten the delay, and the model does not capture it.
- TokenBucket.Reserve: `rate.Limiter`'s `limit == 0` branch is not modelled. It cannot be reached, because the rate is normalised to a positive value. Its `lastEvent` field is also left out, because `Reserve` never reads it.
- The rate is an exact real, not a float64. NaN survives the source's `rate <= 0` test, and +Inf differs from `rate.Inf`. Float rounding in `tokensFromDuration` and `durationFromTokens` is not modelled.
- The burst is an unbounded integer. The int64 range and the `int(conf.burst)` conversion are not modelled.
- Thread safety is not modelled: neither `sync.Once` nor the bucket's mutex. `Stop` and `When` are sequential. The model also does not capture a `Do` racing a `Stop`.
- Only the two limiters of this repository (`NopLimiter`, `Limiter`) and a recording callback stand in for caller-supplied `RateLimiter` and `Callback` implementations. A typed nil pointer inside a non-nil interface value is not modelled.
- The pipeline backend (karta and its delay queue) is a recording stub. Its scheduling and its own error behaviour are external.
- The message handle function (`MessageHandleFunc`) is never run by the core. Messages and handlers are opaque values.
- The demo programs and `contrib/lazy/controller.go` are process wiring with no logic of their own.
- FlowControl.FlowController.Do: requires a non-nil limiter, and a non-nil callback when the rounded delay is positive. In those two cases Go calls a method on a nil interface value and panics. A nil field can only arise when it is cleared after the controller was built.
