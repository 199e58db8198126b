/** The token bucket of golang.org/x/time/rate that the rate limiter wraps,
    reduced to what `Reserve().Delay()` does with one token. Tokens refill
    continuously at `limit` per second up to `burst`; every reservation takes
    one token, going into debt when none is left, and its delay is the time
    the refill needs to repay that debt. The clock is an explicit `now`, in
    nanoseconds since Go's zero time; arithmetic is exact (reals for tokens
    and the limit), not float64. */
module TokenBucket {
  import opened Durations

  /** math.MaxFloat64, written out exactly. */
  const MaxFloat64: real := 179769313486231570814527423731704356798070567525844996598917476803157260780028538760589558632766878171540458953514382464234321326889464182768467546703537516986049910576551282076245490090389328944075868508455133942304583236903222948165808559332123348274797826204144723168738177180919299881250404026184124858368.0

  /** rate.Inf: a limit under which every event is admitted at once. */
  const Inf: real := MaxFloat64

  /** The largest time.Duration; `time.Time.Sub` saturates at it. */
  const MaxDuration: int := 0x7FFF_FFFF_FFFF_FFFF

  /** The state of a rate.Limiter: its limit (events per second), its burst
      (bucket capacity), the tokens available (negative while reservations
      are outstanding) and the instant of the last update. */
  datatype Bucket = Bucket(limit: real, burst: int, tokens: real, last: int)

  /** What every bucket the rate limiter builds satisfies: a positive limit
      and burst (the configuration is normalised first) and never more
      tokens than the burst. */
  predicate Valid(b: Bucket)
  {
    b.limit > 0.0 && b.burst > 0 && b.tokens <= b.burst as real
  }

  /** rate.NewLimiter(limit, burst): no tokens, last updated at Go's zero
      time, so the first reservation finds the bucket refilled. */
  function NewBucket(limit: real, burst: int): (b: Bucket)
    requires limit > 0.0 && burst > 0
    ensures Valid(b)
  {
    Bucket(limit, burst, 0.0, 0)
  }

  /** One reservation: the bucket afterwards and the delay of the event. */
  datatype Reservation = Reservation(next: Bucket, delay: int)

  /** Time since the last update as `advance` sees it: a clock that went
      backwards counts as no time, and `Sub` saturates at MaxDuration. */
  function Elapsed(b: Bucket, now: int): (e: int)
    ensures 0 <= e <= MaxDuration
    ensures now <= b.last ==> e == 0
    ensures b.last <= now <= b.last + MaxDuration ==> e == now - b.last
  {
    var last := if now < b.last then now else b.last;
    if now - last > MaxDuration then MaxDuration else now - last
  }

  /** `Limit.tokensFromDuration`: the tokens that accrue in `d` nanoseconds. */
  function TokensFromDuration(d: int, limit: real): (t: real)
    requires d >= 0 && limit > 0.0
    ensures t >= 0.0
    ensures d > 0 ==> t > 0.0
  {
    d as real / Second as real * limit
  }

  /** `advance`: the tokens available at `now`, the refill capped at the burst. */
  function Advance(b: Bucket, now: int): (t: real)
    requires Valid(b)
    ensures b.tokens <= t <= b.burst as real
    ensures t <= b.tokens + TokensFromDuration(Elapsed(b, now), b.limit)
    ensures Elapsed(b, now) == 0 ==> t == b.tokens
    ensures t < b.burst as real ==> t == b.tokens + TokensFromDuration(Elapsed(b, now), b.limit)
  {
    var t := b.tokens + TokensFromDuration(Elapsed(b, now), b.limit);
    if t > b.burst as real then b.burst as real else t
  }

  /** `Limit.durationFromTokens`: the nanoseconds in which `tokens` accrue,
      truncated to a whole nanosecond as the conversion to Duration does. */
  function DurationFromTokens(tokens: real, limit: real): (d: int)
    requires tokens >= 0.0 && limit > 0.0
    ensures d >= 0
    ensures d as real <= tokens / limit * Second as real < d as real + 1.0
  {
    (tokens / limit * Second as real).Floor
  }

  /** The wait for a balance of `t` tokens left after taking one: none while
      the balance is not negative, otherwise the time to repay the debt. */
  function WaitFor(t: real, limit: real): (d: int)
    requires limit > 0.0
    ensures d >= 0
    ensures t >= 0.0 ==> d == 0
    ensures t < 0.0 ==> d as real <= -t / limit * Second as real < d as real + 1.0
  {
    if t < 0.0 then DurationFromTokens(-t, limit) else 0
  }

  /** A deeper debt never waits less. */
  lemma WaitForMonotone(t1: real, t2: real, limit: real)
    requires limit > 0.0 && t2 <= t1
    ensures WaitFor(t1, limit) <= WaitFor(t2, limit)
  {
    if t1 < 0.0 {
      assert -t1 / limit <= -t2 / limit;
      assert -t1 / limit * Second as real <= -t2 / limit * Second as real;
    }
  }

  /** `reserveN(now, 1, InfDuration)` followed by `Delay()` at the same
      instant. Under the infinite limit nothing changes and the delay is
      zero; otherwise one token is taken from the advanced bucket, the
      bucket is marked updated at `now`, and the delay is the time the refill
      needs to bring the balance back to zero. */
  function Reserve(b: Bucket, now: int): (r: Reservation)
    requires Valid(b)
    ensures Valid(r.next) && r.delay >= 0
    ensures r.next.limit == b.limit && r.next.burst == b.burst
    ensures b.limit == Inf ==> r == Reservation(b, 0)
    ensures b.limit != Inf ==> r.next.last == now
    ensures b.limit != Inf ==> r.next.tokens + 1.0 == Advance(b, now)
    ensures b.limit != Inf && Advance(b, now) >= 1.0 ==> r.delay == 0
    ensures b.limit != Inf && r.next.tokens < 0.0 ==>
      r.delay as real <= -r.next.tokens / b.limit * Second as real < r.delay as real + 1.0
  {
    if b.limit == Inf then
      Reservation(b, 0)
    else
      var t := Advance(b, now) - 1.0;
      Reservation(b.(tokens := t, last := now), WaitFor(t, b.limit))
  }

  /** A second reservation at the same instant is never sooner than the first. */
  lemma {:induction false} ReserveAgainNotSooner(b: Bucket, now: int)
    requires Valid(b)
    ensures Reserve(Reserve(b, now).next, now).delay >= Reserve(b, now).delay
  {
    var r1 := Reserve(b, now);
    if b.limit != Inf {
      var r2 := Reserve(r1.next, now);
      assert r2.next.tokens == r1.next.tokens - 1.0;
      WaitForMonotone(r1.next.tokens, r2.next.tokens, b.limit);
    }
  }

  /** The delays of `k` reservations made one after another at `now`. */
  function BackToBack(b: Bucket, now: int, k: nat): (delays: seq<int>)
    requires Valid(b)
    ensures |delays| == k
    ensures forall i :: 0 <= i < k ==> delays[i] >= 0
    decreases k
  {
    if k == 0 then []
    else
      var r := Reserve(b, now);
      [r.delay] + BackToBack(r.next, now, k - 1)
  }

  /** The `i`-th back-to-back reservation waits for the balance the bucket
      has at `now` minus `i + 1` tokens. */
  lemma {:induction false} BackToBackDelay(b: Bucket, now: int, k: nat, i: nat)
    requires Valid(b) && b.limit != Inf && i < k
    ensures BackToBack(b, now, k)[i] == WaitFor(Advance(b, now) - (i + 1) as real, b.limit)
    decreases i
  {
    var r := Reserve(b, now);
    if i > 0 {
      BackToBackDelay(r.next, now, k - 1, i - 1);
      assert Advance(r.next, now) == Advance(b, now) - 1.0;
    }
  }

  /** Back-to-back delays never decrease. */
  lemma BackToBackNonDecreasing(b: Bucket, now: int, k: nat, i: nat, j: nat)
    requires Valid(b) && i <= j < k
    ensures BackToBack(b, now, k)[i] <= BackToBack(b, now, k)[j]
  {
    if b.limit == Inf {
      InfiniteLimitNeverWaits(b, now, k, i);
      InfiniteLimitNeverWaits(b, now, k, j);
    } else {
      BackToBackDelay(b, now, k, i);
      BackToBackDelay(b, now, k, j);
      WaitForMonotone(Advance(b, now) - (i + 1) as real, Advance(b, now) - (j + 1) as real, b.limit);
    }
  }

  /** Under the infinite limit every reservation is admitted at once. */
  lemma {:induction false} InfiniteLimitNeverWaits(b: Bucket, now: int, k: nat, i: nat)
    requires Valid(b) && b.limit == Inf && i < k
    ensures BackToBack(b, now, k)[i] == 0
    decreases i
  {
    if i > 0 {
      InfiniteLimitNeverWaits(b, now, k - 1, i - 1);
    }
  }

  /** A bucket whose refill has reached the burst at `now`: the first `burst`
      back-to-back reservations run at once, and each later one waits for
      one more token's worth of refill than the one before. */
  lemma FullBucketDelays(b: Bucket, now: int, k: nat, i: nat)
    requires Valid(b) && b.limit != Inf && i < k
    requires Advance(b, now) == b.burst as real
    ensures i < b.burst ==> BackToBack(b, now, k)[i] == 0
    ensures i >= b.burst ==>
      BackToBack(b, now, k)[i] == DurationFromTokens((i + 1 - b.burst) as real, b.limit)
  {
    BackToBackDelay(b, now, k, i);
  }

  /** A bucket just built is full at any instant by which its refill since
      Go's zero time covers the burst. */
  lemma NewBucketRefills(limit: real, burst: int, now: int)
    requires limit > 0.0 && burst > 0 && now >= 0
    requires (if now < MaxDuration then now else MaxDuration) as real * limit >= burst as real * Second as real
    ensures Advance(NewBucket(limit, burst), now) == burst as real
  {
    var e := Elapsed(NewBucket(limit, burst), now);
    assert e == if now < MaxDuration then now else MaxDuration;
    assert e as real / Second as real * limit >= burst as real;
  }
}
