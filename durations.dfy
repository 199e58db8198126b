/** Go's `time.Duration` as an unbounded count of nanoseconds, with the
    rounding the flow controller applies to every delay it computes
    (`time.Duration.Round`, halves rounded away from zero). */
module Durations {

  const Nanosecond: int := 1
  const Millisecond: int := 1_000_000
  const Second: int := 1_000_000_000

  function Abs(x: int): nat { if x < 0 then -x else x }

  /** A positive multiple of a positive number is at least that number. */
  lemma {:induction false} ScaledAtLeast(a: int, m: int)
    requires a >= 1 && m > 0
    ensures a * m >= m
  {
    if a > 1 {
      ScaledAtLeast(a - 1, m);
      assert a * m == (a - 1) * m + m;
    }
  }

  /** A non-zero multiple of `m` is at least `m` away from zero. */
  lemma NonZeroMultiple(a: int, m: int)
    requires a != 0 && m > 0
    ensures Abs(a * m) >= m
  {
    if a > 0 {
      ScaledAtLeast(a, m);
    } else {
      ScaledAtLeast(-a, m);
      assert a * m == -((-a) * m);
    }
  }

  /** `(k * m) % m == 0` for a positive modulus. */
  lemma MultipleHasNoRemainder(k: int, m: int)
    requires m > 0
    ensures (k * m) % m == 0
  {
    var q, s := (k * m) / m, (k * m) % m;
    assert (k - q) * m == s by {
      assert k * m == q * m + s;
    }
    if k != q {
      NonZeroMultiple(k - q, m);
    }
  }

  /** A number without remainder is the product of its quotient and `m`. */
  lemma NoRemainderIsMultiple(d: int, m: int)
    requires m > 0 && d % m == 0
    ensures d == (d / m) * m
  {
  }

  /** Both neighbouring multiples of `m` around `n`, and their negations,
      leave no remainder. */
  lemma NeighbouringMultiples(n: int, m: int)
    requires m > 0
    ensures (n - n % m) % m == 0 && (n - n % m + m) % m == 0
    ensures (-(n - n % m)) % m == 0 && (-(n - n % m + m)) % m == 0
  {
    var q := n / m;
    assert n - n % m == q * m;
    assert n - n % m + m == (q + 1) * m;
    assert -(n - n % m) == (-q) * m;
    assert -(n - n % m + m) == (-q - 1) * m;
    MultipleHasNoRemainder(q, m);
    MultipleHasNoRemainder(q + 1, m);
    MultipleHasNoRemainder(-q, m);
    MultipleHasNoRemainder(-q - 1, m);
  }

  /** The negation of a multiple of `m` is a multiple of `m`. */
  lemma NegatedMultiple(x: int, m: int)
    requires m > 0 && x % m == 0
    ensures (-x) % m == 0
  {
    NoRemainderIsMultiple(x, m);
    assert -x == (-(x / m)) * m;
    MultipleHasNoRemainder(-(x / m), m);
  }

  /** Two multiples of `m` that differ by less than `m` are equal. */
  lemma CloseMultiplesAreEqual(x: int, y: int, m: int)
    requires m > 0 && x % m == 0 && y % m == 0 && Abs(x - y) < m
    ensures x == y
  {
    NoRemainderIsMultiple(x, m);
    NoRemainderIsMultiple(y, m);
    var k := x / m - y / m;
    assert x - y == k * m;
    if k != 0 {
      NonZeroMultiple(k, m);
    }
  }

  /** The multiples of `m` just below and just above a non-negative `n`:
      the lower one is zero exactly when `n` is below `m`. */
  lemma MagnitudeNeighbours(n: int, m: int)
    requires n >= 0 && m > 0
    ensures 0 <= n % m < m
    ensures (n - n % m) % m == 0 && (n - n % m + m) % m == 0
    ensures n - n % m == 0 <==> n < m
  {
    NeighbouringMultiples(n, m);
    if n >= m {
      var q := n / m;
      assert n - n % m == q * m;
      assert q >= 1;
      ScaledAtLeast(q, m);
    }
  }

  /** Rounding of a non-negative magnitude `n` to the nearest multiple of
      `m`, a remainder of exactly half of `m` rounded up. */
  function RoundMagnitude(n: int, m: int): (r: int)
    requires n >= 0 && m > 0
    ensures r >= 0 && r % m == 0 && 2 * Abs(r - n) <= m
    ensures 2 * Abs(r - n) == m ==> r > n
    ensures r == 0 <==> 2 * n < m
  {
    var rem := n % m;
    MagnitudeNeighbours(n, m);
    if rem + rem < m then
      n - rem
    else
      n + m - rem
  }

  /** `time.Duration.Round(m)`: the multiple of `m` nearest to `d`, halfway
      values rounded away from zero; a non-positive `m` leaves `d` as it is.
      Go computes a negative `d` through the truncating `%`, which amounts to
      rounding `-d` and negating. The int64 saturation of Go's version (a
      result beyond the range of time.Duration) is not modelled, since
      durations here are unbounded. */
  function Round(d: int, m: int): (r: int)
    ensures m <= 0 ==> r == d
    ensures m > 0 ==> r % m == 0 && 2 * Abs(r - d) <= m
    ensures m > 0 && 2 * Abs(r - d) == m ==> Abs(r) > Abs(d)
    ensures d >= 0 ==> r >= 0
    ensures d <= 0 ==> r <= 0
    ensures m > 0 && d >= 0 ==> (r == 0 <==> 2 * d < m)
  {
    if m <= 0 then d
    else if d >= 0 then RoundMagnitude(d, m)
    else
      var r := RoundMagnitude(-d, m);
      NegatedMultiple(r, m);
      -r
  }

  /** Round picks a nearest multiple: no multiple of `m` is closer to `d`. */
  lemma {:induction false} RoundIsNearest(d: int, m: int, q: int)
    requires m > 0
    ensures Abs(Round(d, m) - d) <= Abs(q * m - d)
  {
    var r := Round(d, m);
    NoRemainderIsMultiple(r, m);
    var k := q - r / m;
    assert q * m - r == k * m;
    if k != 0 {
      NonZeroMultiple(k, m);
    }
  }

  /** A duration that already is a multiple of `m` is left unchanged. */
  lemma {:induction false} RoundOfMultiple(k: int, m: int)
    requires m > 0
    ensures Round(k * m, m) == k * m
  {
    MultipleHasNoRemainder(k, m);
    CloseMultiplesAreEqual(Round(k * m, m), k * m, m);
  }
}
