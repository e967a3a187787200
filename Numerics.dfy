/** Exact-arithmetic stand-ins for the numeric helpers the pipeline borrows from numpy. */
module Numerics {

  /** numpy's `np.round` to an integer: nearest integer, halves to the even neighbour. */
  function RoundHalfEven(x: real): (r: int)
    ensures x - 1.0 / 2.0 <= r as real <= x + 1.0 / 2.0
    ensures r as real - x == 1.0 / 2.0 ==> r % 2 == 0
    ensures x - r as real == 1.0 / 2.0 ==> r % 2 == 0
  {
    var f := x.Floor;
    if x - f as real < 1.0 / 2.0 then f
    else if x - f as real > 1.0 / 2.0 then f + 1
    else if f % 2 == 0 then f
    else f + 1
  }

  /** `np.round(x, decimals)` with `scale` = 10 ** decimals: the nearest multiple of
      `1 / scale`, halves going to the even multiple. */
  function RoundDecimals(x: real, scale: nat): (r: real)
    requires scale > 0
    ensures x - 1.0 / (2 * scale) as real <= r <= x + 1.0 / (2 * scale) as real
  {
    var n := RoundHalfEven(x * scale as real);
    ScaleBack(x, scale as real, n as real);
    n as real / scale as real
  }

  /** The rounded value times the scale is the whole number nearest to `x` times the scale,
      so it is a whole multiple of `1 / scale`. */
  lemma {:induction false} RoundDecimalsScaled(x: real, scale: nat)
    requires scale > 0
    ensures RoundDecimals(x, scale) * scale as real == RoundHalfEven(x * scale as real) as real
  {
    RoundDecimalsIs(x, scale);
    Unscale(RoundDecimals(x, scale), scale as real, RoundHalfEven(x * scale as real) as real);
  }

  lemma {:induction false} Unscale(r: real, s: real, n: real)
    requires s > 0.0 && r == n / s
    ensures r * s == n
  {
  }

  /** Rounding a non-negative value never gives a negative one. */
  lemma {:induction false} RoundDecimalsNonNegative(x: real, scale: nat)
    requires scale > 0 && x >= 0.0
    ensures RoundDecimals(x, scale) >= 0.0
  {
    var n := RoundHalfEven(x * scale as real);
    assert x * scale as real >= 0.0;
    assert n >= 0;
  }

  /** Rounding a value between two integers stays between them. */
  lemma {:induction false} RoundDecimalsBetween(x: real, scale: nat, lo: int, hi: int)
    requires scale > 0 && lo as real <= x <= hi as real
    ensures lo as real <= RoundDecimals(x, scale) <= hi as real
  {
    ScaledBetween(x, scale, lo, hi);
    QuotientBetween(RoundHalfEven(x * scale as real), scale, lo, hi);
    RoundDecimalsIs(x, scale);
  }

  lemma {:induction false} RoundDecimalsIs(x: real, scale: nat)
    requires scale > 0
    ensures RoundDecimals(x, scale) == RoundHalfEven(x * scale as real) as real / scale as real
  {
  }

  /** Scaling keeps a value between two whole numbers, and so does rounding after it. */
  lemma {:induction false} ScaledBetween(x: real, scale: nat, lo: int, hi: int)
    requires scale > 0 && lo as real <= x <= hi as real
    ensures lo * scale <= RoundHalfEven(x * scale as real) <= hi * scale
  {
    var y := x * scale as real;
    var n := RoundHalfEven(y);
    CastProduct(lo, scale);
    CastProduct(hi, scale);
    ScaleMonotone(lo as real, x, scale as real);
    ScaleMonotone(x, hi as real, scale as real);
    NearestBetween(y, n, lo * scale, hi * scale);
  }

  /** The whole number nearest a value between two whole numbers lies between them too. */
  lemma {:induction false} NearestBetween(y: real, n: int, lo: int, hi: int)
    requires lo as real <= y <= hi as real && y - 1.0 / 2.0 <= n as real <= y + 1.0 / 2.0
    ensures lo <= n <= hi
  {
  }

  lemma {:induction false} CastProduct(a: int, b: int)
    ensures (a * b) as real == a as real * b as real
  {
  }

  lemma {:induction false} ScaleMonotone(a: real, b: real, s: real)
    requires a <= b && s > 0.0
    ensures a * s <= b * s
  {
  }

  /** A whole number between `lo * d` and `hi * d` divided by `d` lies between `lo` and `hi`. */
  lemma {:induction false} QuotientBetween(n: int, d: nat, lo: int, hi: int)
    requires d > 0 && lo * d <= n <= hi * d
    ensures lo as real <= n as real / d as real <= hi as real
  {
    CastProduct(lo, d);
    CastProduct(hi, d);
    assert lo as real * d as real <= n as real <= hi as real * d as real;
  }

  lemma {:induction false} ScaleBack(x: real, s: real, n: real)
    requires s > 0.0 && x * s - 1.0 / 2.0 <= n <= x * s + 1.0 / 2.0
    ensures x - 1.0 / (2.0 * s) <= n / s <= x + 1.0 / (2.0 * s)
  {
    assert n / s - x == (n - x * s) / s;
    assert 1.0 / (2.0 * s) == (1.0 / 2.0) / s;
  }

  /** A time axis stored in days is converted to whole seconds as `np.round(t * 86400.)`. */
  function DaysToSeconds(t: real): (r: int)
    ensures t * 86400.0 - 1.0 / 2.0 <= r as real <= t * 86400.0 + 1.0 / 2.0
  {
    RoundHalfEven(t * 86400.0)
  }

  /** Whole days convert exactly. */
  lemma {:induction false} DaysToSecondsOfWholeDays(n: int)
    ensures DaysToSeconds(n as real) == n * 86400
  {
    assert (n as real) * 86400.0 == (n * 86400) as real;
  }

  /** `np.round(t / 600.) * 600` in integer arithmetic: the nearest multiple of 600 s to `t`,
      ties going to the even quotient. */
  function RoundTo600(t: int): (r: int)
    ensures r % 600 == 0
    ensures t - 300 <= r <= t + 300
    ensures t % 600 == 0 ==> r == t
  {
    var q := t / 600;
    var rem := t % 600;
    if rem < 300 then q * 600
    else if rem > 300 then (q + 1) * 600
    else if q % 2 == 0 then q * 600
    else (q + 1) * 600
  }

  function Abs(x: real): (r: real)
    ensures r >= 0.0 && (r == x || r == -x)
  {
    if x < 0.0 then -x else x
  }

  function Max(a: real, b: real): (r: real)
    ensures r >= a && r >= b && (r == a || r == b)
  {
    if a >= b then a else b
  }

  function Min(a: real, b: real): (r: real)
    ensures r <= a && r <= b && (r == a || r == b)
  {
    if a <= b then a else b
  }
}
