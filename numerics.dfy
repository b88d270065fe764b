/**
 * The numeric conversions of Python that the timeline core relies on,
 * stated on exact reals: `int(x)` of a float, `2 ** z`, `round(x, 1)`,
 * and the abstract transcendental functions it calls.
 */
module Numerics {

  /** Python's `int(x)` for a finite float: truncation toward zero. */
  function Trunc(x: real): (r: int)
    ensures x >= 0.0 ==> r >= 0 && r as real <= x < r as real + 1.0
    ensures x < 0.0 ==> r <= 0 && r as real - 1.0 < x <= r as real
  {
    if x >= 0.0 then x.Floor else -((-x).Floor)
  }

  /** `int()` never reverses an order. */
  lemma TruncMonotone(a: real, b: real)
    requires a <= b
    ensures Trunc(a) <= Trunc(b)
  {
  }

  function Pow2(z: nat): (r: nat)
    ensures r >= 1
  {
    if z == 0 then 1 else 2 * Pow2(z - 1)
  }

  lemma {:induction false} Pow2Monotone(a: nat, b: nat)
    requires a <= b
    ensures Pow2(a) <= Pow2(b)
  {
    if a < b {
      Pow2Monotone(a, b - 1);
    }
  }

  function Min(a: real, b: real): (r: real)
    ensures r <= a && r <= b && (r == a || r == b)
  {
    if a <= b then a else b
  }

  function Max(a: real, b: real): (r: real)
    ensures r >= a && r >= b && (r == a || r == b)
  {
    if a >= b then a else b
  }

  /** Python's `abs` on a float. */
  function Abs(x: real): (r: real)
    ensures r >= 0.0 && (r == x || r == -x)
  {
    if x < 0.0 then -x else x
  }

  /** Python's `max(lo, min(hi, v))` on integers. */
  function ClampInt(v: int, lo: int, hi: int): (r: int)
    requires lo <= hi
    ensures lo <= r <= hi
    ensures lo <= v <= hi ==> r == v
  {
    if v < lo then lo else if v > hi then hi else v
  }

  /**
   * Python's `round(x, 1)`: the nearest multiple of 0.1, a tie going to the
   * even tenth.
   */
  function RoundTenth(x: real): (r: real)
    ensures -0.05 <= r - x <= 0.05
  {
    var y := x * 10.0;
    var f := y.Floor;
    var frac := y - f as real;
    var n := if frac < 0.5 then f
             else if frac > 0.5 then f + 1
             else if f % 2 == 0 then f else f + 1;
    n as real / 10.0
  }

  /** A value that is already a tenth is left as it is. */
  lemma RoundTenthOfTenth(n: int)
    ensures RoundTenth(n as real / 10.0) == n as real / 10.0
  {
    var y := (n as real / 10.0) * 10.0;
    assert y == n as real;
    assert y.Floor == n;
  }

  /** Rounding an already rounded value changes nothing. */
  lemma RoundTenthIdempotent(x: real)
    ensures RoundTenth(RoundTenth(x)) == RoundTenth(x)
  {
    var y := x * 10.0;
    var f := y.Floor;
    var frac := y - f as real;
    var n := if frac < 0.5 then f
             else if frac > 0.5 then f + 1
             else if f % 2 == 0 then f else f + 1;
    assert RoundTenth(x) == n as real / 10.0;
    RoundTenthOfTenth(n);
  }

  /** Dividing by the larger of two positive numbers gives the smaller quotient. */
  lemma DivideByLarger(c: real, s1: real, s2: real)
    requires c > 0.0 && 0.0 < s1 <= s2
    ensures 0.0 < c / s2 <= c / s1
  {
    var q1, q2 := c / s1, c / s2;
    assert q1 * s1 == c && q2 * s2 == c;
    assert q2 * s1 <= q2 * s2;
  }

  /** Scaling by a positive factor keeps an order. */
  lemma ScaleOrder(u: real, v: real, w: real)
    requires u <= v && w > 0.0
    ensures u * w <= v * w
  {
    assert (v - u) * w >= 0.0;
  }

  lemma Whole(d: real)
    requires d > 0.0
    ensures d / d == 1.0
  {
  }

  lemma ScaleNonNegative(d: real, w: real)
    requires d >= 0.0 && w >= 0.0
    ensures 0.0 <= d * w
  {
  }

  lemma ScaleBelow(d: real, w: real)
    requires d >= 0.0 && w <= 1.0
    ensures d * w <= d
  {
    assert d * (1.0 - w) >= 0.0;
  }

  lemma ScaleNonPositive(d: real, w: real)
    requires d <= 0.0 && w >= 0.0
    ensures d * w <= 0.0
  {
    assert (-d) * w >= 0.0;
  }

  lemma ScaleAbove(d: real, w: real)
    requires d <= 0.0 && w <= 1.0
    ensures d <= d * w
  {
    assert (-d) * (1.0 - w) >= 0.0;
  }

  /** An offset `p` from `a` that moves toward `b` without passing it stays at or below the larger end. */
  lemma BelowLarger(a: real, b: real, p: real)
    requires a <= b ==> p <= b - a
    requires b < a ==> p <= 0.0
    ensures a + p <= Max(a, b)
  {
  }

  /** The same offset stays at or above the smaller end. */
  lemma AboveSmaller(a: real, b: real, p: real)
    requires a <= b ==> 0.0 <= p
    requires b < a ==> b - a <= p
    ensures Min(a, b) <= a + p
  {
  }

  /** Interpolation `a + (b - a) * w` for a fraction `w` in [0, 1] is not below the smaller end. */
  lemma InterpolationAbove(a: real, b: real, w: real)
    requires 0.0 <= w <= 1.0
    ensures Min(a, b) <= a + (b - a) * w
  {
    var d := b - a;
    if a <= b { ScaleNonNegative(d, w); } else { ScaleAbove(d, w); }
    AboveSmaller(a, b, d * w);
  }

  /** Interpolation `a + (b - a) * w` for a fraction `w` in [0, 1] is not above the larger end. */
  lemma InterpolationBelow(a: real, b: real, w: real)
    requires 0.0 <= w <= 1.0
    ensures a + (b - a) * w <= Max(a, b)
  {
    var d := b - a;
    if a <= b { ScaleBelow(d, w); } else { ScaleNonPositive(d, w); }
    BelowLarger(a, b, d * w);
  }
}
