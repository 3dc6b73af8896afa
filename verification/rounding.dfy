/** `round_by_part`: snapping a value to a multiple of a step, with Python's rounding. */
module Rounding {
  import opened Wrappers

  /** Distance between two reals. */
  function Dist(x: real, y: real): (d: real)
    ensures d >= 0.0
    ensures d == x - y || d == y - x
  {
    if x >= y then x - y else y - x
  }

  /**
   * Python's `round` on one argument: the nearest integer, and on a tie
   * (a fractional part of exactly one half) the even one.
   */
  function RoundHalfEven(x: real): (n: int)
    ensures Dist(x, n as real) <= 0.5
    ensures Dist(x, n as real) == 0.5 ==> n % 2 == 0
  {
    var f := x.Floor;
    var frac := x - f as real;
    if frac < 0.5 then f
    else if frac > 0.5 then f + 1
    else if f % 2 == 0 then f
    else f + 1
  }

  /** Any integer within one half of `x`, even on a tie, is the one `RoundHalfEven` picks. */
  lemma RoundHalfEvenUnique(x: real, n: int)
    requires Dist(x, n as real) < 0.5 || (Dist(x, n as real) == 0.5 && n % 2 == 0)
    ensures RoundHalfEven(x) == n
  {
  }

  /** `RoundHalfEven` is at least as close to `x` as any other integer. */
  lemma RoundHalfEvenNearest(x: real, k: int)
    ensures Dist(x, RoundHalfEven(x) as real) <= Dist(x, k as real)
  {
    var n := RoundHalfEven(x);
    if k != n {
      assert 1.0 <= Dist(k as real, n as real) <= Dist(x, k as real) + Dist(x, n as real);
    }
  }

  /**
   * `round_by_part`: a ValueError when `part` is not positive, otherwise the
   * quotient `value / part` rounded half-to-even and scaled back by `part`.
   */
  function RoundByPart(value: real, part: real): (r: Result<real, Error>)
    ensures r.Failure? <==> part <= 0.0
    ensures r.Failure? ==> r.error == ValueError(PartNotPositive)
  {
    if part <= 0.0 then Failure(ValueError(PartNotPositive))
    else Success(RoundHalfEven(value / part) as real * part)
  }

  /** Unfolds `RoundByPart` for a positive part, for the lemmas below. */
  lemma RoundByPartValue(value: real, part: real)
    requires part > 0.0
    ensures RoundByPart(value, part) == Success(RoundHalfEven(value / part) as real * part)
  {
  }

  /**
   * `r` is the multiple `q * part` of a positive `part`, where `q` is an
   * integer within one half of `value / part`, and even on a tie.
   */
  predicate IsRoundedMultiple(value: real, part: real, q: int, r: real)
  {
    part > 0.0 && r == q as real * part
    && Dist(value / part, q as real) <= 0.5
    && (Dist(value / part, q as real) == 0.5 ==> q % 2 == 0)
  }

  /**
   * For a positive part the call succeeds with an integer multiple of `part`,
   * whose multiplier is a half-to-even rounding of `value / part`.
   */
  lemma RoundByPartMultiple(value: real, part: real)
    requires part > 0.0
    ensures RoundByPart(value, part).Success?
    ensures exists q: int :: IsRoundedMultiple(value, part, q, RoundByPart(value, part).value)
  {
    RoundByPartValue(value, part);
    var q := RoundHalfEven(value / part);
    RoundedMultipleWitness(value, part, value / part, q, RoundByPart(value, part).value);
  }

  /** The rounded quotient, passed as a plain `x`, witnesses `IsRoundedMultiple`. */
  lemma RoundedMultipleWitness(value: real, part: real, x: real, q: int, r: real)
    requires part > 0.0 && x == value / part && q == RoundHalfEven(x) && r == q as real * part
    ensures IsRoundedMultiple(value, part, q, r)
  {
  }

  /**
   * For a positive part the result lies within `part / 2` of `value`, and on
   * a tie the multiplier `round(value / part)` is even.
   */
  lemma RoundByPartWithinHalf(value: real, part: real)
    requires part > 0.0
    ensures RoundByPart(value, part).Success?
    ensures Dist(value, RoundByPart(value, part).value) <= part / 2.0
    ensures Dist(value, RoundByPart(value, part).value) == part / 2.0 ==> RoundHalfEven(value / part) % 2 == 0
  {
    RoundByPartValue(value, part);
    var y := RoundHalfEven(value / part) as real;
    ScaledWithinHalf(value, part, value / part, y, RoundByPart(value, part).value);
  }

  /** No multiple of a positive `part` is closer to `value` than the result. */
  lemma RoundByPartNearest(value: real, part: real, k: int)
    requires part > 0.0
    ensures RoundByPart(value, part).Success?
    ensures Dist(value, RoundByPart(value, part).value) <= Dist(value, k as real * part)
  {
    RoundByPartValue(value, part);
    RoundHalfEvenNearest(value / part, k);
    var y := RoundHalfEven(value / part) as real;
    ScaledNearest(value, part, value / part, y, k as real, RoundByPart(value, part).value, k as real * part);
  }

  /** Within one half in quotient space is within `part / 2` after scaling, ties included. */
  lemma ScaledWithinHalf(value: real, part: real, x: real, y: real, r: real)
    requires part > 0.0 && x == value / part && r == y * part && Dist(x, y) <= 0.5
    ensures Dist(value, r) <= part / 2.0
    ensures Dist(value, r) == part / 2.0 ==> Dist(x, y) == 0.5
  {
    QuotientTimesPart(value, part, x);
    ScaledDistance(value, r, x, y, part);
    HalfBound(Dist(x, y), part, Dist(value, r));
  }

  /** A quotient closer to `y` than to `z` makes `value` closer to `y * part` than to `z * part`. */
  lemma ScaledNearest(value: real, part: real, x: real, y: real, z: real, r: real, m: real)
    requires part > 0.0 && x == value / part && r == y * part && m == z * part
    requires Dist(x, y) <= Dist(x, z)
    ensures Dist(value, r) <= Dist(value, m)
  {
    QuotientTimesPart(value, part, x);
    ScaledDistance(value, r, x, y, part);
    ScaledDistance(value, m, x, z, part);
    ScaledOrder(Dist(x, y), Dist(x, z), part, Dist(value, r), Dist(value, m));
  }

  /** A product of two non-negative reals is non-negative. */
  lemma MulNonNegative(a: real, b: real)
    requires a >= 0.0 && b >= 0.0
    ensures a * b >= 0.0
  {
  }

  /** A product of two positive reals is positive. */
  lemma MulPositive(a: real, b: real)
    requires a > 0.0 && b > 0.0
    ensures a * b > 0.0
  {
  }

  /** Dividing by a positive part and multiplying back gives the value. */
  lemma QuotientTimesPart(value: real, part: real, x: real)
    requires part > 0.0 && x == value / part
    ensures value == x * part
  {
  }

  /** When `v` and `r` are `x` and `y` scaled by `p > 0`, so is their distance. */
  lemma ScaledDistance(v: real, r: real, x: real, y: real, p: real)
    requires p > 0.0 && v == x * p && r == y * p
    ensures Dist(v, r) == Dist(x, y) * p
  {
    var d := Dist(x, y);
    if x >= y {
      assert v - r == (x - y) * p;
      MulNonNegative(x - y, p);
      assert d * p == (x - y) * p;
    } else {
      assert r - v == (y - x) * p;
      MulPositive(y - x, p);
      assert d * p == (y - x) * p;
    }
  }

  /** A distance of at most one half, scaled by `p > 0`, is at most `p / 2`; equal only on a tie. */
  lemma HalfBound(d: real, p: real, scaled: real)
    requires p > 0.0 && 0.0 <= d <= 0.5 && scaled == d * p
    ensures scaled <= p / 2.0
    ensures scaled == p / 2.0 ==> d == 0.5
  {
    assert p / 2.0 - scaled == (0.5 - d) * p;
    if d < 0.5 {
      MulPositive(0.5 - d, p);
    }
  }

  /** Scaling by `p > 0` keeps the order of two distances. */
  lemma ScaledOrder(a: real, b: real, p: real, scaledA: real, scaledB: real)
    requires p > 0.0 && a <= b && scaledA == a * p && scaledB == b * p
    ensures scaledA <= scaledB
  {
    assert scaledB - scaledA == (b - a) * p;
    MulNonNegative(b - a, p);
  }

  /** Worked cases with a step of 22.5 degrees. */
  lemma RoundByPartExamples()
    ensures RoundByPart(10.0, 22.5) == Success(0.0)
    ensures RoundByPart(12.0, 22.5) == Success(22.5)
    ensures RoundByPart(100.0, 22.5) == Success(90.0)
    ensures RoundByPart(5.0, 0.0).Failure? && RoundByPart(5.0, -1.0).Failure? && RoundByPart(5.0, -0.5).Failure?
  {
    RoundHalfEvenUnique(10.0 / 22.5, 0);
    RoundHalfEvenUnique(12.0 / 22.5, 1);
    RoundHalfEvenUnique(100.0 / 22.5, 4);
  }
}
