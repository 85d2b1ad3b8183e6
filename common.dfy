/**
 * Scalars shared by the whole library: the R "NA" marker, the sign of a
 * number and rounding of a price to a multiple of a granularity (a tick).
 * Models src/common.h.
 */
module Common {

  /** A double that may be R's NA. `NA` stands for `R_IsNA(d)`. */
  datatype Val = NA | Num(v: real)

  /** Truncation toward zero, as a C++ conversion from double to int does. */
  function Trunc(x: real): (r: int)
    ensures 0.0 <= x ==> 0 <= r && r as real <= x < r as real + 1.0
    ensures x < 0.0 ==> r <= 0 && r as real - 1.0 < x <= r as real
  {
    if x >= 0.0 then x.Floor else -((-x).Floor)
  }

  /** `std::abs`, `std::min` and `std::max` on doubles. */
  function Abs(x: real): real { if x < 0.0 then -x else x }
  function Min(x: real, y: real): real { if y < x then y else x }
  function Max(x: real, y: real): real { if x < y then y else x }

  /** The sign of a number: 1, -1 or 0. */
  function Sign(t: real): (r: int)
    ensures r == 1 <==> t > 0.0
    ensures r == -1 <==> t < 0.0
    ensures r == 0 <==> t == 0.0
  {
    (if 0.0 < t then 1 else 0) - (if t < 0.0 then 1 else 0)
  }

  /** `::round`: the nearest integer, halfway cases away from zero. */
  function Round(x: real): (r: int)
    ensures x - 0.5 <= r as real <= x + 0.5
    ensures r as real == x + 0.5 ==> x >= 0.0
    ensures r as real == x - 0.5 ==> x < 0.0
  {
    if x >= 0.0 then (x + 0.5).Floor else -((-x + 0.5).Floor)
  }

  /** `std::ceil`. */
  function Ceil(x: real): (r: int)
    ensures x <= r as real < x + 1.0
  {
    -((-x).Floor)
  }

  /** A real that is a whole multiple of `a`. */
  predicate IsMultipleOf(r: real, a: real)
    requires a != 0.0
  {
    (r / a).Floor as real == r / a
  }

  /** `roundAny(d, a)`: `d` rounded to the nearest multiple of `a`. */
  function RoundAny(d: real, a: real): (r: real)
    requires a != 0.0
    ensures IsMultipleOf(r, a)
  {
    var k := Round(d / a);
    assert k as real * a / a == k as real;
    k as real * a
  }

  /** `floorAny(d, a)`: `d` rounded down to a multiple of `a`. */
  function FloorAny(d: real, a: real): (r: real)
    requires a != 0.0
    ensures IsMultipleOf(r, a)
  {
    var k := (d / a).Floor;
    assert k as real * a / a == k as real;
    k as real * a
  }

  /** `ceilAny(d, a)`: `d` rounded up to a multiple of `a`. */
  function CeilAny(d: real, a: real): (r: real)
    requires a != 0.0
    ensures IsMultipleOf(r, a)
  {
    var k := Ceil(d / a);
    assert k as real * a / a == k as real;
    k as real * a
  }

  /** Multiplying by a non-negative number keeps an order. */
  lemma MulMonotone(x: real, y: real, a: real)
    requires x <= y && a >= 0.0
    ensures x * a <= y * a
  {
  }

  lemma MulStrict(x: real, y: real, a: real)
    requires x < y && a > 0.0
    ensures x * a < y * a
  {
  }

  lemma DivMonotone(x: real, y: real, a: real)
    requires x <= y && a > 0.0
    ensures x / a <= y / a
  {
    MulMonotone(x, y, 1.0 / a);
    assert x / a == x * (1.0 / a);
    assert y / a == y * (1.0 / a);
  }

  /** A positive divisor keeps the order of a value and itself. */
  lemma RatioVsOne(x: real, e: real)
    requires e > 0.0
    ensures e <= x ==> 1.0 <= x / e
    ensures x <= e ==> x / e <= 1.0
  {
    if e <= x {
      DivMonotone(e, x, e);
    } else {
      DivMonotone(x, e, e);
    }
  }

  /** Multiplication distributes over a shift by a constant. */
  lemma MulShift(x: real, c: real, a: real)
    ensures (x + c) * a == x * a + c * a
  {
  }

  /** Multiplying out a bound on a quotient by a positive divisor. */
  lemma QuotientAbove(d: real, a: real, x: real)
    requires a > 0.0 && x <= d / a
    ensures x * a <= d
  {
  }

  lemma QuotientBelow(d: real, a: real, y: real)
    requires a > 0.0 && d / a <= y
    ensures d <= y * a
  {
  }

  lemma QuotientStrictlyBelow(d: real, a: real, y: real)
    requires a > 0.0 && d / a < y
    ensures d < y * a
  {
  }

  lemma QuotientStrictlyAbove(d: real, a: real, x: real)
    requires a > 0.0 && x < d / a
    ensures x * a < d
  {
  }

  /** `k * a` lies within half of `a` of `d` when `k` lies within half a
      unit of `d / a`. */
  lemma ScaleHalf(d: real, a: real, k: real)
    requires a > 0.0 && d / a - 0.5 <= k <= d / a + 0.5
    ensures d - a / 2.0 <= k * a <= d + a / 2.0
  {
    QuotientBelow(d, a, k + 0.5);
    QuotientAbove(d, a, k - 0.5);
    MulShift(k, 0.5, a);
    MulShift(k, -0.5, a);
  }

  /** `x * a <= d < x * a + a` when `x <= d / a < x + 1`. */
  lemma ScaleBelow(d: real, a: real, x: real)
    requires a > 0.0 && x <= d / a < x + 1.0
    ensures x * a <= d < x * a + a
  {
    QuotientAbove(d, a, x);
    QuotientStrictlyBelow(d, a, x + 1.0);
    MulShift(x, 1.0, a);
  }

  /** `x * a - a < d <= x * a` when `d / a <= x < d / a + 1`. */
  lemma ScaleAbove(d: real, a: real, x: real)
    requires a > 0.0 && d / a <= x < d / a + 1.0
    ensures x * a - a < d <= x * a
  {
    QuotientBelow(d, a, x);
    QuotientStrictlyAbove(d, a, x - 1.0);
    MulShift(x, -1.0, a);
  }

  /** Rounding to a positive granularity moves a value by at most half of it. */
  lemma RoundAnyNear(d: real, a: real)
    requires a > 0.0
    ensures d - a / 2.0 <= RoundAny(d, a) <= d + a / 2.0
  {
    ScaleHalf(d, a, Round(d / a) as real);
  }

  /** `roundAny` never reverses the order of two values (positive granularity). */
  lemma RoundAnyMonotone(d1: real, d2: real, a: real)
    requires a > 0.0 && d1 <= d2
    ensures RoundAny(d1, a) <= RoundAny(d2, a)
  {
    DivMonotone(d1, d2, a);
    RoundMonotone(d1 / a, d2 / a);
    MulMonotone(Round(d1 / a) as real, Round(d2 / a) as real, a);
  }

  /** `::round` never reverses the order of two values. */
  lemma RoundMonotone(x: real, y: real)
    requires x <= y
    ensures Round(x) <= Round(y)
  {
  }

  /** `floorAny(d, a) <= d < floorAny(d, a) + a` for a positive granularity. */
  lemma FloorAnyBounds(d: real, a: real)
    requires a > 0.0
    ensures FloorAny(d, a) <= d < FloorAny(d, a) + a
  {
    ScaleBelow(d, a, (d / a).Floor as real);
  }

  /** `ceilAny(d, a) - a < d <= ceilAny(d, a)` for a positive granularity. */
  lemma CeilAnyBounds(d: real, a: real)
    requires a > 0.0
    ensures CeilAny(d, a) - a < d <= CeilAny(d, a)
  {
    ScaleAbove(d, a, Ceil(d / a) as real);
  }

  /** Number of leading NA cells of `s`. */
  function LeadingNACount(s: seq<Val>): (k: nat)
    ensures k <= |s|
    ensures forall i :: 0 <= i < k ==> s[i].NA?
    ensures k == |s| || s[k].Num?
  {
    if s == [] || s[0].Num? then 0 else 1 + LeadingNACount(s[1..])
  }

  /** No NA follows a number: after the leading NA run every cell is a number. */
  predicate NoGaps(s: seq<Val>)
  {
    forall i, j :: 0 <= i < j < |s| && s[i].Num? ==> s[j].Num?
  }

  /** From the first number on, a series without gaps holds numbers. */
  lemma NumbersAfterLeading(s: seq<Val>)
    requires NoGaps(s)
    ensures forall j :: LeadingNACount(s) <= j < |s| ==> s[j].Num?
  {
    var lead := LeadingNACount(s);
    forall j | lead <= j < |s|
      ensures s[j].Num?
    {
      if lead < j {
        assert s[lead].Num?;
      }
    }
  }
}
