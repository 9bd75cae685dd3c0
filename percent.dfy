/** `Math.round(a / b * 100)` on non-negative integer counts, computed
    exactly in integer arithmetic. */
module Percent {

  /** The numbers the rollups can produce: `a / b` with `b == 0` is `NaN` when
      `a == 0` and `Infinity` otherwise, and `Math.max()` of nothing is
      `-Infinity`; `Math.round` leaves all three as they are. */
  datatype JsNumber = Finite(value: int) | NaN | Infinity | NegativeInfinity

  /** The integer nearest to `100 * a / b`, a half rounding up (as
      `Math.round` does). */
  function RoundedPercent(a: nat, b: nat): (r: nat)
    requires b > 0
    ensures 2 * b * r <= 200 * a + b < 2 * b * r + 2 * b
  {
    (200 * a + b) / (2 * b)
  }

  /** The rounding bounds pin the result down: any `r` within them is it. */
  lemma RoundedPercentUnique(a: nat, b: nat, r: nat)
    requires b > 0
    requires 2 * b * r <= 200 * a + b < 2 * b * r + 2 * b
    ensures RoundedPercent(a, b) == r
  {
    var q := RoundedPercent(a, b);
    if q < r {
      MulMono(2 * b, q + 1, r);
    } else if q > r {
      MulMono(2 * b, r + 1, q);
    }
  }

  /** A share of at most the whole rounds to at most 100. */
  lemma RoundedPercentAtMost100(a: nat, b: nat)
    requires 0 < b && a <= b
    ensures RoundedPercent(a, b) <= 100
  {
    var r := RoundedPercent(a, b);
    if r > 100 {
      // then 2 * b * r >= 202 * b > 200 * a + b, against the rounding bounds
      MulMono(2 * b, 101, r);
    }
  }

  /** None of the whole is 0%, all of it is 100%. */
  lemma RoundedPercentEnds(b: nat)
    requires b > 0
    ensures RoundedPercent(0, b) == 0
    ensures RoundedPercent(b, b) == 100
  {
    var z := RoundedPercent(0, b);
    if z > 0 {
      MulMono(2 * b, 1, z);
    }
    var h := RoundedPercent(b, b);
    if h > 100 {
      MulMono(2 * b, 101, h);
    } else if h < 100 {
      MulMono(2 * b, h + 1, 100);
    }
  }

  /** A larger share never rounds to a smaller percentage. */
  lemma RoundedPercentMonotone(a1: nat, a2: nat, b: nat)
    requires 0 < b && a1 <= a2
    ensures RoundedPercent(a1, b) <= RoundedPercent(a2, b)
  {
    var r1, r2 := RoundedPercent(a1, b), RoundedPercent(a2, b);
    if r1 > r2 {
      MulMono(2 * b, r2 + 1, r1);
    }
  }

  /** `Math.round(a / b * 100)` over the whole of JavaScript's number line:
      with a positive divisor, the integer within a half of `100a/b` (and at
      most 100 when `a` is a part of `b`); `0/0` is `NaN`, and a positive
      count over 0 is `Infinity`. */
  function RoundedRatioPercent(a: nat, b: nat): (r: JsNumber)
    ensures b > 0 ==> r.Finite? && 2 * b * r.value <= 200 * a + b < 2 * b * r.value + 2 * b
    ensures b > 0 && a <= b ==> 0 <= r.value <= 100
    ensures b == 0 && a == 0 ==> r.NaN?
    ensures b == 0 && a > 0 ==> r.Infinity?
  {
    PartRoundsToAtMost100(a, b);
    if b > 0 then Finite(RoundedPercent(a, b))
    else if a == 0 then NaN
    else Infinity
  }

  /** `RoundedPercentAtMost100` for whichever `a` and `b` satisfy its terms. */
  lemma PartRoundsToAtMost100(a: nat, b: nat)
    ensures 0 < b && a <= b ==> RoundedPercent(a, b) <= 100
  {
    if 0 < b && a <= b {
      RoundedPercentAtMost100(a, b);
    }
  }

  /** Multiplying by a non-negative factor preserves `<=`. */
  lemma MulMono(k: nat, x: int, y: int)
    requires x <= y
    ensures k * x <= k * y
  {
  }
}
