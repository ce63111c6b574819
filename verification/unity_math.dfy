/**
 The scalar helpers of Unity's Mathf that the controller relies on, over the reals.
 */
module UnityMath {

  /** Mathf.Clamp: value forced into [lo, hi], checking the lower bound first. */
  function Clamp(value: real, lo: real, hi: real): (r: real)
    ensures lo <= hi ==> lo <= r <= hi
    ensures lo <= value <= hi ==> r == value
    ensures value < lo ==> r == lo
    ensures lo <= hi && hi < value ==> r == hi
  {
    if value < lo then lo else if value > hi then hi else value
  }

  function Clamp01(value: real): (r: real)
    ensures 0.0 <= r <= 1.0
  {
    Clamp(value, 0.0, 1.0)
  }

  /**
   Mathf.Lerp: a + (b - a) * t with t clamped to [0, 1] first, so the result
   always lies between the two end points, inclusive.
   */
  function Lerp(a: real, b: real, t: real): (r: real)
    ensures a <= b ==> a <= r <= b
    ensures b <= a ==> b <= r <= a
    ensures t <= 0.0 ==> r == a
    ensures t >= 1.0 ==> r == b
  {
    var c := Clamp01(t);
    StepAtEnds(a, b, c);
    if a <= b then
      RisingStepNonNegative(a, b, c);
      RisingStepAtMost(a, b, c);
      a + (b - a) * c
    else
      FallingStepNonPositive(a, b, c);
      FallingStepAtLeast(a, b, c);
      a + (b - a) * c
  }

  /** Lerp moves monotonically from a towards b as t grows. */
  lemma LerpMonotonic(a: real, b: real, t1: real, t2: real)
    requires t1 <= t2
    ensures a <= b ==> Lerp(a, b, t1) <= Lerp(a, b, t2)
    ensures b <= a ==> Lerp(a, b, t2) <= Lerp(a, b, t1)
  {
    var c1, c2 := Clamp01(t1), Clamp01(t2);
    assert c1 <= c2;
    if a <= b {
      RisingStepMonotonic(a, b, c1, c2);
    }
    if b <= a {
      FallingStepMonotonic(a, b, c1, c2);
    }
  }

  // Facts about the step (b - a) * c, one product fact per lemma over plain variables.

  lemma RisingStepNonNegative(a: real, b: real, c: real)
    requires a <= b && 0.0 <= c
    ensures 0.0 <= (b - a) * c
  {
  }

  lemma RisingStepAtMost(a: real, b: real, c: real)
    requires a <= b && c <= 1.0
    ensures (b - a) * c <= b - a
  {
  }

  lemma FallingStepNonPositive(a: real, b: real, c: real)
    requires b <= a && 0.0 <= c
    ensures (b - a) * c <= 0.0
  {
  }

  lemma FallingStepAtLeast(a: real, b: real, c: real)
    requires b <= a && c <= 1.0
    ensures b - a <= (b - a) * c
  {
  }

  lemma StepAtEnds(a: real, b: real, c: real)
    ensures c == 0.0 ==> (b - a) * c == 0.0
    ensures c == 1.0 ==> (b - a) * c == b - a
  {
  }

  lemma RisingStepMonotonic(a: real, b: real, c1: real, c2: real)
    requires a <= b && c1 <= c2
    ensures (b - a) * c1 <= (b - a) * c2
  {
  }

  lemma FallingStepMonotonic(a: real, b: real, c1: real, c2: real)
    requires b <= a && c1 <= c2
    ensures (b - a) * c2 <= (b - a) * c1
  {
  }

  lemma MulNonNegative(x: real, y: real)
    requires x >= 0.0 && y >= 0.0
    ensures x * y >= 0.0
  {
  }

  /** A non-negative quantity scaled by a factor in [0, 1] stays between 0 and itself. */
  lemma UnitMul(d: real, c: real)
    requires 0.0 <= c <= 1.0 && 0.0 <= d
    ensures 0.0 <= d * c <= d
  {
    MulNonNegative(d, c);
    MulNonNegative(d, 1.0 - c);
    assert d * (1.0 - c) == d - d * c;
  }

  /** Multiplying by a non-negative factor keeps the order. */
  lemma MulMonotonic(x: real, y1: real, y2: real)
    requires x >= 0.0 && y1 <= y2
    ensures x * y1 <= x * y2
  {
    MulNonNegative(x, y2 - y1);
    assert x * (y2 - y1) == x * y2 - x * y1;
  }

  /**
   Mathf.RoundToInt: round to the nearest integer, a tie going to the even
   neighbour (the default rounding of .NET's Math.Round).
   */
  function RoundToInt(f: real): (n: int)
    ensures n as real - f <= 0.5 && f - n as real <= 0.5
    ensures (n as real - f == 0.5 || f - n as real == 0.5) ==> n % 2 == 0
  {
    var fl := f.Floor;
    var frac := f - fl as real;
    if frac < 0.5 then fl
    else if frac > 0.5 then fl + 1
    else if fl % 2 == 0 then fl else fl + 1
  }
}
