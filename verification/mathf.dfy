/** The few Unity `Mathf` helpers the player controller calls, over real numbers. */
module Mathf {
  import opened RealArith

  /** `Mathf.Min(a, b)`: the smaller of the two values. */
  function Min(a: real, b: real): (r: real)
    ensures r <= a && r <= b
    ensures r == a || r == b
  {
    if a < b then a else b
  }

  /** `Mathf.Clamp(value, min, max)`: below `lo` gives `lo`, above `hi` gives `hi`,
      anything else is returned as it is. */
  function Clamp(v: real, lo: real, hi: real): (r: real)
    ensures lo <= hi ==> lo <= r <= hi
    ensures lo <= v <= hi ==> r == v
    ensures v < lo ==> r == lo
    ensures lo <= hi <= v ==> r == hi
    ensures r == v || r == lo || r == hi
  {
    if v < lo then lo else if v > hi then hi else v
  }

  /** `Mathf.Clamp01`: the fraction forced into [0, 1]. */
  function Clamp01(t: real): (r: real)
    ensures 0.0 <= r <= 1.0
    ensures 0.0 <= t <= 1.0 ==> r == t
    ensures t <= 0.0 ==> r == 0.0
    ensures t >= 1.0 ==> r == 1.0
  {
    Clamp(t, 0.0, 1.0)
  }

  /** Clamp01 never reverses the order of two fractions. */
  lemma Clamp01Monotone(t1: real, t2: real)
    requires t1 <= t2
    ensures Clamp01(t1) <= Clamp01(t2)
  {
  }

  /** `Mathf.Lerp(a, b, t)`: the point a fraction `t` of the way from `a` to `b`,
      with `t` clamped to [0, 1] first, so the result never leaves the segment. */
  function Lerp(a: real, b: real, t: real): (r: real)
    ensures a <= b ==> a <= r <= b
    ensures b <= a ==> b <= r <= a
    ensures t <= 0.0 ==> r == a
    ensures t >= 1.0 ==> r == b
  {
    var u := Clamp01(t);
    ScaleWithin(b - a, u);
    a + Scale(b - a, u)
  }

  /** With `a <= b`, a later fraction never gives an earlier point. */
  lemma LerpMonotone(a: real, b: real, t1: real, t2: real)
    requires a <= b && t1 <= t2
    ensures Lerp(a, b, t1) <= Lerp(a, b, t2)
  {
    Clamp01Monotone(t1, t2);
    ScaleMonotone(b - a, Clamp01(t1), Clamp01(t2));
  }
}
