/** Products and quotients of reals, each bound stated in a lemma of its own.
    The controller scales the hand drawback by the charge fraction and divides
    the charge time by its maximum; these names let the bounds on those terms
    be used wherever the terms occur. */
module RealArith {

  /** The signed length `d` scaled by the factor `u`. */
  function Scale(d: real, u: real): real {
    d * u
  }

  lemma ScaleNonNegative(d: real, u: real)
    requires d >= 0.0 && u >= 0.0
    ensures Scale(d, u) >= 0.0
  {
  }

  lemma ScaleAtMost(d: real, u: real)
    requires d >= 0.0 && u <= 1.0
    ensures Scale(d, u) <= d
  {
  }

  lemma ScaleNonPositive(d: real, u: real)
    requires d <= 0.0 && u >= 0.0
    ensures Scale(d, u) <= 0.0
  {
  }

  lemma ScaleAtLeast(d: real, u: real)
    requires d <= 0.0 && u <= 1.0
    ensures d <= Scale(d, u)
  {
  }

  lemma ScaleByZero(d: real, u: real)
    requires u == 0.0
    ensures Scale(d, u) == 0.0
  {
  }

  lemma ScaleByOne(d: real, u: real)
    requires u == 1.0
    ensures Scale(d, u) == d
  {
  }

  /** Scaling by a non-negative length keeps the order of two factors. */
  lemma ScaleMonotone(d: real, u: real, v: real)
    requires d >= 0.0 && u <= v
    ensures Scale(d, u) <= Scale(d, v)
  {
  }

  /** A fraction u in [0, 1] of a length d lies between 0 and d, whatever the
      sign of d; fraction 0 is 0 and fraction 1 is d. */
  lemma ScaleWithin(d: real, u: real)
    ensures 0.0 <= u <= 1.0 && d >= 0.0 ==> 0.0 <= Scale(d, u) <= d
    ensures 0.0 <= u <= 1.0 && d <= 0.0 ==> d <= Scale(d, u) <= 0.0
    ensures u == 0.0 ==> Scale(d, u) == 0.0
    ensures u == 1.0 ==> Scale(d, u) == d
  {
    if 0.0 <= u <= 1.0 && d >= 0.0 {
      ScaleNonNegative(d, u);
      ScaleAtMost(d, u);
    }
    if 0.0 <= u <= 1.0 && d <= 0.0 {
      ScaleNonPositive(d, u);
      ScaleAtLeast(d, u);
    }
    if u == 0.0 {
      ScaleByZero(d, u);
    }
    if u == 1.0 {
      ScaleByOne(d, u);
    }
  }

  /** The share `c / m` of a positive whole `m`. */
  function Fraction(c: real, m: real): real
    requires m > 0.0
  {
    c / m
  }

  lemma FractionNonNegative(c: real, m: real)
    requires m > 0.0 && c >= 0.0
    ensures Fraction(c, m) >= 0.0
  {
  }

  lemma FractionNonPositive(c: real, m: real)
    requires m > 0.0 && c <= 0.0
    ensures Fraction(c, m) <= 0.0
  {
  }

  lemma FractionAtMostOne(c: real, m: real)
    requires m > 0.0 && c <= m
    ensures Fraction(c, m) <= 1.0
  {
  }

  lemma FractionAtLeastOne(c: real, m: real)
    requires m > 0.0 && c >= m
    ensures Fraction(c, m) >= 1.0
  {
  }

  /** Dividing by a positive whole keeps the order of two values. */
  lemma FractionMonotone(c1: real, c2: real, m: real)
    requires m > 0.0 && c1 <= c2
    ensures Fraction(c1, m) <= Fraction(c2, m)
  {
  }

  /** A part in [0, m] is a fraction in [0, 1]; a part of at least m is at
      least 1 and a part of at most 0 is at most 0. */
  lemma FractionWithin(c: real, m: real)
    requires m > 0.0
    ensures 0.0 <= c <= m ==> 0.0 <= Fraction(c, m) <= 1.0
    ensures c >= m ==> Fraction(c, m) >= 1.0
    ensures c <= 0.0 ==> Fraction(c, m) <= 0.0
    ensures c == m ==> Fraction(c, m) == 1.0
    ensures c == 0.0 ==> Fraction(c, m) == 0.0
  {
    if c >= 0.0 {
      FractionNonNegative(c, m);
    }
    if c <= m {
      FractionAtMostOne(c, m);
    }
    if c >= m {
      FractionAtLeastOne(c, m);
    }
    if c <= 0.0 {
      FractionNonPositive(c, m);
    }
  }
}
