/** Facts about quotients of the real numbers that stand in for JavaScript's division. */
module Ratios {

  /** Fractions over one denominator add up numerator by numerator. */
  lemma {:induction false} SameDenominator(a: real, b: real, d: real)
    requires d != 0.0
    ensures a / d + b / d == (a + b) / d
  {
  }

  /** A non-zero whole number over itself is one. */
  lemma {:induction false} SelfRatio(x: int)
    requires x != 0
    ensures x as real / x as real == 1.0
  {
  }

  /** A ratio of a non-negative number over a larger positive one. */
  lemma {:induction false} UnitRatio(n: real, d: real)
    requires 0.0 <= n <= d && 0.0 < d
    ensures 0.0 <= n / d <= 1.0
    ensures n == d ==> n / d == 1.0
  {
    var q := n / d;
    assert q * d == n;
    assert (q - 1.0) * d == n - d <= 0.0;
  }
}
