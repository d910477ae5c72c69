/** Sizes of sets and multiples of a step, for the bounds of several modules. */
module Measures {
  lemma Smaller<T>(a: set<T>, b: set<T>)
    requires a <= b
    ensures |a| <= |b|
  {
    assert b == a + (b - a);
  }

  lemma OneMore(k: int, d: int)
    ensures (k + 1) * d == k * d + d && d * (k + 1) == d * k + d
  {
  }

  lemma Scaled(x: int, y: int, k: nat)
    requires x <= y
    ensures x * k <= y * k && k * x <= k * y
  {
  }

  /** k steps of d fit into m. */
  lemma FitsIn(k: int, d: int, m: int)
    requires d > 0 && k * d <= m
    ensures k <= m / d
  {
    var q := m / d;
    assert m < q * d + d;
    if q < k {
      OneMore(q, d);
      Scaled(q + 1, k, d);
    }
  }
}
