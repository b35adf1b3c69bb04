/** Shared vocabulary: optional values, minima and maxima, and the few facts about products and set
    sizes that the arithmetic of several modules rests on. */
module Basics {
  datatype Option<+T> = None | Some(value: T)

  function Max(a: int, b: int): int { if a < b then b else a }

  function Min(a: nat, b: nat): nat { if a < b then a else b }

  function MaxReal(a: real, b: real): real { if a < b then b else a }

  function MinReal(a: real, b: real): real { if a < b then a else b }

  /** Request weights below one are charged as one. */
  function AtLeastOne(weight: int): (w: nat)
    ensures w >= 1 && (weight >= 1 ==> w == weight) && (weight < 1 ==> w == 1)
  {
    Max(weight, 1)
  }

  lemma SubsetSize<X>(a: set<X>, b: set<X>)
    requires a <= b
    ensures |a| <= |b|
  {
    assert b == a + (b - a);
  }

  lemma Distribute(a: real, b: real, k: real)
    ensures (a + b) * k == a * k + b * k
    ensures (a - b) * k == a * k - b * k
  {}

  /** Multiplying by a positive number keeps the order, strictly and not. */
  lemma Scale(a: real, b: real, k: real)
    requires k > 0.0
    ensures a <= b <==> a * k <= b * k
    ensures a < b <==> a * k < b * k
  {
    Distribute(b, a, k);
    Sign(b - a, k);
    Sign(a - b, k);
  }

  lemma Sign(a: real, k: real)
    requires k > 0.0
    ensures a > 0.0 ==> a * k > 0.0
    ensures a >= 0.0 ==> a * k >= 0.0
  {}

  lemma Divides(value: real, k: real)
    requires k > 0.0
    ensures value / k * k == value
  {}

  /** The quotient is the number that times the divisor gives the dividend. */
  lemma Quotient(value: real, k: real, q: real)
    requires k > 0.0 && value == q * k
    ensures value / k == q
  {}
}
