/** Multiplication and division facts, stated where the proofs need them. */
module Arithmetic {

  lemma MulMonotone(x: int, y: int, m: nat)
    requires x <= y
    ensures m * x <= m * y && x * m <= y * m
  {}

  lemma MulStep(m: int, k: int)
    ensures m * (k + 1) == m * k + m
  {}

  /** The quotient is the number whose multiple is nearest from below. */
  lemma DivIs(x: int, d: nat, q: int)
    requires d >= 1 && q * d <= x < q * d + d
    ensures x / d == q
  {
    var k := x / d - q;
    assert x == (x / d) * d + x % d;
    assert k * d == (x / d) * d - q * d;
    if k >= 1 { MulMonotone(1, k, d); }
    if k <= -1 { MulMonotone(k, -1, d); }
  }

  /** How often `d` fits into `x`. */
  function Fits(x: int, d: nat): nat
    requires d >= 1
    decreases x
  {
    if x < d then 0 else 1 + Fits(x - d, d)
  }

  lemma {:induction false} FitsMonotone(x: int, y: int, d: nat)
    requires d >= 1 && x <= y
    ensures Fits(x, d) <= Fits(y, d)
    decreases y
  {
    if x >= d { FitsMonotone(x - d, y - d, d); }
  }

  lemma {:induction false} FitsIsDiv(x: nat, d: nat)
    requires d >= 1
    ensures Fits(x, d) == x / d
    decreases x
  {
    if x < d {
      DivIs(x, d, 0);
    } else {
      FitsIsDiv(x - d, d);
      var q := (x - d) / d;
      assert x - d == q * d + (x - d) % d;
      assert (q + 1) * d == q * d + d;
      DivIs(x, d, q + 1);
    }
  }

  lemma DivNonNegative(x: nat, d: nat)
    requires d >= 1
    ensures x / d >= 0
  {}
}
