/** The bitwise operators on the non-negative numbers the address code uses them on. */
module Bits {
  import opened Arithmetic

  function Pow2(k: nat): (p: nat)
    ensures p >= 1
  {
    if k == 0 then 1 else 2 * Pow2(k - 1)
  }

  function BitAnd(a: nat, b: nat): nat
    decreases a
  {
    if a == 0 || b == 0 then 0 else 2 * BitAnd(a / 2, b / 2) + (if a % 2 == 1 && b % 2 == 1 then 1 else 0)
  }

  function BitOr(a: nat, b: nat): nat
    decreases a + b
  {
    if a == 0 && b == 0 then 0 else 2 * BitOr(a / 2, b / 2) + (if a % 2 == 1 || b % 2 == 1 then 1 else 0)
  }

  function ShiftLeft(a: nat, k: nat): nat { a * Pow2(k) }

  function ShiftRight(a: nat, k: nat): nat {
    var p := Pow2(k);
    DivNonNegative(a, p);
    a / p
  }

  lemma DivDiv(x: nat, a: nat, b: nat)
    requires a >= 1 && b >= 1
    ensures a * b >= 1 && x / a / b == x / (a * b)
  {
    MulMonotone(1, b, a);
    var q, r := x / a, x % a;
    var p, s := q / b, q % b;
    assert x == q * a + r && q == p * b + s;
    assert q * a == p * (a * b) + s * a by {
      assert q * a == (p * b + s) * a == p * b * a + s * a;
      assert p * b * a == p * (a * b);
    }
    MulMonotone(s, b - 1, a);
    assert (b - 1) * a == a * b - a;
    DivIs(x, a * b, p);
  }

  lemma {:induction false} ModDouble(x: nat, m: nat)
    requires m >= 1
    ensures x % (2 * m) == 2 * (x / 2 % m) + x % 2
  {
    var h := x / 2;
    assert x == 2 * h + x % 2 && h == (h / m) * m + h % m;
    DivIs(x, 2 * m, h / m) by {
      assert (h / m) * (2 * m) == 2 * ((h / m) * m);
    }
    assert x == (h / m) * (2 * m) + x % (2 * m);
    assert (h / m) * (2 * m) == 2 * ((h / m) * m);
  }

  /** A mask of `k` low bits takes the remainder. */
  lemma {:induction false} AndLowMask(x: nat, k: nat)
    ensures BitAnd(x, Pow2(k) - 1) == x % Pow2(k)
    decreases k
  {
    if k > 0 {
      var m := Pow2(k - 1);
      AndLowMask(x / 2, k - 1);
      ModDouble(x, m);
      assert (2 * m - 1) / 2 == m - 1 && (2 * m - 1) % 2 == 1;
      if m == 1 { assert BitAnd(x / 2, 0) == 0; }
    }
  }

  lemma AndShiftedStep(x: nat, half: nat, rest: nat, p: nat)
    requires BitAnd(x / 2, half) == rest * p
    ensures BitAnd(x, 2 * half) == rest * (2 * p)
  {
    AndEven(x, half);
    MulTwo(rest, p);
  }

  /** The low bits play no part against a mask without them. */
  lemma {:induction false} AndShiftedMask(x: nat, m: nat, k: nat, mask: nat, high: nat)
    requires mask == m * Pow2(k) && high == x / Pow2(k)
    ensures BitAnd(x, mask) == BitAnd(high, m) * Pow2(k)
    decreases k
  {
    if k == 0 {
      assert high == x && mask == m;
    } else {
      var p := Pow2(k - 1);
      var half := m * p;
      MulTwo(m, p);
      DivDiv(x, 2, p);
      AndShiftedMask(x / 2, m, k - 1, half, high);
      AndShiftedStep(x, half, BitAnd(high, m), p);
    }
  }

  lemma MulTwo(y: nat, p: nat)
    ensures y * (2 * p) == 2 * (y * p) && y * p >= 0
  {}

  lemma AndEven(x: nat, n: nat)
    ensures BitAnd(x, 2 * n) == 2 * BitAnd(x / 2, n)
  {
    if x > 0 && n > 0 {
      assert (2 * n) / 2 == n && (2 * n) % 2 == 0;
    } else if n == 0 {
      assert BitAnd(x, 0) == 0 && BitAnd(x / 2, 0) == 0;
    } else {
      assert BitAnd(0, 2 * n) == 0 && BitAnd(0, n) == 0;
    }
  }

  /** Joining a shifted number with one that fits below it adds them. */
  lemma {:induction false} OrDisjoint(a: nat, b: nat, k: nat)
    requires b < Pow2(k)
    ensures BitOr(a * Pow2(k), b) == a * Pow2(k) + b
    decreases k
  {
    if k == 0 {
      OrZero(a);
    } else {
      var p := Pow2(k - 1);
      OrDisjoint(a, b / 2, k - 1);
      assert a * Pow2(k) == 2 * (a * p) by { MulTwo(a, p); }
      var n := a * p;
      assert (2 * n) / 2 == n && (2 * n) % 2 == 0;
    }
  }

  lemma {:induction false} OrZero(a: nat)
    ensures BitOr(a, 0) == a
    decreases a
  {
    if a > 0 { OrZero(a / 2); }
  }
}
