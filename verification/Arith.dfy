/** Facts about products and quotients that the solver does not find by itself. */
module Arith {

  lemma MulMonotone(b: nat, x: int, y: int)
    requires x <= y
    ensures b * x <= b * y
  {
  }

  lemma MulPositive(a: nat, b: nat)
    requires a > 0 && b > 0
    ensures a * b > 0
  {
  }

  lemma MulCancel(b: nat, x: int, y: int)
    requires b * x < b * y
    ensures x < y
  {
    assert b * (y - x) == b * y - b * x;
  }

  lemma DivBounds(a: nat, b: nat)
    requires b > 0
    ensures b * (a / b) <= a < b * (a / b) + b
  {
  }

  /** The quotient is the only number with these bounds. */
  lemma DivUnique(a: nat, b: nat, q: int)
    requires b > 0 && b * q <= a < b * q + b
    ensures a / b == q
  {
    DivBounds(a, b);
    assert b * (q + 1) == b * q + b && b * (a / b + 1) == b * (a / b) + b;
    MulCancel(b, q, a / b + 1);
    MulCancel(b, a / b, q + 1);
  }

  lemma QuotientAtLeast(a: nat, b: nat, q: nat)
    requires b > 0
    ensures a / b >= q <==> a >= q * b
  {
    DivBounds(a, b);
    if a / b >= q {
      MulMonotone(b, q, a / b);
    } else {
      MulMonotone(b, a / b + 1, q);
      assert b * (a / b + 1) == b * (a / b) + b;
    }
  }

  lemma ProductBound(x: nat, y: nat, a: nat, b: nat)
    requires x < a && y < b
    ensures x * y < a * b
  {
    MulMonotone(y, x, a);
    MulMonotone(a, y + 1, b);
    assert a * (y + 1) == a * y + a;
  }

  function Pow2(n: nat): nat
  {
    if n == 0 then 1 else 2 * Pow2(n - 1)
  }

  lemma Doubled(x: int, y: int)
    ensures 2 * (x * y) == (2 * x) * y
  {
  }

  lemma {:induction false} Pow2Sum(a: nat, b: nat)
    ensures Pow2(a + b) == Pow2(a) * Pow2(b)
  {
    if a > 0 {
      Pow2Sum(a - 1, b);
      Doubled(Pow2(a - 1), Pow2(b));
    }
  }

  lemma Pow2Double(n: nat)
    ensures Pow2(2 * n + 1) == 2 * (Pow2(n) * Pow2(n))
  {
    Pow2Sum(n, n);
  }

  lemma Pow2Values()
    ensures Pow2(63) == 0x8000_0000_0000_0000
    ensures Pow2(255) == 0x8000000000000000000000000000000000000000000000000000000000000000
  {
    Pow2Of31();
    Pow2Double(31);
    assert Pow2(63) == 2 * (0x8000_0000 * 0x8000_0000);
    Pow2Double(63);
    assert Pow2(127) == 2 * (0x8000_0000_0000_0000 * 0x8000_0000_0000_0000);
    Pow2Double(127);
  }

  lemma Pow2Of31()
    ensures Pow2(31) == 0x8000_0000
  {
    Pow2Double(1);
    assert Pow2(3) == 8;
    Pow2Double(3);
    assert Pow2(7) == 128;
    Pow2Double(7);
    assert Pow2(15) == 0x8000;
    Pow2Double(15);
  }
}
