/** Fixed-point decimals with ten places, and rationals rounded to integers. Both round to the
    nearest, ties to even, by two different pieces of code. A decimal is its scaled integer. */
module Decimals {
  import opened Bytes
  import opened Chain
  import opened Arith

  const PRECISION := 10
  const ONE := 10_000_000_000
  const HALF := 5_000_000_000

  /** A decimal fits in 255 + 34 bits, an integer in 255. */
  const DEC_BOUND: int := 0x2000000000000000000000000000000000000000000000000000000000000000000000000

  predicate FitsDec(x: int) { -DEC_BOUND < x < DEC_BOUND }
  predicate FitsInt(x: int) { -INT_BOUND < x < INT_BOUND }

  function Abs(x: int): nat { if x < 0 then -x else x }

  /** q is the integer nearest to x/n, and the even one of two that are equally near. */
  predicate IsNearestEven(x: int, n: int, q: int)
    requires n > 0
  {
    && -n <= 2 * (x - n * q) <= n
    && (2 * (x - n * q) == n || 2 * (x - n * q) == -n ==> q % 2 == 0)
  }

  /** There is only one such integer. */
  lemma NearestEvenIsUnique(x: int, n: int, p: int, q: int)
    requires n > 0 && IsNearestEven(x, n, p) && IsNearestEven(x, n, q)
    ensures p == q
  {
    Distributes(n, q, p - q);
    if p > q {
      NearestAbove(n, x - n * q, p - q, n * (p - q));
    } else if q > p {
      Distributes(n, p, q - p);
      NearestAbove(n, x - n * p, q - p, n * (q - p));
    }
  }

  /** Of two integers that are equally near the lower one is next to the higher one. */
  lemma NearestAbove(n: int, e: int, k: int, nk: int)
    requires n > 0 && k > 0 && nk == n * k && 2 * e <= n && -n <= 2 * (e - nk)
    ensures k == 1 && nk == n && 2 * e == n
  {
    MulMonotone(n, 1, k);
    if k > 1 {
      MulMonotone(n, 2, k);
    }
  }

  /** It does not matter in which terms a rational is given. */
  lemma NearestEvenScales(x: int, n: int, y: int, m: int, q: int)
    requires n > 0 && m > 0 && x * m == y * n && IsNearestEven(x, n, q)
    ensures IsNearestEven(y, m, q)
  {
    var d, e := x - n * q, y - m * q;
    assert d * m == e * n by {
      assert d * m == x * m - n * q * m;
      assert e * n == y * n - m * q * n;
      assert n * q * m == m * q * n;
    }
    assert n * (2 * e) == m * (2 * d);
    MulMonotone(m, 2 * d, n);
    MulMonotone(m, -n, 2 * d);
    LessOrEqual(n, 2 * e, m);
    LessOrEqual(n, -m, 2 * e);
    if 2 * e == m {
      assert m * (2 * d) == m * n;
      EqualFactor(m, 2 * d, n);
    } else if 2 * e == -m {
      assert m * (2 * d) == m * (-n);
      EqualFactor(m, 2 * d, -n);
    }
  }

  lemma LessOrEqual(n: int, a: int, b: int)
    requires n > 0 && n * a <= n * b
    ensures a <= b
  {
    assert n * (b + 1) == n * b + n;
    MulCancel(n, a, b + 1);
  }

  lemma EqualFactor(n: int, a: int, b: int)
    requires n > 0 && n * a == n * b
    ensures a == b
  {
    LessOrEqual(n, a, b);
    LessOrEqual(n, b, a);
  }

  // ---- decimals ----

  /** A big.Int, which the rounding code changes in place. */
  class BigInt {
    var value: int

    constructor (value: int)
      ensures this.value == value
    {
      this.value := value;
    }
  }

  /** d/10^10 rounded: what the rounding below leaves. */
  function Rounded(d: int): int
    decreases d < 0
  {
    if d < 0 then -Rounded(-d)
    else
      var quo, rem := d / ONE, d % ONE;
      if rem < HALF || (rem == HALF && quo % 2 == 0) then quo else quo + 1
  }

  /** Removes ten digits and rounds, in place, and returns its argument. */
  method ChopPrecisionAndRound(d: BigInt) returns (r: BigInt)
    modifies d
    ensures r == d && d.value == Rounded(old(d.value))
    decreases d.value < 0
  {
    r := d;
    if d.value < 0 {
      d.value := -d.value;
      r := ChopPrecisionAndRound(d);
      r.value := -r.value;
      return;
    }
    var rem := d.value % ONE;
    d.value := d.value / ONE;
    if rem == 0 || rem < HALF {
      return;
    }
    if rem > HALF {
      d.value := d.value + 1;
    } else if d.value % 2 != 0 {
      d.value := d.value + 1;
    }
  }

  lemma RoundedIsNearestEven(d: int)
    ensures IsNearestEven(d, ONE, Rounded(d))
    decreases d < 0
  {
    if d < 0 { RoundedIsNearestEven(-d); }
  }

  lemma RoundedIsOdd(d: int)
    ensures Rounded(-d) == -Rounded(d)
  {
  }

  lemma RoundedIsMonotone(d: int, e: int)
    requires d <= e
    ensures Rounded(d) <= Rounded(e)
  {
    RoundedIsNearestEven(d);
    RoundedIsNearestEven(e);
  }

  /** A number of 10^-10 units that is rounded to at most k. */
  predicate RoundsToAtMost(d: int, k: int)
  {
    d < k * ONE + HALF || (d == k * ONE + HALF && k % 2 == 0)
  }

  lemma RoundedAtMost(d: int, k: int)
    ensures Rounded(d) <= k <==> RoundsToAtMost(d, k)
  {
    RoundedIsNearestEven(d);
  }

  /** Dec.Mul. */
  function Mul(a: int, b: int): Outcome<int>
  {
    var chopped := Rounded(a * b);
    if FitsDec(chopped) then Returns(chopped) else Panics
  }

  /** The product is the exact product, correctly rounded. */
  lemma MulIsCorrectlyRounded(a: int, b: int)
    requires Mul(a, b).Returns?
    ensures IsNearestEven(a * b, ONE, Mul(a, b).value)
  {
    RoundedIsNearestEven(a * b);
  }

  /** A number of at most 255 bits, and one with the 34 bits of the decimals. */
  predicate Has255Bits(n: int)
  {
    Abs(n) < 0x8000000000000000000000000000000000000000000000000000000000000000
  }

  predicate Has289Bits(n: int)
  {
    Abs(n) < 0x2000000000000000000000000000000000000000000000000000000000000000000000000
  }

  /** It panics exactly when the rounded product has more than 289 bits. */
  lemma MulReturnsIff(a: int, b: int, n: int)
    requires IsNearestEven(a * b, 10_000_000_000, n)
    ensures Mul(a, b) == if Has289Bits(n) then Returns(n) else Panics
  {
    RoundedIsNearestEven(a * b);
    NearestEvenIsUnique(a * b, ONE, n, Rounded(a * b));
  }

  /** Go's truncated quotient and remainder. */
  function TruncDiv(a: int, b: int): int
    requires b != 0
  {
    if (a < 0) == (b < 0) then Abs(a) / Abs(b) else -(Abs(a) / Abs(b))
  }

  function TruncRem(a: int, b: int): int
    requires b != 0
  {
    a - b * TruncDiv(a, b)
  }

  lemma TruncBounds(a: int, b: int)
    requires b != 0
    ensures Abs(TruncRem(a, b)) < Abs(b)
    ensures a >= 0 ==> TruncRem(a, b) >= 0
    ensures a <= 0 ==> TruncRem(a, b) <= 0
    ensures Abs(b) * Abs(TruncDiv(a, b)) <= Abs(a)
  {
    var q := Abs(a) / Abs(b);
    DivBounds(Abs(a), Abs(b));
    TruncProduct(a, b, q, Abs(b) * q);
  }

  lemma TruncProduct(a: int, b: int, q: nat, product: int)
    requires b != 0 && q == Abs(a) / Abs(b) && product == Abs(b) * q
    ensures b * TruncDiv(a, b) == if a < 0 then -product else product
    ensures Abs(TruncDiv(a, b)) == q
  {
    var k: int := q;
    assert (-b) * k == -(b * k) && b * (-k) == -(b * k) && (-b) * (-k) == b * k;
  }

  function Quotient(a: int, b: int): int
    requires b != 0
  {
    Rounded(TruncDiv(a * ONE * ONE, b))
  }

  /** Dec.Quo: dividing by zero panics, and so does a quotient that does not fit. */
  function Quo(a: int, b: int): Outcome<int>
  {
    if b == 0 then Panics
    else if FitsDec(Quotient(a, b)) then Returns(Quotient(a, b))
    else Panics
  }

  /** It is the truncated quotient of twenty places, rounded to ten. */
  lemma QuoReturnsIff(a: int, b: int, n: int)
    requires b != 0 && IsNearestEven(TruncDiv(a * 100_000_000_000_000_000_000, b), 10_000_000_000, n)
    ensures Quo(a, b) == if Has289Bits(n) then Returns(n) else Panics
  {
    var t := TruncDiv(a * ONE * ONE, b);
    assert a * ONE * ONE == a * 100_000_000_000_000_000_000;
    RoundedIsNearestEven(t);
    NearestEvenIsUnique(t, ONE, n, Rounded(t));
  }

  /** The quotient is within 1/2 + 10^-10 of a unit in the last place of the exact one:
      |q - a*10^10/b| <= 1/2 + 10^-10, cleared of its fractions. */
  lemma QuoIsClose(a: int, b: int)
    requires b != 0
    ensures 2 * Abs(Quotient(a, b) * b * ONE - a * ONE * ONE) <= Abs(b) * (ONE + 2)
  {
    var x := a * ONE * ONE;
    var t, r := TruncDiv(x, b), TruncRem(x, b);
    RoundedIsNearestEven(t);
    TruncBounds(x, b);
    SplitError(x, b, t, r, Quotient(a, b));
    SumOfErrors(b, Quotient(a, b) * ONE - t, r, ONE);
  }

  lemma SplitError(x: int, b: int, t: int, r: int, q: int)
    requires x == b * t + r
    ensures q * b * ONE - x == b * (q * ONE - t) - r
  {
    assert b * (q * ONE - t) == b * (q * ONE) - b * t;
    assert b * (q * ONE) == q * b * ONE;
  }

  /** The error of truncating and the error of rounding add up. */
  lemma SumOfErrors(b: int, e: int, r: int, n: int)
    requires n >= 0 && -n <= 2 * e <= n && Abs(r) < Abs(b)
    ensures 2 * Abs(b * e - r) <= Abs(b) * (n + 2)
  {
    AbsProduct(b, 2 * e, n);
    assert b * (2 * e) == 2 * (b * e);
    assert Abs(b) * (n + 2) == Abs(b) * n + 2 * Abs(b);
  }

  lemma AbsProduct(b: int, e: int, n: int)
    requires -n <= e <= n
    ensures Abs(b * e) <= Abs(b) * n
  {
    MulMonotone(Abs(b), e, n);
    MulMonotone(Abs(b), -n, e);
    assert Abs(b) * -n == -(Abs(b) * n);
    assert b * e == Abs(b) * e || b * e == -(Abs(b) * e);
  }

  /** It is not always correctly rounded: truncating first can make a tie of what lies beyond it,
      on either side of zero. */
  lemma QuoCanMissTheNearest()
    ensures Quotient(1, 19_999_999_999) == 0 && IsNearestEven(1 * ONE, 19_999_999_999, 1)
    ensures Quotient(-1, 19_999_999_999) == 0 && IsNearestEven(-1 * ONE, 19_999_999_999, -1)
  {
  }

  /** The digits of the exact quotient that are rounded away look like a tie to an even number,
      and are not one. */
  predicate FalseTie(a: nat, b: nat)
    requires b > 0
  {
    var t := a * ONE * ONE / b;
    t % ONE == HALF && (t / ONE) % 2 == 0 && (a * ONE * ONE) % b != 0
  }

  /** It is correctly rounded exactly when it did not make such a tie. The exact quotient is given
      with a positive denominator. */
  lemma QuoIsCorrectlyRounded(a: int, b: int)
    requires b != 0
    ensures IsNearestEven(if b < 0 then -a * ONE else a * ONE, Abs(b), Quotient(a, b)) <==> !FalseTie(Abs(a), Abs(b))
  {
    QuotientIsOdd(a, b);
    CorrectIffNoTie(Abs(a), Abs(b));
    NearestEvenIsOdd(Abs(a) * ONE, Abs(b), Quotient(Abs(a), Abs(b)));
  }

  /** Signs multiply. */
  lemma QuotientIsOdd(a: int, b: int)
    requires b != 0
    ensures Quotient(a, b) ==
            if a == 0 || (a < 0) == (b < 0) then Quotient(Abs(a), Abs(b)) else -Quotient(Abs(a), Abs(b))
  {
    var x := a * ONE * ONE;
    assert Abs(x) == Abs(a) * ONE * ONE && (x < 0 <==> a < 0) && (x == 0 <==> a == 0);
    TruncDivIsOdd(x, b);
    RoundedIsOdd(TruncDiv(Abs(x), Abs(b)));
  }

  lemma TruncDivIsOdd(x: int, b: int)
    requires b != 0
    ensures TruncDiv(x, b) ==
            if x == 0 || (x < 0) == (b < 0) then TruncDiv(Abs(x), Abs(b)) else -TruncDiv(Abs(x), Abs(b))
  {
  }

  lemma NearestEvenIsOdd(x: int, n: int, q: int)
    requires n > 0
    ensures IsNearestEven(-x, n, -q) <==> IsNearestEven(x, n, q)
  {
    assert n * -q == -(n * q);
  }

  lemma CorrectIffNoTie(a: nat, b: nat)
    requires b > 0
    ensures IsNearestEven(a * ONE, b, Quotient(a, b)) <==> !FalseTie(a, b)
  {
    var x := a * ONE * ONE;
    var t, r := x / b, x % b;
    DivBounds(x, b);
    CorrectUnlessTie(a, b, t, r, t / ONE, t % ONE);
  }

  lemma CorrectUnlessTie(a: nat, b: nat, t: nat, r: nat, q: nat, rem: nat)
    requires b > 0 && r < b && rem < ONE && a * ONE * ONE == b * t + r && t == ONE * q + rem
    ensures var chosen := if rem < HALF || (rem == HALF && q % 2 == 0) then q else q + 1;
            IsNearestEven(a * ONE, b, chosen) <==> !(rem == HALF && q % 2 == 0 && r != 0)
  {
    ScaledDistance(a, b, t, r, q, rem);
    PartBounds(b, rem);
    TieBreak(a * ONE - b * q, b, rem, r, b * rem);
    assert b * (q + 1) == b * q + b;
  }

  lemma ScaledDistance(a: nat, b: nat, t: nat, r: nat, q: nat, rem: nat)
    requires a * ONE * ONE == b * t + r && t == ONE * q + rem
    ensures ONE * (a * ONE - b * q) == b * rem + r
  {
    assert b * (ONE * q + rem) == b * (ONE * q) + b * rem;
    assert b * (ONE * q) == ONE * (b * q);
  }

  lemma PartBounds(b: nat, rem: nat)
    requires rem < ONE
    ensures rem < HALF ==> 0 <= b * rem <= b * (HALF - 1)
    ensures rem > HALF ==> b * (HALF + 1) <= b * rem <= b * (ONE - 1)
  {
    if rem < HALF {
      MulMonotone(b, rem, HALF - 1);
    } else if rem > HALF {
      MulMonotone(b, HALF + 1, rem);
      MulMonotone(b, rem, ONE - 1);
    }
  }

  /** Where the exact quotient lies between q and q + 1; f is its distance from q, times b. */
  lemma TieBreak(f: int, b: nat, rem: nat, r: nat, part: int)
    requires b > 0 && rem < ONE && r < b && ONE * f == part + r
    requires rem < HALF ==> 0 <= part <= b * (HALF - 1)
    requires rem == HALF ==> part == b * HALF
    requires rem > HALF ==> b * (HALF + 1) <= part <= b * (ONE - 1)
    ensures rem < HALF ==> 0 <= 2 * f < b
    ensures rem == HALF && r == 0 ==> 2 * f == b
    ensures rem > HALF || (rem == HALF && r > 0) ==> b < 2 * f <= 2 * b
  {
  }

  /** RoundInt: an integer of more than 255 bits panics. */
  function RoundInt(d: int): Outcome<int>
  {
    if FitsInt(Rounded(d)) then Returns(Rounded(d)) else Panics
  }

  lemma RoundIntReturnsIff(d: int, n: int)
    requires IsNearestEven(d, 10_000_000_000, n)
    ensures RoundInt(d) == if Has255Bits(n) then Returns(n) else Panics
  {
    RoundedIsNearestEven(d);
    NearestEvenIsUnique(d, ONE, n, Rounded(d));
  }

  // ---- rationals ----

  /** Rat.EvaluateBig, for num/den: the first digit after the point decides. */
  method EvaluateBig(num: int, den: int) returns (r: int)
    requires den > 0
    ensures IsNearestEven(num, den, r)
  {
    var d, rem := TruncDiv(num, den), TruncRem(num, den);
    assert num == den * d + rem;
    TruncBounds(num, den);
    if rem == 0 {
      return d;
    }
    var tenNum, tenD := num * 10, d * 10;
    var digit := TruncDiv(tenNum, den) - tenD;
    var final := TruncRem(tenNum, den) == 0;
    FirstDigit(num, den);
    TruncBounds(tenNum, den);
    TruncSigns(num, den);
    NearestFromDigit(num, den, d, rem, digit, TruncRem(tenNum, den));
    if final && (digit == 5 || digit == -5) {
      return d + TruncRem(d, 2);
    } else if digit >= 5 {
      return d + 1;
    } else if digit <= -5 {
      return d - 1;
    }
    return d;
  }

  lemma NearestFromDigit(num: int, den: int, d: int, rem: int, digit: int, after: int)
    requires den > 0 && -den < rem < den && -den < after < den && num == den * d + rem
    requires 10 * rem == den * digit + after
    requires rem >= 0 ==> after >= 0
    requires rem <= 0 ==> after <= 0
    requires num >= 0 ==> rem >= 0 && d >= 0
    requires num <= 0 ==> rem <= 0 && d <= 0
    ensures after == 0 && (digit == 5 || digit == -5) ==> IsNearestEven(num, den, d + TruncRem(d, 2))
    ensures digit >= 5 && !(after == 0 && digit == 5) ==> IsNearestEven(num, den, d + 1)
    ensures digit <= -5 && !(after == 0 && digit == -5) ==> IsNearestEven(num, den, d - 1)
    ensures -5 < digit < 5 ==> IsNearestEven(num, den, d)
  {
    DigitDecides(rem, den, digit, after);
    Parity(d);
    NearestBySide(num, den, d, rem);
  }

  lemma NearestBySide(num: int, den: int, d: int, rem: int)
    requires den > 0 && -den < rem < den && num == den * d + rem
    ensures 2 * rem > den ==> IsNearestEven(num, den, d + 1)
    ensures 2 * rem < -den ==> IsNearestEven(num, den, d - 1)
    ensures -den < 2 * rem < den ==> IsNearestEven(num, den, d)
    ensures 2 * rem == den ==> IsNearestEven(num, den, if d % 2 == 0 then d else d + 1)
    ensures 2 * rem == -den ==> IsNearestEven(num, den, if d % 2 == 0 then d else d - 1)
  {
    NearestByDistance(num, den, d, rem);
    Distributes(den, d, 1);
    NearestByDistance(num, den, d + 1, rem - den);
    Distributes(den, d, -1);
    NearestByDistance(num, den, d - 1, rem + den);
  }

  lemma Distributes(n: int, d: int, k: int)
    ensures n * (d + k) == n * d + n * k
  {
  }

  lemma NearestByDistance(x: int, n: int, q: int, e: int)
    requires n > 0 && x == n * q + e
    ensures IsNearestEven(x, n, q) <==> -n <= 2 * e <= n && (2 * e == n || 2 * e == -n ==> q % 2 == 0)
  {
  }

  lemma Parity(d: int)
    ensures TruncRem(d, 2) == if d % 2 == 0 then 0 else if d > 0 then 1 else -1
  {
    var half := Abs(d) / 2;
    assert Abs(d) == 2 * half + Abs(d) % 2;
    assert TruncDiv(d, 2) == if d < 0 then -half else half;
  }

  lemma TruncSigns(a: int, b: int)
    requires b > 0
    ensures a >= 0 ==> TruncDiv(a, b) >= 0
    ensures a <= 0 ==> TruncDiv(a, b) <= 0
  {
  }

  /** Which side of the half the remainder is on, from its first digit and what follows it. */
  lemma DigitDecides(rem: int, den: int, digit: int, after: int)
    requires den > 0 && -den < rem < den && -den < after < den
    requires 10 * rem == den * digit + after
    requires rem >= 0 ==> after >= 0
    requires rem <= 0 ==> after <= 0
    ensures after == 0 && digit == 5 ==> 2 * rem == den
    ensures after == 0 && digit == -5 ==> 2 * rem == -den
    ensures digit >= 5 && !(after == 0 && digit == 5) ==> 2 * rem > den
    ensures digit <= -5 && !(after == 0 && digit == -5) ==> 2 * rem < -den
    ensures -5 < digit < 5 ==> -den < 2 * rem < den
  {
    if digit >= 5 {
      MulMonotone(den, 5, digit);
      if digit > 5 { MulMonotone(den, 6, digit); }
    } else if digit <= -5 {
      MulMonotone(den, digit, -5);
      if digit < -5 { MulMonotone(den, digit, -6); }
    } else {
      MulMonotone(den, digit, 4);
      MulMonotone(den, -4, digit);
    }
  }

  /** The digit and what remains after it, in terms of the remainder. */
  lemma FirstDigit(num: int, den: int)
    requires den > 0
    ensures var digit := TruncDiv(num * 10, den) - TruncDiv(num, den) * 10;
            10 * TruncRem(num, den) == den * digit + TruncRem(num * 10, den)
  {
    var d, t := TruncDiv(num, den), TruncDiv(num * 10, den);
    assert den * (t - d * 10) == den * t - den * (d * 10);
    assert den * (d * 10) == 10 * (den * d);
  }

  /** The two roundings agree: any rational equal to d/10^10 is evaluated to Rounded(d). */
  lemma RoundingsAgree(d: int, num: int, den: int, r: int)
    requires den > 0 && num * ONE == d * den
    requires IsNearestEven(num, den, r)
    ensures r == Rounded(d)
  {
    NearestEvenScales(num, den, d, ONE, r);
    RoundedIsNearestEven(d);
    NearestEvenIsUnique(d, ONE, r, Rounded(d));
  }
}
