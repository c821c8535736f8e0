/** Numbers written in digits: fixed-width places in any base, and plain decimals. */
module Digits {
  import opened Bytes
  import opened Arith

  const ZERO: byte := 48

  function Power(base: nat, e: nat): (p: nat)
    ensures base > 0 ==> p > 0
  {
    if e == 0 then 1 else base * Power(base, e - 1)
  }

  /** Between equally long heads, the tails decide only when the heads are equal. */
  lemma {:induction false} LessByHead(a: Bytes, b: Bytes, x: Bytes, y: Bytes)
    requires |a| == |b|
    ensures Less(a + x, b + y) <==> Less(a, b) || (a == b && Less(x, y))
    ensures a + x == b + y <==> a == b && x == y
  {
    if a == [] {
      assert a + x == x && b + y == y;
    } else {
      assert (a + x)[1..] == a[1..] + x && (b + y)[1..] == b[1..] + y;
      LessByHead(a[1..], b[1..], x, y);
      assert a == [a[0]] + a[1..] && b == [b[0]] + b[1..];
      assert a + x == [a[0]] + (a[1..] + x) && b + y == [b[0]] + (b[1..] + y);
      assert a + x == b + y <==> a[0] == b[0] && a[1..] + x == b[1..] + y by {
        if a + x == b + y {
          assert (a + x)[0] == (b + y)[0];
          assert (a + x)[1..] == (b + y)[1..];
        }
      }
    }
  }

  /** The last `width` places of n, most significant first. */
  function Places(base: nat, zero: byte, n: nat, width: nat): (s: Bytes)
    requires 2 <= base && zero + base <= 256
    ensures |s| == width
    decreases width
  {
    if width == 0 then [] else Places(base, zero, n / base, width - 1) + [zero + n % base]
  }

  /** Fixed-width numerals sort as their numbers do. */
  lemma {:induction false} PlacesOrder(base: nat, zero: byte, m: nat, n: nat, width: nat)
    requires 2 <= base && zero + base <= 256
    requires m < Power(base, width) && n < Power(base, width)
    ensures Less(Places(base, zero, m, width), Places(base, zero, n, width)) <==> m < n
    ensures Places(base, zero, m, width) == Places(base, zero, n, width) <==> m == n
    decreases width
  {
    if width > 0 {
      var p := Power(base, width - 1);
      DivideFits(m, base, p);
      DivideFits(n, base, p);
      PlacesOrder(base, zero, m / base, n / base, width - 1);
      LessByHead(Places(base, zero, m / base, width - 1), Places(base, zero, n / base, width - 1),
                 [zero + m % base], [zero + n % base]);
      DivideOrder(m, n, base);
    }
  }

  lemma DivideFits(n: nat, base: nat, p: nat)
    requires base > 0 && n < base * p
    ensures 0 <= n / base < p
  {
    DivBounds(n, base);
    MulCancel(base, n / base, p);
  }

  lemma DivideOrder(m: nat, n: nat, base: nat)
    requires base > 0
    ensures m < n <==> m / base < n / base || (m / base == n / base && m % base < n % base)
    ensures m == n <==> m / base == n / base && m % base == n % base
  {
    var q, r, q', r' := m / base, m % base, n / base, n % base;
    assert m == base * q + r && n == base * q' + r';
    if q < q' {
      MulMonotone(base, q + 1, q');
      assert base * (q + 1) == base * q + base;
    } else if q' < q {
      MulMonotone(base, q' + 1, q);
      assert base * (q' + 1) == base * q' + base;
    }
  }

  /** %d: the decimal numeral without leading zeros. */
  function Decimal(n: nat): (s: Bytes)
    ensures s != []
  {
    if n < 10 then [ZERO + n] else Decimal(n / 10) + [ZERO + n % 10]
  }

  predicate AllDigits(s: Bytes)
  {
    forall i :: 0 <= i < |s| ==> ZERO <= s[i] < ZERO + 10
  }

  /** The number a numeral stands for. */
  function Value(s: Bytes): nat
    requires AllDigits(s)
  {
    if s == [] then 0 else 10 * Value(s[..|s| - 1]) + (s[|s| - 1] - ZERO)
  }

  lemma {:induction false} DecimalRoundTrip(n: nat)
    ensures AllDigits(Decimal(n)) && Value(Decimal(n)) == n
    ensures n > 0 ==> Decimal(n)[0] != ZERO
  {
    if n >= 10 {
      DecimalRoundTrip(n / 10);
      assert Decimal(n)[..|Decimal(n)| - 1] == Decimal(n / 10);
    } else {
      assert [ZERO + n][..0] == [];
    }
  }

  lemma {:induction false} PlacesValue(n: nat, width: nat)
    requires n < Power(10, width)
    ensures AllDigits(Places(10, ZERO, n, width)) && Value(Places(10, ZERO, n, width)) == n
  {
    if width > 0 {
      DivideFits(n, 10, Power(10, width - 1));
      PlacesValue(n / 10, width - 1);
      ValueMore(Places(10, ZERO, n / 10, width - 1), n % 10, n);
    }
  }

  lemma ValueMore(init: Bytes, digit: nat, n: nat)
    requires AllDigits(init) && digit < 10 && n == 10 * Value(init) + digit
    ensures AllDigits(init + [ZERO + digit]) && Value(init + [ZERO + digit]) == n
  {
    assert (init + [ZERO + digit])[..|init|] == init;
  }
}
