/** Amounts in the units of a coin type: the text of an amount, converted from the smallest unit
    to any other and back. A unit is its scale, the decimal places it lies below the main unit; a
    coin's text is its amount's text and its unit. Amounts have no sign. `least` is the scale of
    the smallest unit: 18 for IRIS, whose units have the scales 0, 3, 6, 9, 12, 15 and 18. */
module Units {
  import opened Bytes
  import opened Chain
  import opened Arith
  import opened Digits
  import opened Decimals
  import opened DecText

  // ---- rationals as text ----

  /** Without trailing zeros. */
  function Trim(s: Bytes): (r: Bytes)
    ensures |r| <= |s|
  {
    if s != [] && s[|s| - 1] == ZERO then Trim(s[..|s| - 1]) else s
  }

  lemma {:induction false} TrimIs(s: Bytes)
    ensures s == Trim(s) + Zeros(|s| - |Trim(s)|)
  {
    if s != [] && s[|s| - 1] == ZERO {
      var init := s[..|s| - 1];
      TrimIs(init);
      var n := |init| - |Trim(init)|;
      assert Zeros(n) + [ZERO] == Zeros(n + 1);
      assert s == init + [ZERO];
      assert Trim(init) + Zeros(n) + [ZERO] == Trim(init) + (Zeros(n) + [ZERO]);
    }
  }

  /** A whole number and a number of units of the last of `places` decimal places. */
  function TextOf(whole: nat, units: nat, places: nat): Bytes
  {
    var decimals := Trim(Places(10, ZERO, units, places));
    if decimals == [] then Decimal(whole) else Point(Decimal(whole), decimals)
  }

  /** The quotient, rounded half up. */
  function RoundedUp(x: nat, den: nat): nat
    requires den > 0
  {
    if 2 * (x % den) >= den then x / den + 1 else x / den
  }

  function Times(a: nat, b: nat): nat
  {
    a * b
  }

  function Carry(whole: nat, units: nat, p: nat): (nat, nat)
  {
    if units >= p then (whole + 1, units - p) else (whole, units)
  }

  /** The whole part and the units of the last place of a quotient, rounded half up. */
  function Rounding(num: nat, den: nat, places: nat): (nat, nat)
    requires den > 0
  {
    Carry(num / den, RoundedUp(Times(num % den, Power(10, places)), den), Power(10, places))
  }

  /** Rat's DecimalString: FloatString rounds the last place half up, then zeros are trimmed. */
  function DecimalString(num: nat, den: nat, places: nat): Bytes
    requires den > 0
  {
    var (whole, units) := Rounding(num, den, places);
    TextOf(whole, units, places)
  }

  /** The same for a denominator of either sign, which the numerator takes over. */
  function SignedString(num: nat, den: int, places: nat): Bytes
    requires den != 0
  {
    if num > 0 && den < 0 then [MINUS] + DecimalString(num, -den, places)
    else DecimalString(num, Abs(den), places)
  }

  /** What needs no rounding is not rounded. */
  lemma DecimalStringExact(num: nat, den: nat, places: nat, whole: nat, units: nat)
    requires den > 0 && units < Power(10, places)
    requires num * Power(10, places) == (whole * Power(10, places) + units) * den
    ensures DecimalString(num, den, places) == TextOf(whole, units, places)
  {
    var p := Power(10, places);
    ExactQuotient(num, den, p, whole, units);
    DivModIs(num, den, whole);
    RoundedExact(units, den);
  }

  lemma DivModIs(num: nat, den: nat, q: nat)
    requires den > 0 && den * q <= num < den * q + den
    ensures num / den == q && num % den == num - den * q
  {
    DivUnique(num, den, q);
  }

  lemma ExactQuotient(num: nat, den: nat, p: nat, q: nat, r: nat)
    requires den > 0 && r < p && num * p == (q * p + r) * den
    ensures den * q <= num < den * q + den
    ensures (num - den * q) * p == r * den
  {
    var m := num - den * q;
    assert (q * p + r) * den == p * (den * q) + r * den;
    assert m * p == num * p - p * (den * q);
    assert p * m == r * den;
    MulMonotone(r, 0, den);
    MulCancel(p, -1, m);
    MulMonotone(den, r + 1, p);
    assert den * (r + 1) == r * den + den && den * p == p * den;
    MulCancel(p, m, den);
  }

  lemma RoundedExact(units: nat, den: nat)
    requires den > 0
    ensures RoundedUp(units * den, den) == units
  {
    DivUnique(units * den, den, units);
    assert (units * den) % den == units * den - den * (units * den / den);
  }

  /** `w` is `x`/`den`, rounded half up. */
  predicate HalfUp(x: nat, den: nat, w: int)
  {
    den * (2 * w - 1) <= 2 * x < den * (2 * w + 1)
  }

  lemma RoundsHalfUp(x: nat, den: nat)
    requires den > 0
    ensures HalfUp(x, den, RoundedUp(x, den))
  {
    var q, r := x / den, x % den;
    DivBounds(x, den);
    assert r == x - den * q;
    assert den * (2 * q + 1) == 2 * (den * q) + den && den * (2 * q - 1) == 2 * (den * q) - den;
    assert den * (2 * q + 3) == 2 * (den * q) + 3 * den;
  }

  lemma HalfUpShifts(x: nat, den: nat, u: nat, y: nat)
    requires HalfUp(x, den, u)
    ensures HalfUp(den * y + x, den, y + u)
  {
    assert den * (2 * (y + u) - 1) == 2 * (den * y) + den * (2 * u - 1);
    assert den * (2 * (y + u) + 1) == 2 * (den * y) + den * (2 * u + 1);
  }

  lemma HalfUpAtMost(rp: nat, p: nat, den: nat, u: nat)
    requires rp < den * p && HalfUp(rp, den, u)
    ensures u <= p
  {
    assert den * (2 * p) == 2 * (den * p);
    MulCancel(den, 2 * u - 1, 2 * p);
  }

  lemma CarryIs(whole: nat, units: nat, p: nat)
    requires units <= p && p > 0
    ensures var c := Carry(whole, units, p); c.1 < p && c.0 * p + c.1 == whole * p + units
  {
    assert (whole + 1) * p == whole * p + p;
  }

  lemma CarryIsNearest(x: nat, den: nat, p: nat, q: nat, rp: nat, u: nat, c: (nat, nat), w: nat)
    requires x == den * (q * p) + rp && rp < den * p && HalfUp(rp, den, u) && p > 0
    requires c == Carry(q, u, p) && w == c.0 * p + c.1
    ensures c.1 < p && HalfUp(x, den, w)
  {
    HalfUpAtMost(rp, p, den, u);
    HalfUpShifts(rp, den, u, q * p);
    CarryIs(q, u, p);
  }

  lemma PartsTimes(num: nat, den: nat, p: nat)
    requires den > 0 && p > 0
    ensures Times(num % den, p) < den * p && Times(num, p) == den * (num / den * p) + Times(num % den, p)
  {
    var q, r := num / den, num % den;
    MulMonotone(p, r + 1, den);
    assert p * (r + 1) == r * p + p;
    assert num == den * q + r;
    assert (den * q + r) * p == den * (q * p) + r * p;
  }

  /** In units of the last place a quotient is written as the nearest number, halves rounded up. */
  lemma RoundingIsNearest(num: nat, den: nat, places: nat)
    requires den > 0
    ensures var c, p := Rounding(num, den, places), Power(10, places);
            c.1 < p && HalfUp(Times(num, p), den, Times(c.0, p) + c.1)
  {
    var c, p := Rounding(num, den, places), Power(10, places);
    var rp, u := Times(num % den, p), RoundedUp(Times(num % den, p), den);
    PartsTimes(num, den, p);
    RoundsHalfUp(rp, den);
    CarryIsNearest(Times(num, p), den, p, num / den, rp, u, c, Times(c.0, p) + c.1);
  }

  /** big.Int's Int64: the low 64 bits, as a two's complement number. */
  function Int64(x: nat): (r: int)
    ensures -(INT64_BOUND as int) <= r < INT64_BOUND
    ensures r == x <==> x < INT64_BOUND
  {
    var low := x % UINT64_BOUND;
    if low < INT64_BOUND then low else low - UINT64_BOUND
  }

  /** NewRatFromDecimal: numerator and denominator. The power of ten goes through an int64. */
  function RatOf(s: Bytes, places: nat): Option<(nat, int)>
  {
    if s == [] then None
    else
      var parts := Parts(s);
      if parts.None? || |parts.value.1| > places || !AllDigits(parts.value.0 + parts.value.1) then None
      else Some((Value(parts.value.0 + parts.value.1), Int64(Power(10, |parts.value.1|))))
  }

  lemma {:induction false} PowerSum(a: nat, b: nat)
    ensures Power(10, a + b) == Power(10, a) * Power(10, b)
  {
    if a > 0 {
      PowerSum(a - 1, b);
      ShiftPower(Power(10, a - 1), Power(10, b));
    }
  }

  /** The digits before trimming stand for the whole number of units. */
  lemma AllDigitsValue(whole: nat, units: nat, places: nat)
    requires units < Power(10, places)
    ensures var digits := Decimal(whole) + Places(10, ZERO, units, places);
            AllDigits(digits) && Value(digits) == whole * Power(10, places) + units
  {
    DecimalRoundTrip(whole);
    PlacesValue(units, places);
    ValueAppend(Decimal(whole), Places(10, ZERO, units, places));
  }

  /** Digits with a dot among them are read exactly if they have not too many decimals. */
  lemma RatOfParts(whole: Bytes, decimals: Bytes, places: nat)
    requires AllDigits(whole) && AllDigits(decimals) && whole != []
    ensures AllDigits(whole + decimals)
    ensures RatOf(if decimals == [] then whole else Point(whole, decimals), places) ==
            if |decimals| <= places then Some((Value(whole + decimals), Int64(Power(10, |decimals|)))) else None
  {
    ValueAppend(whole, decimals);
    if decimals == [] {
      DigitsHaveNoDot(whole);
      NoDot(whole);
      assert whole + [] == whole;
    } else {
      PartsOfPoint(whole, decimals);
    }
  }

  /** How many decimals the text of a number of units has. */
  function DecimalCount(units: nat, places: nat): nat
  {
    |Trim(Places(10, ZERO, units, places))|
  }

  /** The rational a text is read as: the number that was written, over its decimals' power of
      ten, but for what the int64 makes of that. */
  lemma ReadText(whole: nat, units: nat, places: nat, v: nat) returns (num: nat)
    requires units < Power(10, places) && v == whole * Power(10, places) + units
    ensures DecimalCount(units, places) <= places
    ensures RatOf(TextOf(whole, units, places), places) == Some((num, Int64(Power(10, DecimalCount(units, places)))))
    ensures num * Power(10, places) == v * Power(10, DecimalCount(units, places))
  {
    var all := Places(10, ZERO, units, places);
    AllDigitsValue(whole, units, places);
    DecimalRoundTrip(whole);
    PlacesValue(units, places);
    TrimIs(all);
    Reassociate(Decimal(whole), Trim(all), Zeros(places - |Trim(all)|));
    num := ReadTrimmed(Decimal(whole), Trim(all), places, v);
  }

  lemma ReadTrimmed(whole: Bytes, decimals: Bytes, places: nat, v: nat) returns (num: nat)
    requires whole != [] && |decimals| <= places
    requires AllDigits(whole + decimals + Zeros(places - |decimals|))
    requires Value(whole + decimals + Zeros(places - |decimals|)) == v
    ensures RatOf(if decimals == [] then whole else Point(whole, decimals), places) ==
            Some((num, Int64(Power(10, |decimals|))))
    ensures num * Power(10, places) == v * Power(10, |decimals|)
  {
    var n := places - |decimals|;
    WithoutZeros(whole + decimals, n, v);
    DigitParts(whole, decimals);
    RatOfParts(whole, decimals, places);
    num := Value(whole + decimals);
    RescalePowers(num, n, |decimals|, places, v);
  }

  lemma RescalePowers(num: nat, n: nat, k: nat, places: nat, v: nat)
    requires places == n + k && num * Power(10, n) == v
    ensures num * Power(10, places) == v * Power(10, k)
  {
    PowerSum(n, k);
    Rescale(num, Power(10, n), Power(10, k), v, Power(10, places));
  }

  lemma Reassociate(a: Bytes, b: Bytes, c: Bytes)
    ensures a + (b + c) == a + b + c
  {
  }

  lemma WithoutZeros(s: Bytes, n: nat, v: nat)
    requires AllDigits(s + Zeros(n)) && Value(s + Zeros(n)) == v
    ensures AllDigits(s) && Value(s) * Power(10, n) == v
  {
    DigitParts(s, Zeros(n));
    ValueZeros(n);
    ValueAppend(s, Zeros(n));
  }

  lemma Rescale(num: nat, z: nat, den: nat, v: nat, p: nat)
    requires num * z == v && p == z * den
    ensures num * p == v * den
  {
    assert num * (z * den) == num * z * den;
  }

  /** A text is an amount of coins when it has no decimals. */
  function Amount(s: Bytes): Option<nat>
  {
    if s != [] && AllDigits(s) && Value(s) < INT_BOUND then Some(Value(s)) else None
  }

  lemma TextIsAmount(whole: nat, units: nat, places: nat)
    requires units < Power(10, places)
    ensures Amount(TextOf(whole, units, places)) == if units == 0 && whole < INT_BOUND then Some(whole) else None
  {
    DecimalRoundTrip(whole);
    PlacesValue(units, places);
    var all := Places(10, ZERO, units, places);
    TrimIs(all);
    if Trim(all) == [] {
      ValueZeros(places);
      assert all == Zeros(places);
    } else {
      if units == 0 { TrimZeros(places); }
      var text := TextOf(whole, units, places);
      assert text[|Decimal(whole)|] == DOT;
    }
  }

  // ---- converting ----

  /** GetScaleFactor: a power of ten that is not an sdk.Int panics. */
  function ScaleFactor(scale: nat): Outcome<nat>
  {
    if Power(10, scale) < INT_BOUND then Returns(Power(10, scale)) else Panics
  }

  /** Convert, between two units of a coin type; a denominator of zero panics. */
  function Convert(s: Bytes, from: nat, to: nat, least: nat): Outcome<Option<Bytes>>
  {
    if from == to then Returns(Some(s))
    else if ScaleFactor(to).Panics? || ScaleFactor(from).Panics? then Panics
    else
      match RatOf(s, least)
      case None => Returns(None)
      case Some((num, den)) => Converted(Times(num, Power(10, to)), den, Power(10, from), least)
  }

  function Converted(num: nat, den: int, factor: nat, least: nat): Outcome<Option<Bytes>>
  {
    if den * factor == 0 then Panics else Returns(Some(SignedString(num, den * factor, least)))
  }

  /** From the smallest unit. */
  function ToUnit(n: nat, scale: nat, least: nat): Outcome<Option<Bytes>>
  {
    Convert(Decimal(n), least, scale, least)
  }

  /** ConvertToMinDenomCoin: to the smallest unit, where the amount must be an sdk.Int. */
  function ToMin(s: Bytes, scale: nat, least: nat): Outcome<Option<nat>>
  {
    ReadAmount(Convert(s, scale, least, least))
  }

  function ReadAmount(converted: Outcome<Option<Bytes>>): Outcome<Option<nat>>
  {
    match converted
    case Panics => Panics
    case Returns(None) => Returns(None)
    case Returns(Some(text)) => Returns(Amount(text))
  }

  /** There and back. */
  function Back(n: nat, scale: nat, least: nat): Outcome<Option<nat>>
  {
    match ToUnit(n, scale, least)
    case Panics => Panics
    case Returns(None) => Returns(None)
    case Returns(Some(text)) => ToMin(text, scale, least)
  }

  lemma WholeText(n: nat, places: nat)
    ensures TextOf(n, 0, places) == Decimal(n)
  {
    TrimZeros(places);
  }

  lemma {:induction false} TrimZeros(places: nat)
    ensures Trim(Places(10, ZERO, 0, places)) == []
  {
    if places > 0 {
      TrimZeros(places - 1);
      var s := Places(10, ZERO, 0, places);
      assert s[..|s| - 1] == Places(10, ZERO, 0, places - 1);
    }
  }

  /** The text of an amount in another unit. */
  lemma ToUnitIs(n: nat, scale: nat, least: nat, whole: nat, units: nat)
    requires scale != least && Power(10, scale) < INT_BOUND && Power(10, least) < INT_BOUND
    requires units < Power(10, least) && Times(n, Power(10, scale)) == whole * Power(10, least) + units
    ensures ToUnit(n, scale, least) == Returns(Some(TextOf(whole, units, least)))
  {
    DecimalRoundTrip(n);
    RatOfParts(Decimal(n), [], least);
    assert Decimal(n) + [] == Decimal(n);
    DecimalStringExact(Times(n, Power(10, scale)), Power(10, least), least, whole, units);
  }

  lemma Swap(num: nat, den: nat, a: nat, s: nat, n: nat)
    requires num * a == n * s * den
    ensures (num * a) * a == (n * a + 0) * (den * s)
  {
    assert (num * a) * a == (n * s * den) * a;
    assert (n * s * den) * a == (n * a) * (den * s);
  }

  /** Read with its true denominator, a text is converted to the amount it came from. */
  lemma ReadBack(num: nat, den: nat, scale: nat, least: nat, n: nat)
    requires den > 0 && num * Power(10, least) == Times(n, Power(10, scale)) * den
    ensures Converted(Times(num, Power(10, least)), den, Power(10, scale), least) == Returns(Some(Decimal(n)))
  {
    var a, p := Power(10, least), Power(10, scale);
    MulPositive(den, p);
    Swap(num, den, a, p, n);
    DecimalStringExact(Times(num, a), den * p, least, n, 0);
    WholeText(n, least);
  }

  /** Read with a smaller denominator w it is converted to more than that, which is not n coins. */
  lemma ReadMore(x: nat, den: nat, w: int, factor: nat, least: nat, n: nat)
    requires 0 < n && 0 < factor && w < den <= Power(10, least) && 0 < den && x == n * factor * den
    ensures ReadAmount(Converted(x, w, factor, least)) != Returns(Some(n))
  {
    MulPositive(n, factor);
    MulPositive(n * factor, den);
    if w < 0 {
      MulPositive(-w, factor);
      NegativeText(x, w * factor, least);
    } else if w > 0 {
      TooMuch(n, factor, den, w, Power(10, least));
      OtherText(x, w * factor, least, n);
    }
  }

  lemma NegativeText(num: nat, den: int, places: nat)
    requires num > 0 && den < 0
    ensures Amount(SignedString(num, den, places)) == None
  {
    assert SignedString(num, den, places)[0] == MINUS;
  }

  lemma OtherText(num: nat, den: nat, places: nat, n: nat)
    requires den > 0 && n <= num / den
    requires num / den == n ==> RoundedUp(Times(num % den, Power(10, places)), den) > 0
    ensures Amount(SignedString(num, den, places)) != Some(n)
  {
    var (whole, units) := Rounding(num, den, places);
    RoundingBelow(num, den, places);
    TextIsAmount(whole, units, places);
  }

  /** The units of the last place are fewer than make a whole. */
  lemma RoundingBelow(num: nat, den: nat, places: nat)
    requires den > 0
    ensures Rounding(num, den, places).1 < Power(10, places)
  {
    var p, r := Power(10, places), num % den;
    DivBounds(Times(r, p), den);
    MulMonotone(p, r, den - 1);
    assert p * (den - 1) == den * p - p;
    MulCancel(den, Times(r, p) / den, p);
  }

  /** n*s*k over w*s is at least n, and not n when rounded to a places: w < k and w < a. */
  lemma TooMuch(n: nat, s: nat, k: nat, w: nat, a: nat)
    requires 0 < n && 0 < s && 0 < w < k <= a
    ensures var x, b := n * s * k, w * s;
            && 0 < b && n <= x / b
            && (x / b == n ==> RoundedUp(Times(x % b, a), b) > 0)
  {
    var x, b := n * s * k, w * s;
    MulPositive(w, s);
    Exceeds(n, s, k, w);
    AtLeastQuotient(x, b, n);
    if x / b == n {
      assert x % b == x - b * n;
      ManyUnits(x % b, n, s, k, w, a);
      DivBounds(Times(x % b, a), b);
      AtLeastQuotient(Times(x % b, a), b, 1);
    }
  }

  lemma Exceeds(n: nat, s: nat, k: nat, w: nat)
    requires w < k
    ensures n * s * k >= w * s * n + n * s
  {
    MulMonotone(n * s, w + 1, k);
    assert n * s * (w + 1) == n * s * w + n * s;
    assert n * s * w == w * s * n;
  }

  lemma AtLeastQuotient(x: nat, b: nat, q: nat)
    requires 0 < b && b * q <= x
    ensures q <= x / b
  {
    DivBounds(x, b);
    assert b * (x / b + 1) == b * (x / b) + b;
    MulCancel(b, q, x / b + 1);
  }

  lemma ManyUnits(r: nat, n: nat, s: nat, k: nat, w: nat, a: nat)
    requires 0 < n && w < k <= a && r == n * s * k - w * s * n
    ensures w * s <= r * a
  {
    Exceeds(n, s, k, w);
    MulMonotone(a, n * s, r);
    MulMonotone(s, w, a);
    MulMonotone(a * s, 1, n);
    assert a * (n * s) == a * s * n;
    assert s * w == w * s && s * a == a * s && r * a == a * r;
  }

  // ---- which amounts come back ----

  /** How many decimals an int64 can hold the power of ten of. */
  const MOST_DECIMALS := 18

  lemma {:induction false} PowerGrows(m: nat, n: nat)
    requires m <= n
    ensures Power(10, m) <= Power(10, n)
    decreases n
  {
    if m < n {
      PowerGrows(m, n - 1);
    }
  }

  lemma PowersOfTen()
    ensures Power(10, MOST_DECIMALS) == 1_000_000_000_000_000_000
    ensures Power(10, MOST_DECIMALS + 1) == 10_000_000_000_000_000_000
  {
    assert Power(10, 3) == 1000;
    PowerSum(3, 3);
    PowerSum(6, 6);
    PowerSum(6, 12);
  }

  lemma PowerFits(k: nat)
    ensures Power(10, k) < INT64_BOUND <==> k <= MOST_DECIMALS
  {
    PowersOfTen();
    if k <= MOST_DECIMALS {
      PowerGrows(k, MOST_DECIMALS);
    } else {
      PowerGrows(MOST_DECIMALS + 1, k);
    }
  }

  /** The way back, on the rational that was read. */
  lemma BackIs(n: nat, scale: nat, least: nat, whole: nat, units: nat) returns (num: nat)
    requires Power(10, scale) < INT_BOUND && Power(10, least) < INT_BOUND && scale != least
    requires units < Power(10, least) && Times(n, Power(10, scale)) == whole * Power(10, least) + units
    ensures num * Power(10, least) == Times(n, Power(10, scale)) * Power(10, DecimalCount(units, least))
    ensures DecimalCount(units, least) <= least
    ensures Back(n, scale, least) == ReadAmount(Converted(Times(num, Power(10, least)),
                                                          Int64(Power(10, DecimalCount(units, least))),
                                                          Power(10, scale), least))
  {
    ToUnitIs(n, scale, least, whole, units);
    num := ReadText(whole, units, least, Times(n, Power(10, scale)));
  }

  /** An amount comes back from a unit exactly when its text has no more decimals than that. */
  lemma BackByDecimals(n: nat, scale: nat, least: nat, whole: nat, units: nat)
    requires n < INT_BOUND && Power(10, scale) < INT_BOUND && Power(10, least) < INT_BOUND && scale != least
    requires units < Power(10, least) && Times(n, Power(10, scale)) == whole * Power(10, least) + units
    ensures Back(n, scale, least) == Returns(Some(n)) <==> DecimalCount(units, least) <= MOST_DECIMALS
  {
    var k := DecimalCount(units, least);
    var num := BackIs(n, scale, least, whole, units);
    NothingIsWhole(n, Power(10, scale), least, whole, units);
    ReadBackIff(num, k, scale, least, n);
  }

  lemma ReadBackIff(num: nat, k: nat, scale: nat, least: nat, n: nat)
    requires n < INT_BOUND && k <= least && (k <= MOST_DECIMALS || 0 < n)
    requires num * Power(10, least) == Times(n, Power(10, scale)) * Power(10, k)
    ensures k <= MOST_DECIMALS <==>
            ReadAmount(Converted(Times(num, Power(10, least)), Int64(Power(10, k)), Power(10, scale), least)) ==
            Returns(Some(n))
  {
    PowerFits(k);
    if k <= MOST_DECIMALS {
      ReadBack(num, Power(10, k), scale, least, n);
      DecimalRoundTrip(n);
    } else {
      PowerGrows(k, least);
      ReadMore(Times(num, Power(10, least)), Power(10, k), Int64(Power(10, k)), Power(10, scale), least, n);
    }
  }

  lemma NothingIsWhole(n: nat, factor: nat, least: nat, whole: nat, units: nat)
    requires Times(n, factor) == whole * Power(10, least) + units
    ensures n == 0 ==> DecimalCount(units, least) == 0
  {
    if n == 0 {
      MulMonotone(Power(10, least), 0, whole);
      TrimZeros(least);
    }
  }

  /** Trailing zeros are divisibility. */
  lemma DecimalsAtMost(units: nat, places: nat, most: nat)
    requires units < Power(10, places) && most <= places
    ensures DecimalCount(units, places) <= most <==> units % Power(10, places - most) == 0
  {
    var s := Places(10, ZERO, units, places);
    var head, tail := s[..most], s[most..];
    PlacesValue(units, places);
    assert s == head + tail;
    DigitParts(head, tail);
    ValueAppend(head, tail);
    ValueBelow(tail);
    Remainder(Value(head), Power(10, places - most), Value(tail), units);
    TrimsTo(s, most);
    ZeroIff(tail);
  }

  lemma Remainder(q: nat, p: nat, r: nat, x: nat)
    requires r < p && x == q * p + r
    ensures x % p == r
  {
    DivUnique(x, p, q);
    assert x == p * (x / p) + x % p;
  }

  lemma {:induction false} ValueBelow(s: Bytes)
    requires AllDigits(s)
    ensures Value(s) < Power(10, |s|)
  {
    if s != [] {
      ValueBelow(s[..|s| - 1]);
    }
  }

  lemma {:induction false} ZeroIff(s: Bytes)
    requires AllDigits(s)
    ensures Value(s) == 0 <==> s == Zeros(|s|)
  {
    ValueZeros(|s|);
    if s != [] && Value(s) == 0 {
      var init := s[..|s| - 1];
      ZeroIff(init);
      assert s == init + [s[|s| - 1]];
      assert Zeros(|init|) + [ZERO] == Zeros(|s|);
    }
  }

  lemma {:induction false} TrimsTo(s: Bytes, most: nat)
    requires most <= |s|
    ensures |Trim(s)| <= most <==> s[most..] == Zeros(|s| - most)
  {
    if most < |s| {
      var init := s[..|s| - 1];
      if s[|s| - 1] == ZERO {
        TrimsTo(init, most);
        assert s[most..] == init[most..] + [ZERO];
        assert Zeros(|s| - most) == Zeros(|init| - most) + [ZERO];
        if s[most..] == Zeros(|s| - most) {
          assert init[most..] == s[most..][..|init| - most] == Zeros(|init| - most);
        }
      } else {
        assert s[most..][|s| - most - 1] == s[|s| - 1];
      }
    }
  }

  lemma SameRemainder(v: nat, whole: nat, q: nat, p: nat, units: nat)
    requires 0 < p && v == whole * (q * p) + units
    ensures v % p == units % p
  {
    var r, m := units % p, units / p;
    assert units == p * m + r;
    assert whole * (q * p) == (whole * q) * p;
    assert (whole * q + m) * p == (whole * q) * p + m * p;
    Remainder(whole * q + m, p, r, v);
  }

  /** Two units between which no scale factor panics. */
  predicate Scaled(scale: nat, least: nat)
  {
    Power(10, scale) < INT_BOUND && Power(10, least) < INT_BOUND
  }

  /** Which amounts come back from another unit: none when a scale factor panics, otherwise all of
      them when the smallest unit is at most 18 places below the main one, and beyond that those
      whose last places, beyond the 18th, are zeros. */
  lemma UnitRoundTrip(n: nat, scale: nat, least: nat)
    requires n < INT_BOUND
    ensures Back(n, scale, least) == Returns(Some(n)) <==>
            (scale == least ||
             (Scaled(scale, least) &&
              (least <= MOST_DECIMALS || Times(n, Power(10, scale)) % Power(10, least - MOST_DECIMALS) == 0)))
  {
    if scale == least {
      SameUnit(n, least);
    } else if Scaled(scale, least) {
      var v := Times(n, Power(10, scale));
      var whole, units := Split(v, Power(10, least));
      BackByDecimals(n, scale, least, whole, units);
      if least > MOST_DECIMALS {
        LastPlaces(v, least, least - MOST_DECIMALS, whole, units);
      } else {
        FewDecimals(units, least);
      }
    }
  }

  lemma LastPlaces(v: nat, least: nat, last: nat, whole: nat, units: nat)
    requires last <= least && units < Power(10, least) && v == whole * Power(10, least) + units
    ensures DecimalCount(units, least) <= least - last <==> v % Power(10, last) == 0
  {
    DecimalsAtMost(units, least, least - last);
    PowerSum(least - last, last);
    SameRemainder(v, whole, Power(10, least - last), Power(10, last), units);
  }

  lemma FewDecimals(units: nat, least: nat)
    ensures DecimalCount(units, least) <= least
  {
  }

  lemma SameUnit(n: nat, least: nat)
    requires n < INT_BOUND
    ensures Back(n, least, least) == Returns(Some(n))
  {
    DecimalRoundTrip(n);
  }

  /** Every amount comes back from every unit, as IRIS's do. */
  ghost predicate AllComeBack(least: nat)
  {
    forall n: nat, scale: nat :: n < INT_BOUND && Power(10, scale) < INT_BOUND ==>
                                   Back(n, scale, least) == Returns(Some(n))
  }

  lemma AllComeBackIff(least: nat)
    ensures AllComeBack(least) <==> least <= MOST_DECIMALS
  {
    PowerFits(least);
    if least <= MOST_DECIMALS {
      forall n: nat, scale: nat | n < INT_BOUND && Power(10, scale) < INT_BOUND
        ensures Back(n, scale, least) == Returns(Some(n))
      {
        UnitRoundTrip(n, scale, least);
      }
    } else {
      OneIsLost(1, 0, least);
    }
  }

  /** One of the smallest unit does not come back from the main unit. */
  lemma OneIsLost(n: nat, scale: nat, least: nat)
    requires n == 1 && scale != least && Power(10, scale) == 1 && least > MOST_DECIMALS
    ensures Back(n, scale, least) != Returns(Some(n))
  {
    UnitRoundTrip(n, scale, least);
    PowerGrows(1, least - MOST_DECIMALS);
    Remainder(0, Power(10, least - MOST_DECIMALS), 1, 1);
  }

  /** The smallest amount of a coin of 19 places is read as a negative rational, which is refused. */
  lemma NineteenPlaces(n: nat, scale: nat, least: nat)
    requires n == 1 && scale == 0 && least == MOST_DECIMALS + 1
    ensures Int64(Power(10, least)) == -8_446_744_073_709_551_616
    ensures Back(n, scale, least) == Returns(None)
  {
    PowersOfTen();
    OneUnit(least);
    var num := BackIs(n, scale, least, 0, 1);
    var den := Int64(Power(10, least));
    assert Power(10, scale) == 1;
    assert num > 0;
    NegativeText(Times(num, Power(10, least)), den * Power(10, scale), least);
  }

  lemma OneUnit(places: nat)
    requires places > 0
    ensures DecimalCount(1, places) == places && 1 < Power(10, places)
  {
    var s := Places(10, ZERO, 1, places);
    assert s[|s| - 1] == ZERO + 1;
    PowerGrows(1, places);
  }

  lemma Split(v: nat, a: nat) returns (whole: nat, units: nat)
    requires a > 0
    ensures units < a && v == whole * a + units
  {
    DivBounds(v, a);
    whole := v / a;
    units := v - a * whole;
  }
}
