/** Decimals as text: writing a Dec and reading it back. */
module DecText {
  import opened Bytes
  import opened Digits
  import opened Decimals

  const MINUS: byte := 45
  const PLUS: byte := 43
  const DOT: byte := 46

  function Zeros(n: nat): (s: Bytes)
    ensures |s| == n
  {
    seq(n, i => ZERO)
  }

  lemma {:induction false} ValueAppend(s: Bytes, t: Bytes)
    requires AllDigits(s) && AllDigits(t)
    ensures AllDigits(s + t) && Value(s + t) == Value(s) * Power(10, |t|) + Value(t)
  {
    if t == [] {
      assert s + t == s;
    } else {
      var init, last := t[..|t| - 1], t[|t| - 1];
      ValueAppend(s, init);
      JoinMore(s, init, last);
      assert t == init + [last];
      ValueMore(s + init, last - ZERO, 10 * Value(s + init) + (last - ZERO));
      ValueMore(init, last - ZERO, 10 * Value(init) + (last - ZERO));
      ShiftDigits(Value(s), Power(10, |init|), Value(init), last - ZERO, Value(s + init), Value(t));
    }
  }

  lemma JoinMore(s: Bytes, init: Bytes, last: byte)
    ensures s + (init + [last]) == s + init + [last]
  {
  }

  /** One more digit behind. */
  lemma ShiftDigits(v: nat, p: nat, w: nat, digit: nat, before: nat, more: nat)
    requires before == v * p + w && more == 10 * w + digit
    ensures 10 * before + digit == v * (10 * p) + more
  {
    ShiftPower(v, p);
  }

  lemma ShiftPower(v: nat, p: nat)
    ensures 10 * (v * p) == v * (10 * p)
  {
  }

  lemma {:induction false} ValueZeros(n: nat)
    ensures AllDigits(Zeros(n)) && Value(Zeros(n)) == 0
  {
    if n > 0 {
      ValueZeros(n - 1);
      assert Zeros(n)[..n - 1] == Zeros(n - 1);
    }
  }

  // ---- integers ----

  function IntText(d: int): Bytes
  {
    if d < 0 then [MINUS] + Decimal(-d) else Decimal(d)
  }

  /** big.Int's SetString in base 10: an optional sign, then digits. */
  function ParseInt(s: Bytes): Option<int>
  {
    if s == [] then None
    else if s[0] == MINUS || s[0] == PLUS then
      (if s[1..] != [] && AllDigits(s[1..])
       then Some(if s[0] == MINUS then -(Value(s[1..]) as int) else Value(s[1..]))
       else None)
    else if AllDigits(s) then Some(Value(s))
    else None
  }

  lemma ParseDigits(s: Bytes)
    requires s != [] && AllDigits(s)
    ensures ParseInt(s) == Some(Value(s))
  {
    assert ZERO <= s[0];
  }

  // ---- reading ----

  /** The place of the first dot, or the length of a text without one. */
  function FirstDot(s: Bytes): (i: nat)
    ensures i <= |s|
  {
    if s == [] || s[0] == DOT then 0 else 1 + FirstDot(s[1..])
  }

  lemma {:induction false} NoDot(s: Bytes)
    requires forall i :: 0 <= i < |s| ==> s[i] != DOT
    ensures FirstDot(s) == |s|
  {
    if s != [] {
      NoDot(s[1..]);
    }
  }

  lemma {:induction false} DotAfter(whole: Bytes, rest: Bytes)
    requires forall i :: 0 <= i < |whole| ==> whole[i] != DOT
    ensures FirstDot(Point(whole, rest)) == |whole|
    ensures Point(whole, rest)[..|whole|] == whole && Point(whole, rest)[|whole| + 1..] == rest
  {
    if whole != [] {
      DotAfter(whole[1..], rest);
      assert Point(whole, rest)[1..] == Point(whole[1..], rest);
    }
  }

  function Point(whole: Bytes, decimals: Bytes): Bytes
  {
    whole + [DOT] + decimals
  }

  /** The whole part and the decimals of a text, if there is at most one dot. */
  function Parts(s: Bytes): Option<(Bytes, Bytes)>
  {
    var i := FirstDot(s);
    if i == |s| then Some((s, []))
    else if s[..i] == [] || s[i + 1..] == [] || FirstDot(s[i + 1..]) < |s[i + 1..]| then None
    else Some((s[..i], s[i + 1..]))
  }

  function ParseParts(parts: Option<(Bytes, Bytes)>): Option<int>
  {
    if parts.None? || |parts.value.1| > PRECISION then None
    else ParseInt(parts.value.0 + parts.value.1 + Zeros(PRECISION - |parts.value.1|))
  }

  function ParseUnsigned(s: Bytes): Option<int>
  {
    if s == [] then None else ParseParts(Parts(s))
  }

  /** NewDecFromStr. */
  function Parse(s: Bytes): Option<int>
  {
    if s != [] && s[0] == MINUS then
      (match ParseUnsigned(s[1..])
       case None => None
       case Some(d) => Some(-d))
    else ParseUnsigned(s)
  }

  lemma DigitsHaveNoDot(s: Bytes)
    requires AllDigits(s)
    ensures forall i :: 0 <= i < |s| ==> s[i] != DOT && s[i] != MINUS
  {
  }

  /** Digits, a dot and up to ten digits are read as the number they write. */
  lemma ParsePoint(whole: Bytes, decimals: Bytes)
    requires AllDigits(whole) && AllDigits(decimals) && whole != [] && 0 < |decimals| <= PRECISION
    ensures AllDigits(whole + decimals)
    ensures ParseUnsigned(Point(whole, decimals)) ==
            Some(Value(whole + decimals) * Power(10, PRECISION - |decimals|))
  {
    PartsOfPoint(whole, decimals);
    Combined(whole, decimals, PRECISION - |decimals|);
  }

  lemma PartsOfPoint(whole: Bytes, decimals: Bytes)
    requires AllDigits(whole) && AllDigits(decimals) && whole != [] && decimals != []
    ensures Parts(Point(whole, decimals)) == Some((whole, decimals)) && Point(whole, decimals) != []
  {
    DigitsHaveNoDot(whole);
    DigitsHaveNoDot(decimals);
    DotAfter(whole, decimals);
    NoDot(decimals);
  }

  lemma Combined(whole: Bytes, decimals: Bytes, n: nat)
    requires AllDigits(whole) && AllDigits(decimals) && whole != []
    ensures AllDigits(whole + decimals)
    ensures ParseInt(whole + decimals + Zeros(n)) == Some(Value(whole + decimals) * Power(10, n))
  {
    ValueAppend(whole, decimals);
    ValueZeros(n);
    ValueAppend(whole + decimals, Zeros(n));
    ParseDigits(whole + decimals + Zeros(n));
  }

  // ---- writing ----

  /** Dec's String on the text of its scaled integer: a dot before the last ten characters. */
  function Written(d: int): Bytes
  {
    var text := IntText(d);
    var n := |text|;
    if n <= PRECISION then Point([ZERO], Zeros(PRECISION - n) + text)
    else Point(text[..n - PRECISION], text[n - PRECISION..])
  }

  /** The buffer of String, filled place by place. */
  method String(d: int) returns (s: Bytes)
    ensures s == Written(d)
  {
    var text := IntText(d);
    if |text| <= PRECISION {
      s := Padded(text);
    } else {
      s := Pointed(text);
    }
  }

  method Padded(text: Bytes) returns (s: Bytes)
    requires |text| <= PRECISION
    ensures s == Point([ZERO], Zeros(PRECISION - |text|) + text)
  {
    var n := |text|;
    var buffer := new byte[12];
    buffer[0], buffer[1] := ZERO, DOT;
    var i := 0;
    while i < PRECISION - n
      invariant 0 <= i <= PRECISION - n
      invariant buffer[0] == ZERO && buffer[1] == DOT
      invariant forall k :: 2 <= k < 2 + i ==> buffer[k] == ZERO
    {
      buffer[i + 2] := ZERO;
      i := i + 1;
    }
    forall k | 0 <= k < n {
      buffer[2 + (PRECISION - n) + k] := text[k];
    }
    s := buffer[..];
    assert s == [ZERO] + [DOT] + (Zeros(PRECISION - n) + text);
  }

  method Pointed(text: Bytes) returns (s: Bytes)
    requires |text| > PRECISION
    ensures s == Point(text[..|text| - PRECISION], text[|text| - PRECISION..])
  {
    var n := |text|;
    var buffer := new byte[n + 1];
    forall k | 0 <= k < n - PRECISION {
      buffer[k] := text[k];
    }
    buffer[n - PRECISION] := DOT;
    forall k | n - PRECISION <= k < n {
      buffer[k + 1] := text[k];
    }
    s := buffer[..];
    assert s == text[..n - PRECISION] + [DOT] + text[n - PRECISION..];
  }

  // ---- the round trip ----

  lemma {:induction false} DecimalSize(n: nat, k: nat)
    ensures k > 0 ==> (|Decimal(n)| <= k <==> n < Power(10, k))
    decreases k
  {
    if k == 1 {
      assert Power(10, 1) == 10;
    } else if k > 1 {
      if n < 10 {
        PowerAbove(k);
      } else {
        DecimalSize(n / 10, k - 1);
        assert n / 10 < Power(10, k - 1) <==> n < 10 * Power(10, k - 1);
      }
    }
  }

  lemma {:induction false} PowerAbove(k: nat)
    requires k > 0
    ensures Power(10, k) >= 10
  {
    if k > 1 {
      PowerAbove(k - 1);
    }
  }

  lemma TenPlaces()
    ensures Power(10, PRECISION) == ONE
  {
    assert Power(10, 2) == 100;
    assert Power(10, 4) == 100 * Power(10, 2);
    assert Power(10, 6) == 100 * Power(10, 4);
    assert Power(10, 8) == 100 * Power(10, 6);
    assert Power(10, 10) == 100 * Power(10, 8);
  }

  /** With all ten decimals, a text is read as the number without the dot. */
  lemma ReadTen(digits: Bytes, whole: Bytes, decimals: Bytes)
    requires AllDigits(digits) && digits == whole + decimals && whole != [] && |decimals| == PRECISION
    ensures ParseUnsigned(Point(whole, decimals)) == Some(Value(digits))
  {
    DigitParts(whole, decimals);
    ParsePoint(whole, decimals);
    assert Power(10, 0) == 1;
  }

  lemma DigitParts(s: Bytes, t: Bytes)
    requires AllDigits(s + t)
    ensures AllDigits(s) && AllDigits(t)
  {
    forall i | 0 <= i < |s| ensures ZERO <= s[i] < ZERO + 10 { assert s[i] == (s + t)[i]; }
    forall i | 0 <= i < |t| ensures ZERO <= t[i] < ZERO + 10 { assert t[i] == (s + t)[|s| + i]; }
  }

  lemma LeadingZeros(n: nat, s: Bytes)
    requires AllDigits(s)
    ensures AllDigits(Zeros(n) + s) && Value(Zeros(n) + s) == Value(s)
  {
    ValueZeros(n);
    ValueAppend(Zeros(n), s);
  }

  lemma ZeroFirst(s: Bytes)
    requires AllDigits(s)
    ensures AllDigits([ZERO] + s) && Value([ZERO] + s) == Value(s)
  {
    LeadingZeros(1, s);
    assert Zeros(1) == [ZERO];
  }

  lemma ReadFraction(decimals: Bytes)
    requires AllDigits(decimals) && |decimals| == PRECISION
    ensures ParseUnsigned(Point([ZERO], decimals)) == Some(Value(decimals))
  {
    ZeroFirst(decimals);
    ReadTen([ZERO] + decimals, [ZERO], decimals);
  }

  lemma RoundTripNonNegative(d: nat)
    ensures Parse(Written(d)) == Some(d)
  {
    DecimalRoundTrip(d);
    var text := Decimal(d);
    var n := |text|;
    if n <= PRECISION {
      LeadingZeros(PRECISION - n, text);
      ReadFraction(Zeros(PRECISION - n) + text);
      PointFirst([ZERO], Zeros(PRECISION - n) + text);
    } else {
      var whole, decimals := text[..n - PRECISION], text[n - PRECISION..];
      assert text == whole + decimals;
      ReadTen(text, whole, decimals);
      PointFirst(whole, decimals);
    }
  }

  lemma PointFirst(whole: Bytes, decimals: Bytes)
    requires whole != []
    ensures Point(whole, decimals) != [] && Point(whole, decimals)[0] == whole[0]
    ensures Point(whole, decimals)[1..] == Point(whole[1..], decimals)
  {
  }

  /** A sign in front. */
  lemma Behind(c: byte, s: Bytes, i: nat)
    requires i <= |s|
    ensures ([c] + s)[..i + 1] == [c] + s[..i] && ([c] + s)[i + 1..] == s[i..]
    ensures ([c] + s[..i])[1..] == s[..i]
  {
  }

  lemma RoundTripNegative(d: nat)
    requires d >= ONE
    ensures Parse(Written(-(d as int))) == Some(-(d as int))
  {
    DecimalRoundTrip(d);
    TenPlaces();
    DecimalSize(d, PRECISION);
    NegativeAt(d, Decimal(d), |Decimal(d)| - PRECISION);
  }

  lemma NegativeAt(d: nat, digits: Bytes, m: nat)
    requires d > 0 && digits == Decimal(d) && AllDigits(digits) && Value(digits) == d
    requires 0 < m == |digits| - PRECISION
    ensures Parse(Written(-(d as int))) == Some(-(d as int))
  {
    WrittenNegative(d, digits, m);
    Rejoin(digits, m);
    ReadNegative(digits, digits[..m], digits[m..], d);
  }

  lemma Rejoin(s: Bytes, m: nat)
    requires m <= |s|
    ensures s == s[..m] + s[m..]
  {
  }

  lemma ReadNegative(digits: Bytes, whole: Bytes, decimals: Bytes, d: int)
    requires AllDigits(digits) && digits == whole + decimals && whole != [] && |decimals| == PRECISION
    requires Value(digits) == d
    ensures Parse(Point([MINUS] + whole, decimals)) == Some(-d)
  {
    ReadTen(digits, whole, decimals);
    ParseSigned(whole, decimals, d);
  }

  lemma ParseSigned(whole: Bytes, decimals: Bytes, d: int)
    requires ParseUnsigned(Point(whole, decimals)) == Some(d)
    ensures Parse(Point([MINUS] + whole, decimals)) == Some(-d)
  {
    PointFirst([MINUS] + whole, decimals);
    assert ([MINUS] + whole)[1..] == whole;
  }

  lemma WrittenNegative(d: nat, digits: Bytes, m: nat)
    requires d > 0 && digits == Decimal(d) && 0 < m == |digits| - PRECISION
    ensures Written(-(d as int)) == Point([MINUS] + digits[..m], digits[m..])
  {
    Behind(MINUS, digits, m);
  }

  lemma NothingBeforeDot(digits: Bytes)
    requires AllDigits(digits)
    ensures ParseUnsigned(Point([], digits)) == None
  {
    DotAfter([], digits);
  }

  lemma SignInside(zeros: Bytes, digits: Bytes)
    requires AllDigits(zeros) && AllDigits(digits) && |zeros| + 1 + |digits| == PRECISION
    ensures ParseUnsigned(Point([ZERO], zeros + ([MINUS] + digits))) == None
  {
    var decimals := zeros + ([MINUS] + digits);
    DotAfter([ZERO], decimals);
    NoDot(decimals);
    var combined := [ZERO] + decimals + Zeros(0);
    assert combined[0] == ZERO && combined[1 + |zeros|] == MINUS;
    assert !AllDigits(combined);
  }

  /** Between -1 and 0 the sign is taken for a digit: the text is not even a decimal. */
  lemma SmallNegativeIsUnreadable(d: nat)
    requires 0 < d < ONE
    ensures Parse(Written(-(d as int))) == None
  {
    DecimalRoundTrip(d);
    TenPlaces();
    DecimalSize(d, PRECISION);
    var digits := Decimal(d);
    if |digits| == PRECISION {
      Behind(MINUS, digits, 0);
      assert Written(-(d as int)) == Point([MINUS], digits);
      PointFirst([MINUS], digits);
      NothingBeforeDot(digits);
    } else {
      var zeros := Zeros(PRECISION - 1 - |digits|);
      ValueZeros(|zeros|);
      PointFirst([ZERO], zeros + ([MINUS] + digits));
      SignInside(zeros, digits);
    }
  }

  /** Reading what was written gives the decimal back exactly when it is not strictly between
      -1 and 0. */
  lemma RoundTripIff(d: int)
    ensures Parse(Written(d)) == Some(d) <==> d >= 0 || d <= -ONE
  {
    if d >= 0 {
      RoundTripNonNegative(d);
    } else if d <= -ONE {
      RoundTripNegative(-d);
    } else {
      SmallNegativeIsUnreadable(-d);
    }
  }
}
