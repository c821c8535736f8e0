/** The keys of the governance store: a proposal's deposits and votes are a prefix range of their
    own, and a queue's keys sort by end time, so that a range holds exactly what is due. */
module GovKeys {
  import opened Bytes
  import opened Chain
  import opened Iterators
  import opened Prefix
  import opened Digits

  const COLON: byte := 58

  // ---- deposits and votes ----

  /** %X: two upper-case hexadecimal digits a byte. */
  function HexDigit(d: nat): (r: byte)
    requires d < 16
    ensures r == "0123456789ABCDEF"[d] as int
  {
    if d < 10 then ZERO + d else 55 + d
  }

  function Hex(s: Bytes): Bytes
  {
    if s == [] then [] else [HexDigit(s[0] / 16), HexDigit(s[0] % 16)] + Hex(s[1..])
  }

  lemma {:induction false} HexIsInjective(a: Bytes, b: Bytes)
    ensures Hex(a) == Hex(b) <==> a == b
  {
    if a != [] && b != [] {
      HexIsInjective(a[1..], b[1..]);
      assert a == [a[0]] + a[1..] && b == [b[0]] + b[1..];
      if Hex(a) == Hex(b) {
        assert Hex(a)[0] == Hex(b)[0] && Hex(a)[1] == Hex(b)[1];
        assert Hex(a)[2..] == Hex(a[1..]) && Hex(b)[2..] == Hex(b[1..]);
      }
    }
  }

  /** `kind` is "deposits:" or "votes:". */
  function RecordKey(kind: Bytes, id: nat, a: Bytes): Bytes
  {
    kind + Decimal(id) + [COLON] + Hex(a)
  }

  function Subspace(kind: Bytes, id: nat): Bytes
  {
    kind + Decimal(id) + [COLON]
  }

  /** Text before the first colon. */
  lemma HeadsAgree(x: Bytes, y: Bytes, z: Bytes)
    requires AllDigits(x) && AllDigits(y)
    ensures x + [COLON] <= y + [COLON] + z <==> x == y
  {
    var s, t := x + [COLON], y + [COLON] + z;
    if s <= t {
      assert forall i :: 0 <= i < |x| ==> t[i] == s[i] == x[i];
      assert forall i :: 0 <= i < |y| ==> t[i] == y[i];
      assert t[|x|] == s[|x|] == COLON && t[|y|] == COLON;
      assert x == t[..|x|] && y == t[..|y|];
    }
  }

  /** The range of a proposal's records holds its own records and no other proposal's, although
      the numerals have no fixed width. */
  lemma SubspaceIsOneProposal(kind: Bytes, p: nat, q: nat, a: Bytes)
    ensures InDomain(RecordKey(kind, q, a), Some(Subspace(kind, p)), PrefixEnd(Subspace(kind, p))) <==> p == q
  {
    PrefixRange(Subspace(kind, p), RecordKey(kind, q, a));
    DecimalRoundTrip(p);
    DecimalRoundTrip(q);
    HeadsAgree(Decimal(p), Decimal(q), Hex(a));
    var x, y := Decimal(p) + [COLON], Decimal(q) + [COLON] + Hex(a);
    assert Subspace(kind, p) == kind + x && RecordKey(kind, q, a) == kind + y;
    PrefixUnder(kind, x, y);
  }

  lemma PrefixUnder(kind: Bytes, x: Bytes, y: Bytes)
    ensures kind + x <= kind + y <==> x <= y
  {
    if kind + x <= kind + y {
      assert x == (kind + x)[|kind|..] == (kind + y)[|kind|..|kind| + |x|] == y[..|x|];
    }
  }

  lemma RecordKeyIsInjective(kind: Bytes, p: nat, a: Bytes, q: nat, b: Bytes)
    ensures RecordKey(kind, p, a) == RecordKey(kind, q, b) <==> p == q && a == b
  {
    if RecordKey(kind, p, a) == RecordKey(kind, q, b) {
      SubspaceIsOneProposal(kind, p, p, a);
      SubspaceIsOneProposal(kind, p, q, b);
      assert Hex(a) == RecordKey(kind, p, a)[|Subspace(kind, p)|..];
      assert Hex(b) == RecordKey(kind, q, b)[|Subspace(kind, q)|..];
      HexIsInjective(a, b);
    }
  }

  // ---- times ----

  /** A point in time by its UTC calendar and clock. */
  datatype Time = Time(year: nat, month: nat, day: nat, hour: nat, minute: nat, second: nat, nano: nat)

  predicate ValidTime(t: Time)
  {
    && t.month < 100 && t.day < 100 && t.hour < 100 && t.minute < 100 && t.second < 100
    && t.nano < 1_000_000_000
  }

  predicate Earlier(t: Time, u: Time)
  {
    if t.year != u.year then t.year < u.year
    else if t.month != u.month then t.month < u.month
    else if t.day != u.day then t.day < u.day
    else if t.hour != u.hour then t.hour < u.hour
    else if t.minute != u.minute then t.minute < u.minute
    else if t.second != u.second then t.second < u.second
    else t.nano < u.nano
  }

  /** A zero-padded number and the character after it, if any. */
  datatype Field = Field(value: nat, width: nat, after: Bytes)

  function Fields(t: Time): seq<Field>
  {
    [Field(t.month, 2, [45]), Field(t.day, 2, [84]), Field(t.hour, 2, [COLON]), Field(t.minute, 2, [COLON]),
     Field(t.second, 2, [46]), Field(t.nano, 9, [])]
  }

  predicate LaterFieldsLess(a: seq<Field>, b: seq<Field>)
  {
    a != [] && b != [] &&
    (a[0].value < b[0].value || (a[0].value == b[0].value && LaterFieldsLess(a[1..], b[1..])))
  }

  lemma FieldsOrder(t: Time, u: Time)
    requires t.year == u.year
    ensures LaterFieldsLess(Fields(t), Fields(u)) <==> Earlier(t, u)
  {
    var a, b := Fields(t), Fields(u);
    assert LaterFieldsLess(a[6..], b[6..]) == false;
    assert LaterFieldsLess(a[5..], b[5..]) <==> t.nano < u.nano;
    LastFields(a, b, 4);
    LastFields(a, b, 3);
    LastFields(a, b, 2);
    LastFields(a, b, 1);
    assert a[0..] == a && b[0..] == b;
    LastFields(a, b, 0);
  }

  lemma LastFields(a: seq<Field>, b: seq<Field>, i: nat)
    requires i < |a| && i < |b|
    ensures LaterFieldsLess(a[i..], b[i..]) <==>
            a[i].value < b[i].value || (a[i].value == b[i].value && LaterFieldsLess(a[i + 1..], b[i + 1..]))
  {
    assert a[i..][1..] == a[i + 1..] && b[i..][1..] == b[i + 1..];
  }

  function Render(fields: seq<Field>): Bytes
  {
    if fields == [] then []
    else Places(10, ZERO, fields[0].value, fields[0].width) + fields[0].after + Render(fields[1..])
  }

  predicate SameShape(a: seq<Field>, b: seq<Field>)
  {
    |a| == |b| && forall i :: 0 <= i < |a| ==> a[i].width == b[i].width && a[i].after == b[i].after
  }

  predicate Fit(a: seq<Field>)
  {
    forall i :: 0 <= i < |a| ==> a[i].value < Power(10, a[i].width)
  }

  lemma FieldFirst(x: Bytes, y: Bytes, after: Bytes, a: Bytes, b: Bytes)
    requires |x| == |y|
    ensures Less(x + after + a, y + after + b) <==> Less(x, y) || (x == y && Less(a, b))
    ensures x + after + a == y + after + b <==> x == y && a == b
  {
    assert x + after + a == x + (after + a) && y + after + b == y + (after + b);
    LessByHead(x, y, after + a, after + b);
    LessUnderPrefix(after, a, b);
    Unprefix(after, a, b);
  }

  lemma {:induction false} RenderOrder(a: seq<Field>, b: seq<Field>)
    requires SameShape(a, b) && Fit(a) && Fit(b)
    ensures |Render(a)| == |Render(b)|
    ensures Less(Render(a), Render(b)) <==> LaterFieldsLess(a, b)
    ensures Render(a) == Render(b) <==> a == b
  {
    if a != [] {
      RenderOrder(a[1..], b[1..]);
      PlacesOrder(10, ZERO, a[0].value, b[0].value, a[0].width);
      FieldFirst(Places(10, ZERO, a[0].value, a[0].width), Places(10, ZERO, b[0].value, b[0].width), a[0].after,
                 Render(a[1..]), Render(b[1..]));
      assert a == [a[0]] + a[1..] && b == [b[0]] + b[1..];
    }
  }

  /** The sortable time format: the year is padded to four digits, but not cut to them. */
  function Year(year: nat): Bytes
  {
    if year < 10000 then Places(10, ZERO, year, 4) else Decimal(year)
  }

  function FormatTime(t: Time): Bytes
  {
    Year(t.year) + ([45] + Render(Fields(t)))
  }

  lemma RenderNext(f: seq<Field>, i: nat)
    requires i < |f|
    ensures Render(f[i..]) == Places(10, ZERO, f[i].value, f[i].width) + f[i].after + Render(f[i + 1..])
  {
    assert f[i..][1..] == f[i + 1..];
  }

  function Padded(value: nat, width: nat, after: Bytes, rest: Bytes): Bytes
  {
    Places(10, ZERO, value, width) + after + rest
  }

  lemma RenderPads(f: seq<Field>, i: nat, rest: Bytes)
    requires i < |f| && Render(f[i + 1..]) == rest
    ensures Render(f[i..]) == Padded(f[i].value, f[i].width, f[i].after, rest)
  {
    RenderNext(f, i);
  }

  /** Two digits each, nine for the nanoseconds, with their separators. */
  lemma {:induction false} FormatIs(t: Time)
    ensures var nano := Padded(t.nano, 9, [], []);
            var minute := Padded(t.minute, 2, [':' as int], Padded(t.second, 2, ['.' as int], nano));
            var day := Padded(t.day, 2, ['T' as int], Padded(t.hour, 2, [':' as int], minute));
            FormatTime(t) == Year(t.year) + (['-' as int] + Padded(t.month, 2, ['-' as int], day))
  {
    var f := Fields(t);
    assert f[0..] == f && f[6..] == [];
    RenderPads(f, 5, []);
    RenderPads(f, 4, Render(f[5..]));
    RenderPads(f, 3, Render(f[4..]));
    RenderPads(f, 2, Render(f[3..]));
    RenderPads(f, 1, Render(f[2..]));
    RenderPads(f, 0, Render(f[1..]));
  }

  lemma FieldsFit(t: Time)
    requires ValidTime(t)
    ensures Fit(Fields(t))
  {
    assert Power(10, 2) == 100;
    PowerOf9();
  }

  lemma PowerOf9()
    ensures Power(10, 9) == 1_000_000_000
  {
    assert Power(10, 3) == 1000;
    assert Power(10, 6) == 1000 * Power(10, 3);
    assert Power(10, 9) == 1000 * Power(10, 6);
  }

  /** Up to the year 9999 formatted times sort as the times do, and are all of one length. */
  lemma FormatOrder(t: Time, u: Time)
    requires ValidTime(t) && ValidTime(u) && t.year < 10000 && u.year < 10000
    ensures |FormatTime(t)| == |FormatTime(u)|
    ensures Less(FormatTime(t), FormatTime(u)) <==> Earlier(t, u)
    ensures FormatTime(t) == FormatTime(u) <==> t == u
  {
    FieldsFit(t);
    FieldsFit(u);
    RenderOrder(Fields(t), Fields(u));
    if t.year == u.year {
      FieldsOrder(t, u);
    }
    assert Power(10, 4) == 10000;
    PlacesOrder(10, ZERO, t.year, u.year, 4);
    var x, y := [45] + Render(Fields(t)), [45] + Render(Fields(u));
    LessByHead(Year(t.year), Year(u.year), x, y);
    LessUnderPrefix([45], Render(Fields(t)), Render(Fields(u)));
    Unprefix([45], Render(Fields(t)), Render(Fields(u)));
    if Fields(t) == Fields(u) {
      assert forall i :: 0 <= i < 6 ==> Fields(t)[i].value == Fields(u)[i].value;
      assert t.month == Fields(t)[0].value && t.day == Fields(t)[1].value && t.hour == Fields(t)[2].value;
      assert t.minute == Fields(t)[3].value && t.second == Fields(t)[4].value && t.nano == Fields(t)[5].value;
    }
  }

  ghost predicate SortsUpTo(year: nat)
  {
    forall t, u :: ValidTime(t) && ValidTime(u) && t.year <= year && u.year <= year ==>
      (Less(FormatTime(t), FormatTime(u)) <==> Earlier(t, u))
  }

  /** The format sorts times exactly as long as the year has no fifth digit. */
  lemma FormatSortsIff(year: nat)
    ensures SortsUpTo(year) <==> year <= 9999
  {
    if year <= 9999 {
      forall t, u | ValidTime(t) && ValidTime(u) && t.year <= year && u.year <= year
        ensures Less(FormatTime(t), FormatTime(u)) <==> Earlier(t, u)
      {
        FormatOrder(t, u);
      }
    } else {
      var t, u := Time(9999, 12, 31, 23, 59, 59, 0), Time(10000, 1, 1, 0, 0, 0, 0);
      FiveDigits();
      assert FormatTime(t)[0] == Year(9999)[0] && FormatTime(u)[0] == Year(10000)[0];
      assert Earlier(t, u) && !Less(FormatTime(t), FormatTime(u));
    }
  }

  lemma FiveDigits()
    ensures Year(9999)[0] == 57 && Year(10000)[0] == 49
  {
    assert Places(10, ZERO, 9, 1) == [57];
    assert Places(10, ZERO, 99, 2)[0] == 57;
    assert Places(10, ZERO, 999, 3)[0] == 57;
    assert Decimal(10) == [49, 48];
    assert Decimal(100)[0] == 49;
    assert Decimal(1000)[0] == 49;
  }

  // ---- queues ----

  function QueueKey(queue: Bytes, t: Time, id: nat): Bytes
  {
    queue + [COLON] + FormatTime(t) + [COLON] + Places(256, 0, id, 8)
  }

  function QueueTime(queue: Bytes, t: Time): Bytes
  {
    queue + [COLON] + FormatTime(t)
  }

  /** Below the end of a prefix range is what is below the prefix or has it. */
  lemma BelowEnd(p: Bytes, key: Bytes)
    requires p != [] && PrefixEnd(p).Some?
    ensures Less(key, PrefixEnd(p).value) <==> Less(key, p) || HasPrefix(key, p)
  {
    PrefixRange(p, key);
    PrefixRange(p, p);
    if Less(key, p) {
      LessIsTransitive(key, p, PrefixEnd(p).value);
    }
  }

  lemma QueueTimeEnds(queue: Bytes, t: Time)
    requires ValidTime(t)
    ensures PrefixEnd(QueueTime(queue, t)).Some?
  {
    var s := QueueTime(queue, t);
    var digit := ZERO + t.nano % 10;
    assert Render(Fields(t)[5..]) == Places(10, ZERO, t.nano, 9) + [] + [];
    RenderEnds(Fields(t), digit);
    assert s[|s| - 1] == digit;
    assert s == s[..|s| - 1] + [digit];
    PrefixEndAtLast(s[..|s| - 1], digit);
  }

  lemma {:induction false} RenderEnds(fields: seq<Field>, digit: byte)
    requires fields != [] && fields[|fields| - 1].after == [] && fields[|fields| - 1].width > 0
    requires digit == ZERO + fields[|fields| - 1].value % 10
    ensures Render(fields) != [] && Render(fields)[|Render(fields)| - 1] == digit
  {
    if |fields| > 1 {
      RenderEnds(fields[1..], digit);
    }
  }

  /** Among keys with equally long heads, the end of a head's range cuts off the greater heads. */
  lemma RangeByHead(q: Bytes, a: Bytes, b: Bytes, rest: Bytes)
    requires |a| == |b| && b != [] && PrefixEnd(q + b).Some?
    ensures Less(q + (a + rest), PrefixEnd(q + b).value) <==> !Less(b, a)
  {
    BelowEnd(q + b, q + (a + rest));
    LessUnderPrefix(q, a + rest, b);
    PrefixUnder(q, b, a + rest);
    assert b + [] == b;
    LessByHead(a, b, rest, []);
    assert b <= a + rest <==> a == b;
    LessIsTotal(a, b);
  }

  lemma KeyParts(queue: Bytes, a: Bytes, x: Bytes)
    ensures queue + [COLON] + a + [COLON] + x == (queue + [COLON]) + (a + ([COLON] + x))
    ensures queue + [COLON] + a + [COLON] + x == queue + ([COLON] + (a + ([COLON] + x)))
  {
  }

  lemma NotBelowStart(p: Bytes, tail: Bytes)
    ensures !Less(p + tail, p)
  {
    NotLessThanExtension(p, tail);
    LessIsTotal(p, p + tail);
  }

  lemma RangeUpTo(queue: Bytes, a: Bytes, x: Bytes, b: Bytes)
    requires |a| == |b| && b != [] && PrefixEnd(queue + [COLON] + b).Some?
    ensures InDomain(queue + [COLON] + a + [COLON] + x, Some(queue), PrefixEnd(queue + [COLON] + b)) <==> !Less(b, a)
  {
    KeyParts(queue, a, x);
    RangeByHead(queue + [COLON], a, b, [COLON] + x);
    NotBelowStart(queue, [COLON] + (a + ([COLON] + x)));
  }

  /** The range of the queue up to `now` holds exactly the entries whose end time has come. */
  lemma QueueRangeIsDue(queue: Bytes, t: Time, id: nat, now: Time)
    requires ValidTime(t) && ValidTime(now) && t.year < 10000 && now.year < 10000
    ensures InDomain(QueueKey(queue, t, id), Some(queue), PrefixEnd(QueueTime(queue, now))) <==> !Earlier(now, t)
  {
    QueueTimeEnds(queue, now);
    FormatOrder(now, t);
    RangeUpTo(queue, FormatTime(t), Places(256, 0, id, 8), FormatTime(now));
  }

  /** Within a queue the keys sort by end time, then by proposal. */
  lemma QueueKeyOrder(queue: Bytes, t: Time, i: nat, u: Time, j: nat)
    requires ValidTime(t) && ValidTime(u) && t.year < 10000 && u.year < 10000
    requires i < UINT64_BOUND && j < UINT64_BOUND
    ensures Less(QueueKey(queue, t, i), QueueKey(queue, u, j)) <==> Earlier(t, u) || (t == u && i < j)
    ensures QueueKey(queue, t, i) == QueueKey(queue, u, j) <==> t == u && i == j
  {
    FormatOrder(t, u);
    EightBytes();
    PlacesOrder(256, 0, i, j, 8);
    KeyOrder(queue, FormatTime(t), Places(256, 0, i, 8), FormatTime(u), Places(256, 0, j, 8));
  }

  /** Times of one length, then numbers. */
  lemma KeyOrder(queue: Bytes, a: Bytes, x: Bytes, b: Bytes, y: Bytes)
    requires |a| == |b|
    ensures var k, l := queue + [COLON] + a + [COLON] + x, queue + [COLON] + b + [COLON] + y;
            && (Less(k, l) <==> Less(a, b) || (a == b && Less(x, y)))
            && (k == l <==> a == b && x == y)
  {
    var q := queue + [COLON];
    KeyParts(queue, a, x);
    KeyParts(queue, b, y);
    LessUnderPrefix(q, a + ([COLON] + x), b + ([COLON] + y));
    Unprefix(q, a + ([COLON] + x), b + ([COLON] + y));
    LessByHead(a, b, [COLON] + x, [COLON] + y);
    LessUnderPrefix([COLON], x, y);
    Unprefix([COLON], x, y);
  }

  lemma EightBytes()
    ensures Power(256, 8) == UINT64_BOUND
  {
    assert Power(256, 2) == 0x1_0000;
    assert Power(256, 4) == 0x1_0000 * Power(256, 2);
    assert Power(256, 6) == 0x1_0000 * Power(256, 4);
    assert Power(256, 8) == 0x1_0000 * Power(256, 6);
  }

  /** A queue's range holds only keys that start with the queue's name. */
  lemma QueueRangeIsItsQueue(queue: Bytes, now: Time, key: Bytes)
    requires ValidTime(now) && InDomain(key, Some(queue), PrefixEnd(QueueTime(queue, now)))
    ensures HasPrefix(key, queue)
  {
    var end, tail := QueueTime(queue, now), [COLON] + FormatTime(now);
    QueueTimeEnds(queue, now);
    BelowEnd(end, key);
    assert end == queue + tail;
    InsidePrefix(queue, tail, key);
  }

  lemma InsidePrefix(p: Bytes, tail: Bytes, key: Bytes)
    requires !Less(key, p) && (HasPrefix(key, p + tail) || Less(key, p + tail))
    ensures HasPrefix(key, p)
  {
    if HasPrefix(key, p + tail) {
      assert key[..|p|] == (p + tail)[..|p|] == p;
    } else {
      Squeezed(p, key, tail);
    }
  }

  lemma {:induction false} Squeezed(p: Bytes, key: Bytes, tail: Bytes)
    requires !Less(key, p) && Less(key, p + tail)
    ensures HasPrefix(key, p)
  {
    if p != [] {
      assert (p + tail)[1..] == p[1..] + tail;
      Squeezed(p[1..], key[1..], tail);
      assert p == [p[0]] + p[1..] && key == [key[0]] + key[1..];
    }
  }

  const ACTIVE_QUEUE: Bytes := Text("activeProposalQueue")
  const INACTIVE_QUEUE: Bytes := Text("inactiveProposalQueue")

  /** Neither queue's keys are in the other's range. */
  lemma QueuesAreApart(t: Time, id: nat, now: Time)
    requires ValidTime(now)
    ensures !InDomain(QueueKey(INACTIVE_QUEUE, t, id), Some(ACTIVE_QUEUE), PrefixEnd(QueueTime(ACTIVE_QUEUE, now)))
    ensures !InDomain(QueueKey(ACTIVE_QUEUE, t, id), Some(INACTIVE_QUEUE), PrefixEnd(QueueTime(INACTIVE_QUEUE, now)))
  {
    var inactive, active := QueueKey(INACTIVE_QUEUE, t, id), QueueKey(ACTIVE_QUEUE, t, id);
    assert inactive[0] == INACTIVE_QUEUE[0] == 'i' as int && active[0] == ACTIVE_QUEUE[0] == 'a' as int;
    if InDomain(inactive, Some(ACTIVE_QUEUE), PrefixEnd(QueueTime(ACTIVE_QUEUE, now))) {
      QueueRangeIsItsQueue(ACTIVE_QUEUE, now, inactive);
    }
    if InDomain(active, Some(INACTIVE_QUEUE), PrefixEnd(QueueTime(INACTIVE_QUEUE, now))) {
      QueueRangeIsItsQueue(INACTIVE_QUEUE, now, active);
    }
  }
}
