/** Byte strings in the order of Go's bytes.Compare: keys of every store, denominations of
    every coin and the text forms of numbers and times are byte strings in this project. */
module Bytes {

  type byte = b: int | 0 <= b < 256

  type Bytes = seq<byte>

  datatype Option<+T> = None | Some(value: T)

  /** What a call that may panic does: it returns a value, or it panics. */
  datatype Outcome<+T> = Returns(value: T) | Panics

  function Text(s: string): (r: Bytes)
    requires forall i :: 0 <= i < |s| ==> s[i] < 128 as char
    ensures |r| == |s|
  {
    seq(|s|, i requires 0 <= i < |s| => s[i] as int)
  }

  /** How values are stored. What does not come from an encoding may be decoded to anything. */
  datatype Codec<!T> = Codec(encode: T -> Bytes, decode: Bytes -> T)

  ghost predicate Faithful<T(!new)>(c: Codec<T>)
  {
    forall x :: c.decode(c.encode(x)) == x
  }

  predicate Less(a: Bytes, b: Bytes)
  {
    b != [] && (a == [] || a[0] < b[0] || (a[0] == b[0] && Less(a[1..], b[1..])))
  }

  function Compare(a: Bytes, b: Bytes): (c: int)
    ensures -1 <= c <= 1
    ensures c == -1 <==> Less(a, b)
    ensures c == 0 <==> a == b
    ensures c == 1 <==> Less(b, a)
  {
    LessIsTotal(a, b);
    if a == b then 0 else if Less(a, b) then -1 else 1
  }

  lemma {:induction false} LessIsTotal(a: Bytes, b: Bytes)
    ensures Less(a, b) || a == b || Less(b, a)
    ensures !(Less(a, b) && Less(b, a))
    ensures !Less(a, a)
  {
    if a != [] {
      LessIsTotal(a[1..], a[1..]);
      if b != [] && a[0] == b[0] {
        LessIsTotal(a[1..], b[1..]);
        assert a == [a[0]] + a[1..] && b == [b[0]] + b[1..];
      }
    }
  }

  lemma {:induction false} LessIsTransitive(a: Bytes, b: Bytes, c: Bytes)
    requires Less(a, b) && Less(b, c)
    ensures Less(a, c)
  {
    if a != [] && a[0] == b[0] == c[0] {
      LessIsTransitive(a[1..], b[1..], c[1..]);
    }
  }

  /** A common prefix does not matter to the order. */
  lemma {:induction false} LessUnderPrefix(p: Bytes, a: Bytes, b: Bytes)
    ensures Less(p + a, p + b) <==> Less(a, b)
  {
    if p == [] {
      assert p + a == a && p + b == b;
    } else {
      assert (p + a)[1..] == p[1..] + a && (p + b)[1..] == p[1..] + b;
      LessUnderPrefix(p[1..], a, b);
    }
  }

  /** The order in which an iterator visits keys. */
  predicate Before(ascending: bool, a: Bytes, b: Bytes)
  {
    if ascending then Less(a, b) else Less(b, a)
  }

  lemma BeforeIsStrictTotal(ascending: bool, a: Bytes, b: Bytes)
    ensures Before(ascending, a, b) || a == b || Before(ascending, b, a)
    ensures !(Before(ascending, a, b) && Before(ascending, b, a))
    ensures !Before(ascending, a, a)
  {
    LessIsTotal(a, b);
  }

  lemma BeforeIsTransitive(ascending: bool, a: Bytes, b: Bytes, c: Bytes)
    requires Before(ascending, a, b) && Before(ascending, b, c)
    ensures Before(ascending, a, c)
  {
    if ascending {
      LessIsTransitive(a, b, c);
    } else {
      LessIsTransitive(c, b, a);
    }
  }

  /** bytes.Compare, negated for a descending iterator. */
  function DirectedCompare(ascending: bool, a: Bytes, b: Bytes): (c: int)
    ensures -1 <= c <= 1
    ensures c == -1 <==> Before(ascending, a, b)
    ensures c == 0 <==> a == b
    ensures c == 1 <==> Before(ascending, b, a)
  {
    if ascending then Compare(a, b) else Compare(a, b) * -1
  }

  /** Key ranges: start is inclusive, end is exclusive, and a missing bound does not bind. */
  predicate InDomain(key: Bytes, start: Option<Bytes>, end: Option<Bytes>)
  {
    && (start.Some? ==> !Less(key, start.value))
    && (end.Some? ==> Less(key, end.value))
  }
}
