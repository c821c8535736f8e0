/** Key prefixes: the end of a prefix range, and the part of a map under a prefix. */
module Prefix {
  import opened Bytes
  import opened Listings
  import opened Iterators

  /** The least key above every key with prefix p, if there is one. */
  function PrefixEnd(p: Bytes): Option<Bytes>
  {
    if p == [] then None
    else match PrefixEnd(p[1..])
         case Some(e) => Some([p[0]] + e)
         case None => if p[0] < 255 then Some([p[0] + 1]) else None
  }

  /** A key lies in [p, PrefixEnd(p)) exactly when p is a prefix of it. */
  lemma {:induction false} PrefixRange(p: Bytes, key: Bytes)
    ensures InDomain(key, Some(p), PrefixEnd(p)) <==> HasPrefix(key, p)
  {
    if p == [] {
    } else if key == [] || key[0] < p[0] {
      assert !HasPrefix(key, p);
    } else if key[0] > p[0] {
      assert !HasPrefix(key, p);
      var end := PrefixEnd(p);
      assert end.Some? && (end.value[0] == p[0] || end.value == [p[0] + 1]);
      assert end.value == [p[0] + 1] ==> end.value[1..] == [];
      assert !Less(key, end.value);
    } else {
      PrefixRange(p[1..], key[1..]);
      assert p == [p[0]] + p[1..] && key == [key[0]] + key[1..];
      if PrefixEnd(p[1..]).Some? {
        assert ([p[0]] + PrefixEnd(p[1..]).value)[1..] == PrefixEnd(p[1..]).value;
      }
    }
  }

  lemma {:induction false} PrefixEndAtLast(q: Bytes, b: byte)
    ensures PrefixEnd(q + [b]) == if b < 255 then Some(q + [b + 1]) else PrefixEnd(q)
  {
    if q == [] {
      assert q + [b] == [b];
      assert [b][1..] == [] && (b < 255 ==> q + [b + 1] == [b + 1]);
    } else {
      assert (q + [b])[1..] == q[1..] + [b];
      PrefixEndAtLast(q[1..], b);
      if b < 255 {
        assert [q[0]] + (q[1..] + [b + 1]) == q + [b + 1];
      }
    }
  }

  /** The loop of PrefixEndBytes. A missing prefix has no end; an empty prefix that is not
      missing makes the loop index an empty buffer, which panics. */
  method PrefixEndBytes(prefix: Option<Bytes>) returns (r: Outcome<Option<Bytes>>)
    ensures prefix.None? ==> r == Returns(None)
    ensures r.Panics? <==> prefix == Some([])
    ensures prefix.Some? && prefix.value != [] ==> r == Returns(PrefixEnd(prefix.value))
  {
    if prefix.None? {
      return Returns(None);
    }
    if prefix.value == [] {
      return Panics;
    }
    var end := prefix.value;
    while true
      invariant end != []
      invariant PrefixEnd(end) == PrefixEnd(prefix.value)
      decreases |end|
    {
      var last := |end| - 1;
      assert end == end[..last] + [end[last]];
      PrefixEndAtLast(end[..last], end[last]);
      if end[last] != 255 {
        assert end[last := end[last] + 1] == end[..last] + [end[last] + 1];
        return Returns(Some(end[last := end[last] + 1]));
      }
      end := end[..last];
      if end == [] {
        return Returns(None);
      }
    }
  }

  /** The part of a map under a prefix, with the prefix removed. */
  ghost function Strip(p: Bytes, m: map<Bytes, Bytes>): map<Bytes, Bytes>
  {
    var keys := set k | k in m && HasPrefix(k, p) :: k[|p|..];
    StripKeys(p, m, keys);
    map k | k in keys :: m[p + k]
  }

  lemma StripKeys(p: Bytes, m: map<Bytes, Bytes>, keys: set<Bytes>)
    requires keys == set k | k in m && HasPrefix(k, p) :: k[|p|..]
    ensures forall k :: k in keys <==> p + k in m
  {
    forall k | k in keys
      ensures p + k in m
    {
      var x :| x in m && HasPrefix(x, p) && k == x[|p|..];
      assert p + k == x;
    }
    forall k | p + k in m
      ensures k in keys
    {
      assert HasPrefix(p + k, p) && k == (p + k)[|p|..];
    }
  }

  lemma StripIs(p: Bytes, m: map<Bytes, Bytes>)
    ensures forall k :: k in Strip(p, m) <==> p + k in m
    ensures forall k :: k in Strip(p, m) ==> Strip(p, m)[k] == m[p + k]
  {
    StripKeys(p, m, set k | k in m && HasPrefix(k, p) :: k[|p|..]);
  }

  /** Point operations under a prefix are point operations on the stripped map. */
  lemma StripUpdates(p: Bytes, m: map<Bytes, Bytes>, key: Bytes, value: Bytes)
    ensures Strip(p, m[p + key := value]) == Strip(p, m)[key := value]
    ensures Strip(p, m - {p + key}) == Strip(p, m) - {key}
  {
    StripSet(p, m, key, value);
    StripDelete(p, m, key);
  }

  lemma StripSet(p: Bytes, m: map<Bytes, Bytes>, key: Bytes, value: Bytes)
    ensures Strip(p, m[p + key := value]) == Strip(p, m)[key := value]
  {
    StripIs(p, m);
    StripIs(p, m[p + key := value]);
    forall k: Bytes { Unprefix(p, k, key); }
    var a, b := Strip(p, m[p + key := value]), Strip(p, m)[key := value];
    assert forall k :: k in a <==> k in b;
  }

  lemma StripDelete(p: Bytes, m: map<Bytes, Bytes>, key: Bytes)
    ensures Strip(p, m - {p + key}) == Strip(p, m) - {key}
  {
    StripIs(p, m);
    StripIs(p, m - {p + key});
    forall k: Bytes { Unprefix(p, k, key); }
    var a, b := Strip(p, m - {p + key}), Strip(p, m) - {key};
    assert forall k :: k in a <==> k in b;
  }

  lemma Unprefix(p: Bytes, a: Bytes, b: Bytes)
    ensures p + a == p + b <==> a == b
  {
    assert a == (p + a)[|p|..] && b == (p + b)[|p|..];
  }

  /** Prefixes compose by concatenation. */
  lemma StripTwice(p1: Bytes, p2: Bytes, m: map<Bytes, Bytes>)
    ensures Strip(p2, Strip(p1, m)) == Strip(p1 + p2, m)
  {
    StripIs(p1, m);
    StripIs(p2, Strip(p1, m));
    StripIs(p1 + p2, m);
    assert forall k: Bytes :: p1 + (p2 + k) == (p1 + p2) + k;
    var a, b := Strip(p2, Strip(p1, m)), Strip(p1 + p2, m);
    assert forall k :: k in a <==> k in b;
    assert a == b;
  }

  /** The parent range that a prefix store asks for. */
  ghost function ParentStart(p: Bytes, start: Option<Bytes>): Option<Bytes>
  {
    Some(p + (if start.Some? then start.value else []))
  }

  ghost function ParentEnd(p: Bytes, end: Option<Bytes>): Option<Bytes>
  {
    if end.None? then PrefixEnd(p) else Some(p + end.value)
  }

  lemma ParentRange(p: Bytes, start: Option<Bytes>, end: Option<Bytes>, key: Bytes)
    ensures InDomain(p + key, ParentStart(p, start), ParentEnd(p, end)) <==> InDomain(key, start, end)
  {
    LessUnderPrefix(p, key, if start.Some? then start.value else []);
    if end.Some? {
      LessUnderPrefix(p, key, end.value);
    } else {
      PrefixRange(p, p + key);
      assert HasPrefix(p + key, p);
    }
  }

  lemma ParentRangeHasPrefix(p: Bytes, start: Option<Bytes>, end: Option<Bytes>, key: Bytes)
    requires InDomain(key, ParentStart(p, start), ParentEnd(p, end))
    ensures HasPrefix(key, p)
  {
    assert !Less(key, p) by {
      if Less(key, p) {
        NotLessThanExtension(p, if start.Some? then start.value else []);
        if p + (if start.Some? then start.value else []) != p {
          LessIsTransitive(key, p, p + (if start.Some? then start.value else []));
        }
      }
    }
    if end.Some? && PrefixEnd(p).Some? {
      PrefixRange(p, p + end.value);
      assert HasPrefix(p + end.value, p);
      LessIsTransitive(key, p + end.value, PrefixEnd(p).value);
    }
    PrefixRange(p, key);
  }

  lemma NotLessThanExtension(p: Bytes, tail: Bytes)
    ensures p + tail == p || Less(p, p + tail)
  {
    LessUnderPrefix(p, [], tail);
    assert p + [] == p;
  }

  lemma StripInRange(p: Bytes, m: map<Bytes, Bytes>, start: Option<Bytes>, end: Option<Bytes>)
    ensures Strip(p, InRange(m, ParentStart(p, start), ParentEnd(p, end))) == InRange(Strip(p, m), start, end)
  {
    var range := InRange(m, ParentStart(p, start), ParentEnd(p, end));
    StripIs(p, m);
    StripIs(p, range);
    forall k: Bytes { ParentRange(p, start, end, k); }
    var a, b := Strip(p, range), InRange(Strip(p, m), start, end);
    assert forall k :: k in a <==> k in b;
  }

  lemma {:induction false} StripWhileLists(ascending: bool, p: Bytes, s: seq<Pair<Bytes>>)
    requires Sorted(ascending, s)
    requires forall k :: k in Dict(s) ==> HasPrefix(k, p)
    ensures Sorted(ascending, StripWhile(p, s))
    ensures Dict(StripWhile(p, s)) == Strip(p, Dict(s))
  {
    if s == [] {
      StripIs(p, Dict(s));
      assert Strip(p, Dict(s)) == map[];
    } else {
      SortedHead(ascending, s);
      assert s[0].key in Dict(s);
      StripWhileLists(ascending, p, s[1..]);
      var key := s[0].key[|p|..];
      assert p + key == s[0].key;
      StripUpdates(p, Dict(s[1..]), key, s[0].value);
      StripIs(p, Dict(s[1..]));
      forall k | k in Strip(p, Dict(s[1..]))
        ensures Before(ascending, key, k)
      {
        LessUnderPrefix(p, key, k);
        LessUnderPrefix(p, k, key);
      }
      SortedCons(ascending, Pair(key, s[0].value), StripWhile(p, s[1..]));
    }
  }

  /** Iterating under a prefix lists the stripped map in the given range, in either direction. */
  lemma PrefixIteration(ascending: bool, p: Bytes, m: map<Bytes, Bytes>, start: Option<Bytes>, end: Option<Bytes>)
    ensures StripWhile(p, Listing(ascending, InRange(m, ParentStart(p, start), ParentEnd(p, end))))
         == Listing(ascending, InRange(Strip(p, m), start, end))
  {
    var range := InRange(m, ParentStart(p, start), ParentEnd(p, end));
    forall k | k in range
      ensures HasPrefix(k, p)
    {
      ParentRangeHasPrefix(p, start, end, k);
    }
    StripWhileLists(ascending, p, Listing(ascending, range));
    StripInRange(p, m, start, end);
    SortedIsUnique(ascending, StripWhile(p, Listing(ascending, range)),
                   Listing(ascending, InRange(Strip(p, m), start, end)));
  }
}
