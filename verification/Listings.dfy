/** Sorted listings of maps, and the merge of a parent listing with a listing of dirty
    entries. A listing is what an iterator over a store yields. */
module Listings {
  import opened Bytes

  datatype Pair<+V> = Pair(key: Bytes, value: V)

  predicate Sorted<V>(ascending: bool, s: seq<Pair<V>>)
  {
    forall i, j :: 0 <= i < j < |s| ==> Before(ascending, s[i].key, s[j].key)
  }

  /** The map that a list of pairs denotes. */
  function Dict<V>(s: seq<Pair<V>>): map<Bytes, V>
  {
    if s == [] then map[] else Dict(s[1..])[s[0].key := s[0].value]
  }

  lemma {:induction false} DictKeys<V>(s: seq<Pair<V>>, k: Bytes)
    ensures k in Dict(s) <==> exists i :: 0 <= i < |s| && s[i].key == k
  {
    if s != [] {
      DictKeys(s[1..], k);
      if k in Dict(s[1..]) {
        var i :| 0 <= i < |s[1..]| && s[1..][i].key == k;
        assert s[i + 1].key == k;
      }
      if i :| 0 <= i < |s| && s[i].key == k {
        if i > 0 { assert s[1..][i - 1].key == k; }
      }
    }
  }

  /** In a sorted list the head key does not occur again, and it comes before every other key. */
  lemma SortedHead<V>(ascending: bool, s: seq<Pair<V>>)
    requires s != [] && Sorted(ascending, s)
    ensures Sorted(ascending, s[1..])
    ensures s[0].key !in Dict(s[1..])
    ensures forall k :: k in Dict(s[1..]) ==> Before(ascending, s[0].key, k)
  {
    forall k | k in Dict(s[1..])
      ensures Before(ascending, s[0].key, k)
    {
      DictKeys(s[1..], k);
    }
    BeforeIsStrictTotal(ascending, s[0].key, s[0].key);
  }

  lemma SortedCons<V>(ascending: bool, p: Pair<V>, s: seq<Pair<V>>)
    requires Sorted(ascending, s)
    requires forall k :: k in Dict(s) ==> Before(ascending, p.key, k)
    ensures Sorted(ascending, [p] + s)
    ensures Dict([p] + s) == Dict(s)[p.key := p.value]
  {
    var t := [p] + s;
    assert t[1..] == s;
    forall i, j | 0 <= i < j < |t|
      ensures Before(ascending, t[i].key, t[j].key)
    {
      if i == 0 { DictKeys(s, t[j].key); assert s[j - 1] == t[j]; }
    }
  }

  lemma NonEmptyDict<V>(s: seq<Pair<V>>)
    ensures s != [] ==> s[0].key in Dict(s)
  {
  }

  /** Two sorted lists of the same map are the same list. */
  lemma {:induction false} SortedIsUnique<V>(ascending: bool, s: seq<Pair<V>>, t: seq<Pair<V>>)
    requires Sorted(ascending, s) && Sorted(ascending, t)
    requires Dict(s) == Dict(t)
    ensures s == t
  {
    NonEmptyDict(s);
    NonEmptyDict(t);
    if s != [] && t != [] {
      SortedHead(ascending, s);
      SortedHead(ascending, t);
      assert s[0].key in Dict(t) && t[0].key in Dict(s);
      BeforeIsStrictTotal(ascending, s[0].key, t[0].key);
      assert s[0].key == t[0].key;
      assert Dict(s[1..]) == Dict(s) - {s[0].key};
      assert Dict(t[1..]) == Dict(t) - {t[0].key};
      SortedIsUnique(ascending, s[1..], t[1..]);
      assert Dict(s)[s[0].key] == Dict(t)[t[0].key];
      assert s == [s[0]] + s[1..] && t == [t[0]] + t[1..];
    }
  }

  /** Insertion into a sorted list, the step of the sort below. */
  function Insert<V>(ascending: bool, p: Pair<V>, s: seq<Pair<V>>): seq<Pair<V>>
  {
    if s == [] || Before(ascending, p.key, s[0].key) then [p] + s
    else [s[0]] + Insert(ascending, p, s[1..])
  }

  lemma {:induction false} InsertSorts<V>(ascending: bool, p: Pair<V>, s: seq<Pair<V>>)
    requires Sorted(ascending, s) && p.key !in Dict(s)
    ensures Sorted(ascending, Insert(ascending, p, s))
    ensures Dict(Insert(ascending, p, s)) == Dict(s)[p.key := p.value]
  {
    if s == [] {
      SortedCons(ascending, p, s);
    } else {
      SortedHead(ascending, s);
      if Before(ascending, p.key, s[0].key) {
        forall k | k in Dict(s)
          ensures Before(ascending, p.key, k)
        {
          if k != s[0].key { BeforeIsTransitive(ascending, p.key, s[0].key, k); }
        }
        SortedCons(ascending, p, s);
      } else {
        InsertSorts(ascending, p, s[1..]);
        BeforeIsStrictTotal(ascending, p.key, s[0].key);
        assert p.key != s[0].key;
        SortedCons(ascending, s[0], Insert(ascending, p, s[1..]));
      }
    }
  }

  /** Sorting by key, in the place of the source's calls of package sort. */
  function Sort<V>(ascending: bool, s: seq<Pair<V>>): seq<Pair<V>>
  {
    if s == [] then [] else Insert(ascending, s[0], Sort(ascending, s[1..]))
  }

  predicate DistinctKeys<V>(s: seq<Pair<V>>)
  {
    forall i, j :: 0 <= i < j < |s| ==> s[i].key != s[j].key
  }

  lemma {:induction false} SortSorts<V>(ascending: bool, s: seq<Pair<V>>)
    requires DistinctKeys(s)
    ensures Sorted(ascending, Sort(ascending, s))
    ensures Dict(Sort(ascending, s)) == Dict(s)
  {
    if s != [] {
      SortSorts(ascending, s[1..]);
      DictKeys(s[1..], s[0].key);
      InsertSorts(ascending, s[0], Sort(ascending, s[1..]));
    }
  }

  /** One list of the pairs of a map, in an arbitrary order. */
  ghost function SomeOrder<V>(m: map<Bytes, V>): (s: seq<Pair<V>>)
    ensures Dict(s) == m && DistinctKeys(s)
    decreases |m|
  {
    if m == map[] then []
    else
      var k :| k in m;
      var rest := m - {k};
      assert |rest.Keys| < |m.Keys| by { assert rest.Keys == m.Keys - {k}; }
      var t := SomeOrder(rest);
      var s := [Pair(k, m[k])] + t;
      assert s[1..] == t;
      assert DistinctKeys(s) by {
        forall i, j | 0 <= i < j < |s| ensures s[i].key != s[j].key {
          if i == 0 { DictKeys(t, s[j].key); assert t[j - 1] == s[j]; }
        }
      }
      s
  }

  /** The sorted listing of a map: the plain reference that every iterator is compared with. */
  ghost function Listing<V>(ascending: bool, m: map<Bytes, V>): (s: seq<Pair<V>>)
    ensures Sorted(ascending, s) && Dict(s) == m
  {
    var t := SomeOrder(m);
    SortSorts(ascending, t);
    Sort(ascending, t)
  }

  /** The part of a map whose keys are in a range. */
  ghost function InRange<V>(m: map<Bytes, V>, start: Option<Bytes>, end: Option<Bytes>): map<Bytes, V>
  {
    map k | k in m && InDomain(k, start, end) :: m[k]
  }

  /** A map with writes (Some) and deletions (None) laid over it. */
  ghost function Overlay(m: map<Bytes, Bytes>, dirty: map<Bytes, Option<Bytes>>): map<Bytes, Bytes>
  {
    map k | k in m.Keys + dirty.Keys && (if k in dirty then dirty[k].Some? else true) ::
      if k in dirty then dirty[k].value else m[k]
  }

  lemma OverlayInRange(m: map<Bytes, Bytes>, dirty: map<Bytes, Option<Bytes>>,
                       start: Option<Bytes>, end: Option<Bytes>)
    ensures Overlay(InRange(m, start, end), InRange(dirty, start, end))
         == InRange(Overlay(m, dirty), start, end)
  {
  }

  /** What remains to be yielded when the parent cursor still has p and the cursor over dirty
      entries still has c: the cache shadows the parent and deletions are hidden. */
  ghost function Merge(ascending: bool, p: seq<Pair<Bytes>>, c: seq<Pair<Option<Bytes>>>): seq<Pair<Bytes>>
    decreases |p| + |c|
  {
    if c == [] then p
    else if p == [] || Before(ascending, c[0].key, p[0].key) then
      Live(c[0]) + Merge(ascending, p, c[1..])
    else if p[0].key == c[0].key then
      Live(c[0]) + Merge(ascending, p[1..], c[1..])
    else
      [p[0]] + Merge(ascending, p[1..], c)
  }

  ghost function Live(e: Pair<Option<Bytes>>): seq<Pair<Bytes>>
  {
    if e.value.Some? then [Pair(e.key, e.value.value)] else []
  }

  /** Merging sorted cursors lists the overlaid map, in order and without repetition. */
  lemma {:induction false} MergeLists(ascending: bool, p: seq<Pair<Bytes>>, c: seq<Pair<Option<Bytes>>>)
    requires Sorted(ascending, p) && Sorted(ascending, c)
    ensures Sorted(ascending, Merge(ascending, p, c))
    ensures Dict(Merge(ascending, p, c)) == Overlay(Dict(p), Dict(c))
    decreases |p| + |c|
  {
    if c == [] {
      assert Overlay(Dict(p), Dict(c)) == Dict(p);
    } else if p == [] || Before(ascending, c[0].key, p[0].key) {
      SortedHead(ascending, c);
      MergeLists(ascending, p, c[1..]);
      if p != [] { MergeBelow(ascending, c[0].key, p); }
      OverlayWrite(Dict(p), Dict(c[1..]), c[0]);
      MergeStep(ascending, c[0], Merge(ascending, p, c[1..]));
    } else if p[0].key == c[0].key {
      SortedHead(ascending, c);
      SortedHead(ascending, p);
      MergeLists(ascending, p[1..], c[1..]);
      OverlayWrite(Dict(p[1..]), Dict(c[1..]), c[0]);
      OverlayShadow(Dict(p[1..]), Dict(c), p[0]);
      MergeStep(ascending, c[0], Merge(ascending, p[1..], c[1..]));
    } else {
      BeforeIsStrictTotal(ascending, c[0].key, p[0].key);
      SortedHead(ascending, p);
      MergeBelow(ascending, p[0].key, c);
      MergeLists(ascending, p[1..], c);
      OverlayPass(Dict(p[1..]), Dict(c), p[0]);
      SortedCons(ascending, p[0], Merge(ascending, p[1..], c));
    }
  }

  lemma OverlayWrite(m: map<Bytes, Bytes>, dirty: map<Bytes, Option<Bytes>>, e: Pair<Option<Bytes>>)
    requires e.key !in m && e.key !in dirty
    ensures Overlay(m, dirty[e.key := e.value])
         == if e.value.Some? then Overlay(m, dirty)[e.key := e.value.value] else Overlay(m, dirty)
  {
  }

  lemma OverlayShadow(m: map<Bytes, Bytes>, dirty: map<Bytes, Option<Bytes>>, e: Pair<Bytes>)
    requires e.key in dirty
    ensures Overlay(m[e.key := e.value], dirty) == Overlay(m, dirty)
  {
  }

  lemma OverlayPass(m: map<Bytes, Bytes>, dirty: map<Bytes, Option<Bytes>>, e: Pair<Bytes>)
    requires e.key !in dirty
    ensures Overlay(m[e.key := e.value], dirty) == Overlay(m, dirty)[e.key := e.value]
  {
  }

  lemma MergeBelow<V>(ascending: bool, k: Bytes, s: seq<Pair<V>>)
    requires s != [] && Sorted(ascending, s) && Before(ascending, k, s[0].key)
    ensures forall x :: x in Dict(s) ==> Before(ascending, k, x)
    ensures k !in Dict(s)
  {
    SortedHead(ascending, s);
    forall x | x in Dict(s)
      ensures Before(ascending, k, x)
    {
      if x != s[0].key { BeforeIsTransitive(ascending, k, s[0].key, x); }
    }
    BeforeIsStrictTotal(ascending, k, k);
  }

  lemma MergeStep(ascending: bool, e: Pair<Option<Bytes>>, rest: seq<Pair<Bytes>>)
    requires Sorted(ascending, rest)
    requires forall k :: k in Dict(rest) ==> Before(ascending, e.key, k)
    ensures Sorted(ascending, Live(e) + rest)
    ensures Dict(Live(e) + rest) == if e.value.Some? then Dict(rest)[e.key := e.value.value] else Dict(rest)
  {
    if e.value.Some? {
      SortedCons(ascending, Pair(e.key, e.value.value), rest);
    } else {
      assert Live(e) + rest == rest;
    }
  }

  lemma SortedTail<V>(ascending: bool, s: seq<Pair<V>>)
    requires s != [] && Sorted(ascending, s)
    ensures Sorted(ascending, s[1..])
  {
  }

  /** Deletions are passed over by either of the two skips of the merging iterator. */
  lemma MergeSkips(ascending: bool, p: seq<Pair<Bytes>>, c: seq<Pair<Option<Bytes>>>)
    requires c != [] && c[0].value.None?
    ensures p == [] || Before(ascending, c[0].key, p[0].key) ==>
              Merge(ascending, p, c) == Merge(ascending, p, c[1..])
    ensures p != [] && p[0].key == c[0].key ==>
              Merge(ascending, p, c) == Merge(ascending, p[1..], c[1..])
  {
    if p != [] { BeforeIsStrictTotal(ascending, p[0].key, c[0].key); }
  }

  /** Neither cursor stands on a deletion that hides the next entry. */
  ghost predicate MergeSettled(ascending: bool, p: seq<Pair<Bytes>>, c: seq<Pair<Option<Bytes>>>)
  {
    c == [] || (p != [] && Before(ascending, p[0].key, c[0].key)) || c[0].value.Some?
  }

  /** How far the cursors of a settled merge move for one step of the merge. */
  ghost function MergeAdvance(ascending: bool, p: seq<Pair<Bytes>>, c: seq<Pair<Option<Bytes>>>):
    (seq<Pair<Bytes>>, seq<Pair<Option<Bytes>>>)
    requires p != [] || c != []
  {
    if p == [] then (p, c[1..])
    else if c == [] || Before(ascending, p[0].key, c[0].key) then (p[1..], c)
    else if p[0].key == c[0].key then (p[1..], c[1..])
    else (p, c[1..])
  }

  lemma MergeAdvances(ascending: bool, p: seq<Pair<Bytes>>, c: seq<Pair<Option<Bytes>>>)
    requires MergeSettled(ascending, p, c) && (p != [] || c != [])
    requires Sorted(ascending, p) && Sorted(ascending, c)
    ensures Merge(ascending, p, c) != []
    ensures var (p', c') := MergeAdvance(ascending, p, c);
            && Merge(ascending, p, c)[1..] == Merge(ascending, p', c')
            && Sorted(ascending, p') && Sorted(ascending, c')
  {
    if p != [] { SortedTail(ascending, p); }
    if c != [] { SortedTail(ascending, c); }
    if p != [] && c != [] { BeforeIsStrictTotal(ascending, p[0].key, c[0].key); }
  }

  /** Moving the first entry of what is left to the end of what was seen. */
  lemma Shift<T>(seen: seq<T>, entry: T, rest: seq<T>)
    ensures seen + ([entry] + rest) == (seen + [entry]) + rest
  {
  }
}
