/** The key-value stores. Go's KVStore interface has three implementations here: the committed
    tree, taken as an ordered map, the write-back cache over a parent store and the prefix
    store. They stack to any depth. */
module KVStores {
  import opened Bytes
  import opened Listings
  import opened Iterators
  import opened Prefix

  type Store = map<Bytes, Bytes>

  /** A cache entry. An entry that is not dirty only remembers what the parent answered. */
  datatype CValue = CValue(value: Option<Bytes>, deleted: bool, dirty: bool)

  function Lookup(m: map<Bytes, Bytes>, key: Bytes): Option<Bytes>
  {
    if key in m then Some(m[key]) else None
  }

  function Dirty(cache: map<Bytes, CValue>): map<Bytes, Option<Bytes>>
  {
    map k | k in cache && cache[k].dirty :: cache[k].value
  }

  /** Clean entries repeat the parent; a dirty entry has no value exactly when it is a deletion. */
  ghost predicate CacheAgrees(cache: map<Bytes, CValue>, below: map<Bytes, Bytes>)
  {
    forall k :: k in cache ==>
      if cache[k].dirty then cache[k].deleted <==> cache[k].value.None?
      else cache[k].value == Lookup(below, k)
  }

  lemma CacheAnswers(cache: map<Bytes, CValue>, below: map<Bytes, Bytes>, key: Bytes)
    requires CacheAgrees(cache, below)
    ensures key in cache ==> cache[key].value == Lookup(Overlay(below, Dirty(cache)), key)
    ensures key !in cache ==> Lookup(below, key) == Lookup(Overlay(below, Dirty(cache)), key)
  {
  }

  lemma CacheRemembers(cache: map<Bytes, CValue>, below: map<Bytes, Bytes>, key: Bytes)
    requires CacheAgrees(cache, below) && key !in cache
    ensures var cache' := cache[key := CValue(Lookup(below, key), false, false)];
            CacheAgrees(cache', below) && Dirty(cache') == Dirty(cache)
  {
  }

  lemma CacheWrites(cache: map<Bytes, CValue>, below: map<Bytes, Bytes>, key: Bytes, value: Option<Bytes>)
    requires CacheAgrees(cache, below)
    ensures var cache' := cache[key := CValue(value, value.None?, true)];
            && CacheAgrees(cache', below)
            && Overlay(below, Dirty(cache'))
            == Written(Overlay(below, Dirty(cache)), key, value)
  {
    DirtyUpdate(cache, key, value);
    OverlayAppend(below, Dirty(cache), key, value);
  }

  predicate IsEntry(cache: map<Bytes, CValue>, e: Pair<Option<Bytes>>)
  {
    && e.key in cache && cache[e.key].value == e.value
    && (cache[e.key].deleted <==> cache[e.key].value.None?)
  }

  lemma DirtyListing(cache: map<Bytes, CValue>, below: map<Bytes, Bytes>, items: seq<Pair<Option<Bytes>>>)
    requires CacheAgrees(cache, below)
    requires items == Listing(true, InRange(Dirty(cache), None, None))
    ensures Dict(items) == Dirty(cache)
    ensures forall i :: 0 <= i < |items| ==> IsEntry(cache, items[i])
  {
    assert InRange(Dirty(cache), None, None) == Dirty(cache);
    forall i | 0 <= i < |items|
      ensures IsEntry(cache, items[i])
    {
      DictAt(items, i);
    }
  }

  lemma EmptyOverlay(m: map<Bytes, Bytes>)
    ensures Overlay(m, map[]) == m
    ensures Dirty(map[]) == map[]
  {
  }

  lemma DirtyUpdate(cache: map<Bytes, CValue>, key: Bytes, value: Option<Bytes>)
    ensures Dirty(cache[key := CValue(value, value.None?, true)]) == Dirty(cache)[key := value]
  {
  }

  lemma OverlayAppend(m: map<Bytes, Bytes>, dirty: map<Bytes, Option<Bytes>>, key: Bytes, value: Option<Bytes>)
    ensures Overlay(m, dirty[key := value]) == Written(Overlay(m, dirty), key, value)
  {
  }

  /** A plain map after a write (Some) or a deletion (None) of one key. */
  ghost function Written(m: map<Bytes, Bytes>, key: Bytes, value: Option<Bytes>): map<Bytes, Bytes>
  {
    if value.Some? then m[key := value.value] else m - {key}
  }

  lemma {:induction false} DictAppend<V>(s: seq<Pair<V>>, p: Pair<V>)
    requires p.key !in Dict(s)
    ensures Dict(s + [p]) == Dict(s)[p.key := p.value]
  {
    if s == [] {
      assert s + [p] == [p];
      assert [p][1..] == [];
    } else {
      assert (s + [p])[1..] == s[1..] + [p];
      DictAppend(s[1..], p);
    }
  }

  /** Lists the entries of a map in a range: a loop over the map, which visits its entries in
      no particular order, and a sort. */
  method Collect<V>(m: map<Bytes, V>, start: Option<Bytes>, end: Option<Bytes>, ascending: bool)
    returns (s: seq<Pair<V>>)
    ensures s == Listing(ascending, InRange(m, start, end))
  {
    var items: seq<Pair<V>> := [];
    var todo := m.Keys;
    while todo != {}
      invariant todo <= m.Keys
      invariant DistinctKeys(items)
      invariant Dict(items) == InRange(m - todo, start, end)
      decreases |todo|
    {
      var key :| key in todo;
      VisitEntry(m, todo, key, start, end);
      if InDomain(key, start, end) {
        DistinctAppend(items, Pair(key, m[key]));
        items := items + [Pair(key, m[key])];
      }
      todo := todo - {key};
    }
    assert m - {} == m;
    SortSorts(ascending, items);
    s := Sort(ascending, items);
    SortedIsUnique(ascending, s, Listing(ascending, InRange(m, start, end)));
  }

  lemma VisitEntry<V>(m: map<Bytes, V>, todo: set<Bytes>, key: Bytes, start: Option<Bytes>, end: Option<Bytes>)
    requires todo <= m.Keys && key in todo
    ensures InRange(m - (todo - {key}), start, end)
         == if InDomain(key, start, end) then InRange(m - todo, start, end)[key := m[key]]
            else InRange(m - todo, start, end)
    ensures key !in InRange(m - todo, start, end)
  {
  }

  lemma DistinctAppend<V>(s: seq<Pair<V>>, p: Pair<V>)
    requires DistinctKeys(s) && p.key !in Dict(s)
    ensures DistinctKeys(s + [p])
    ensures Dict(s + [p]) == Dict(s)[p.key := p.value]
  {
    DictAppend(s, p);
    forall i | 0 <= i < |s|
      ensures s[i].key != p.key
    {
      DictKeys(s, s[i].key);
    }
  }

  datatype Kind = Tree | Cached | Prefixed

  class KVStore {
    ghost const Repr: set<KVStore>
    const kind: Kind
    const parent: KVStore?
    const prefix: Bytes
    var tree: map<Bytes, Bytes>
    var cache: map<Bytes, CValue>

    /** What the store holds, as one plain map. */
    ghost var view: map<Bytes, Bytes>

    /** How the stores are stacked; no part of it ever changes. */
    ghost predicate Shape()
      decreases Repr
    {
      && this in Repr
      && match kind
         case Tree =>
           parent == null && Repr == {this}
         case Cached =>
           parent != null && this !in parent.Repr && Repr == parent.Repr + {this} && parent.Shape()
         case Prefixed =>
           && parent != null && this !in parent.Repr && Repr == parent.Repr + {this} && parent.Shape()
           && prefix != []
    }

    /** The stores that a write to this one changes: prefix stores write through. */
    ghost function Touched(): set<KVStore>
      requires Shape()
      ensures this in Touched() && Touched() <= Repr
      decreases Repr
    {
      if kind.Prefixed? then {this} + parent.Touched() else {this}
    }

    ghost predicate Coherent()
      requires Shape()
      reads Repr
      decreases Repr
    {
      match kind
      case Tree =>
        view == tree
      case Cached =>
        && parent.Coherent()
        && CacheAgrees(cache, parent.view)
        && view == Overlay(parent.view, Dirty(cache))
      case Prefixed =>
        && parent.Coherent()
        && view == Strip(prefix, parent.view)
    }

    constructor OfTree(tree: map<Bytes, Bytes>)
      ensures Shape() && Coherent() && kind.Tree?
      ensures view == tree && fresh(Repr)
    {
      kind, parent, prefix := Tree, null, [];
      this.tree, cache, view := tree, map[], tree;
      Repr := {this};
    }

    /** NewCacheKVStore, and with it every CacheWrap. */
    constructor CacheWrap(parent: KVStore)
      requires parent.Shape() && parent.Coherent()
      ensures Shape() && Coherent() && kind.Cached? && this.parent == parent
      ensures view == parent.view && fresh(this) && Repr == parent.Repr + {this}
    {
      kind, this.parent, prefix := Cached, parent, [];
      tree, cache, view := map[], map[], parent.view;
      Repr := parent.Repr + {this};
      new;
      assert Overlay(parent.view, Dirty(cache)) == parent.view;
    }

    constructor Prefix(parent: KVStore, prefix: Bytes)
      requires parent.Shape() && parent.Coherent() && prefix != []
      ensures Shape() && Coherent() && kind.Prefixed? && this.parent == parent && this.prefix == prefix
      ensures view == Strip(prefix, parent.view) && fresh(this) && Repr == parent.Repr + {this}
    {
      kind, this.parent, this.prefix := Prefixed, parent, prefix;
      tree, cache, view := map[], map[], map[];
      Repr := parent.Repr + {this};
      new;
      view := Strip(prefix, parent.view);
    }

    /** A read fills the caches on its way and changes what no store holds. */
    method Get(key: Bytes) returns (value: Option<Bytes>)
      requires Shape() && Coherent()
      modifies Repr`cache
      ensures Coherent()
      ensures value == Lookup(view, key)
      decreases Repr
    {
      match kind
      case Tree =>
        value := Lookup(tree, key);
      case Cached =>
        CacheAnswers(cache, parent.view, key);
        if key in cache {
          value := cache[key].value;
        } else {
          CacheRemembers(cache, parent.view, key);
          value := parent.Get(key);
          cache := cache[key := CValue(value, false, false)];
        }
      case Prefixed =>
        StripIs(prefix, parent.view);
        value := parent.Get(prefix + key);
    }

    method Has(key: Bytes) returns (found: bool)
      requires Shape() && Coherent()
      modifies Repr`cache
      ensures Coherent()
      ensures found <==> key in view
    {
      var value := Get(key);
      found := value.Some?;
    }

    method Set(key: Bytes, value: Bytes)
      requires Shape() && Coherent()
      modifies Touched()
      ensures Coherent()
      ensures view == old(view)[key := value]
      decreases Repr
    {
      match kind
      case Tree =>
        tree := tree[key := value];
        view := tree;
      case Cached =>
        CacheWrites(cache, parent.view, key, Some(value));
        cache := cache[key := CValue(Some(value), false, true)];
        view := view[key := value];
      case Prefixed =>
        StripUpdates(prefix, parent.view, key, value);
        parent.Set(prefix + key, value);
        view := view[key := value];
    }

    method Delete(key: Bytes)
      requires Shape() && Coherent()
      modifies Touched()
      ensures Coherent()
      ensures view == old(view) - {key}
      decreases Repr
    {
      match kind
      case Tree =>
        tree := tree - {key};
        view := tree;
      case Cached =>
        CacheWrites(cache, parent.view, key, None);
        cache := cache[key := CValue(None, true, true)];
        view := view - {key};
      case Prefixed =>
        StripUpdates(prefix, parent.view, key, []);
        parent.Delete(prefix + key);
        view := view - {key};
    }

    /** Moves what this cache holds into the parent: every dirty entry, in key order. */
    method Write()
      requires Shape() && Coherent() && kind.Cached?
      modifies this, parent.Touched()
      ensures Coherent()
      ensures view == old(view) && parent.view == view
      ensures cache == map[]
    {
      var items := DirtyItems(None, None, true);
      DirtyListing(cache, parent.view, items);
      WriteEntries(items);
      cache := map[];
      EmptyOverlay(parent.view);
    }

    method WriteEntries(items: seq<Pair<Option<Bytes>>>)
      requires Shape() && kind.Cached? && parent.Coherent()
      requires Sorted(true, items)
      requires forall i :: 0 <= i < |items| ==> IsEntry(cache, items[i])
      modifies parent.Touched()
      ensures parent.Coherent()
      ensures parent.view == Overlay(old(parent.view), Dict(items))
    {
      EmptyOverlay(parent.view);
      for i := 0 to |items|
        invariant parent.Coherent()
        invariant parent.view == Overlay(old(parent.view), Dict(items[..i]))
      {
        PrefixOfListing(items, i);
        OverlayAppend(old(parent.view), Dict(items[..i]), items[i].key, items[i].value);
        assert IsEntry(cache, items[i]);
        WriteEntry(items[i].key);
      }
      assert items[..|items|] == items;
    }

    /** What Write does for one dirty key. */
    method WriteEntry(key: Bytes)
      requires Shape() && kind.Cached? && parent.Coherent()
      requires key in cache && (cache[key].deleted <==> cache[key].value.None?)
      modifies parent.Touched()
      ensures parent.Coherent()
      ensures parent.view == Written(old(parent.view), key, cache[key].value)
    {
      var cacheValue := cache[key];
      if cacheValue.deleted {
        parent.Delete(key);
      } else if cacheValue.value.None? {
        // nothing to do: the parent does not have the key
      } else {
        parent.Set(key, cacheValue.value.value);
      }
    }

    method DirtyItems(start: Option<Bytes>, end: Option<Bytes>, ascending: bool)
      returns (items: seq<Pair<Option<Bytes>>>)
      ensures items == Listing(ascending, InRange(Dirty(cache), start, end))
    {
      items := Collect(Dirty(cache), start, end, ascending);
    }

    /** Iterator and ReverseIterator: a fresh cursor over exactly what the store holds in the
        range, in order. */
    method Iterator(start: Option<Bytes>, end: Option<Bytes>, ascending: bool) returns (iter: KVIterator)
      requires Shape() && Coherent()
      ensures iter.Shape() && iter.Ready() && fresh(iter.Repr)
      ensures iter.rest == Listing(ascending, InRange(view, start, end))
      decreases Repr
    {
      if kind.Tree? {
        var items := Collect(tree, start, end, ascending);
        iter := new KVIterator.OverTree(items);
      } else if kind.Cached? {
        iter := CacheIterator(start, end, ascending);
      } else {
        iter := PrefixIterator(start, end, ascending);
      }
    }

    method CacheIterator(start: Option<Bytes>, end: Option<Bytes>, ascending: bool) returns (iter: KVIterator)
      requires Shape() && Coherent() && kind.Cached?
      ensures iter.Shape() && iter.Ready() && fresh(iter.Repr)
      ensures iter.rest == Listing(ascending, InRange(view, start, end))
      decreases Repr, 0
    {
      var below := parent.Iterator(start, end, ascending);
      var items := DirtyItems(start, end, ascending);
      var mem := new MemIterator(start, end, items);
      ListingWithin(ascending, Dirty(cache), start, end);
      MergedListing(ascending, parent.view, Dirty(cache), start, end);
      iter := new KVIterator.OverMerge(below, mem, ascending);
    }

    method PrefixIterator(start: Option<Bytes>, end: Option<Bytes>, ascending: bool) returns (iter: KVIterator)
      requires Shape() && Coherent() && kind.Prefixed?
      ensures iter.Shape() && iter.Ready() && fresh(iter.Repr)
      ensures iter.rest == Listing(ascending, InRange(view, start, end))
      decreases Repr, 1
    {
      var below := ParentIterator(start, end, ascending);
      iter := new KVIterator.OverPrefix(prefix, below);
    }

    method ParentIterator(start: Option<Bytes>, end: Option<Bytes>, ascending: bool) returns (below: KVIterator)
      requires Shape() && Coherent() && kind.Prefixed?
      ensures below.Shape() && below.Ready() && fresh(below.Repr)
      ensures StripWhile(prefix, below.rest) == Listing(ascending, InRange(view, start, end))
      decreases Repr, 0
    {
      var newStart, newEnd := ParentBounds(start, end);
      PrefixIteration(ascending, prefix, parent.view, start, end);
      below := parent.Iterator(newStart, newEnd, ascending);
    }

    method ParentBounds(start: Option<Bytes>, end: Option<Bytes>)
      returns (newStart: Option<Bytes>, newEnd: Option<Bytes>)
      requires Shape() && kind.Prefixed?
      ensures newStart == ParentStart(prefix, start) && newEnd == ParentEnd(prefix, end)
    {
      newStart := Some(prefix + (if start.Some? then start.value else []));
      if end.None? {
        var incremented := PrefixEndBytes(Some(prefix));
        newEnd := incremented.value;
      } else {
        newEnd := Some(prefix + end.value);
      }
    }
  }

  lemma PrefixOfListing<V>(s: seq<Pair<V>>, i: nat)
    requires Sorted(true, s) && i < |s|
    ensures s[i].key !in Dict(s[..i])
    ensures Dict(s[..i + 1]) == Dict(s[..i])[s[i].key := s[i].value]
    ensures s[i].key in Dict(s) && Dict(s)[s[i].key] == s[i].value
  {
    KeyIsNew(s, i);
    assert s[..i + 1] == s[..i] + [s[i]];
    DictAppend(s[..i], s[i]);
    DictAt(s, i);
  }

  lemma KeyIsNew<V>(s: seq<Pair<V>>, i: nat)
    requires Sorted(true, s) && i < |s|
    ensures s[i].key !in Dict(s[..i])
  {
    DictKeys(s[..i], s[i].key);
    BeforeIsStrictTotal(true, s[i].key, s[i].key);
  }

  lemma {:induction false} DictAt<V>(s: seq<Pair<V>>, i: nat)
    requires Sorted(true, s) && i < |s|
    ensures s[i].key in Dict(s) && Dict(s)[s[i].key] == s[i].value
  {
    if i > 0 {
      SortedHead(true, s);
      DictAt(s[1..], i - 1);
    }
  }

  lemma ListingWithin<V>(ascending: bool, m: map<Bytes, V>, start: Option<Bytes>, end: Option<Bytes>)
    ensures Within(Listing(ascending, InRange(m, start, end)), start, end)
         == Listing(ascending, InRange(m, start, end))
  {
    var s := Listing(ascending, InRange(m, start, end));
    forall i | 0 <= i < |s|
      ensures InDomain(s[i].key, start, end)
    {
      DictKeys(s, s[i].key);
    }
    WithinAll(s, start, end);
  }

  /** The merge of the two listings lists the overlaid map: this is what an iterator over a
      cache yields, for every range and in both directions. */
  lemma MergedListing(ascending: bool, below: map<Bytes, Bytes>, dirty: map<Bytes, Option<Bytes>>,
                      start: Option<Bytes>, end: Option<Bytes>)
    ensures Merge(ascending, Listing(ascending, InRange(below, start, end)),
                             Listing(ascending, InRange(dirty, start, end)))
         == Listing(ascending, InRange(Overlay(below, dirty), start, end))
  {
    var p := Listing(ascending, InRange(below, start, end));
    var c := Listing(ascending, InRange(dirty, start, end));
    MergeLists(ascending, p, c);
    OverlayInRange(below, dirty, start, end);
    SortedIsUnique(ascending, Merge(ascending, p, c),
                   Listing(ascending, InRange(Overlay(below, dirty), start, end)));
  }
}
