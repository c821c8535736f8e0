/** The iterators of the store layer. Go's Iterator interface has three implementations here:
    a cursor over the committed tree, the merge of a parent iterator with a cursor over dirty
    cache entries, and the prefix iterator. They nest to any depth. */
module Iterators {
  import opened Bytes
  import opened Listings

  ghost function Within<V>(s: seq<Pair<V>>, start: Option<Bytes>, end: Option<Bytes>): seq<Pair<V>>
  {
    if s == [] then []
    else if InDomain(s[|s| - 1].key, start, end) then Within(s[..|s| - 1], start, end) + [s[|s| - 1]]
    else Within(s[..|s| - 1], start, end)
  }

  lemma {:induction false} WithinAll<V>(s: seq<Pair<V>>, start: Option<Bytes>, end: Option<Bytes>)
    requires forall i :: 0 <= i < |s| ==> InDomain(s[i].key, start, end)
    ensures Within(s, start, end) == s
  {
    if s != [] {
      var init, last := s[..|s| - 1], s[|s| - 1];
      assert s == init + [last];
      assert InDomain(last.key, start, end);
      forall i | 0 <= i < |init|
        ensures InDomain(init[i].key, start, end)
      {
        assert init[i] == s[i];
      }
      WithinAll(init, start, end);
    }
  }

  /** A cursor over a private copy of dirty entries; a missing value marks a deletion. */
  class MemIterator {
    var items: seq<Pair<Option<Bytes>>>

    constructor (start: Option<Bytes>, end: Option<Bytes>, all: seq<Pair<Option<Bytes>>>)
      ensures items == Within(all, start, end)
    {
      var itemsInDomain := [];
      for i := 0 to |all|
        invariant itemsInDomain == Within(all[..i], start, end)
      {
        assert all[..i + 1][..i] == all[..i];
        if InDomain(all[i].key, start, end) {
          itemsInDomain := itemsInDomain + [all[i]];
        }
      }
      assert all[..|all|] == all;
      items := itemsInDomain;
    }

    method Valid() returns (valid: bool)
      ensures valid <==> items != []
    {
      valid := |items| > 0;
    }

    method Next()
      requires items != []
      modifies this
      ensures items == old(items)[1..]
    {
      items := items[1..];
    }

    method Key() returns (key: Bytes)
      requires items != []
      ensures key == items[0].key
    {
      key := items[0].key;
    }

    method Value() returns (value: Option<Bytes>)
      requires items != []
      ensures value == items[0].value
    {
      value := items[0].value;
    }
  }

  function HasPrefix(key: Bytes, prefix: Bytes): bool
  {
    prefix <= key
  }

  /** The entries up to the first one without the prefix, with the prefix removed. */
  ghost function StripWhile(prefix: Bytes, s: seq<Pair<Bytes>>): seq<Pair<Bytes>>
  {
    if s == [] || !HasPrefix(s[0].key, prefix) then []
    else [Pair(s[0].key[|prefix|..], s[0].value)] + StripWhile(prefix, s[1..])
  }

  datatype Heads = NoParent | NoCache | Both(cmp: int)

  ghost function HeadsOf(ascending: bool, p: seq<Pair<Bytes>>, c: seq<Pair<Option<Bytes>>>): Heads
  {
    if p == [] then NoParent
    else if c == [] then NoCache
    else Both(DirectedCompare(ascending, p[0].key, c[0].key))
  }

  datatype Source = FromTree | FromMerge | FromPrefix

  class KVIterator {
    ghost const Repr: set<object>
    const source: Source
    const parent: KVIterator?
    const cache: MemIterator?
    const ascending: bool
    const prefix: Bytes
    var items: seq<Pair<Bytes>>
    var valid: bool

    /** What the iterator has still to yield. */
    ghost var rest: seq<Pair<Bytes>>

    /** How the parts are linked; no part of it ever changes. */
    ghost predicate Shape()
      decreases Repr
    {
      && this in Repr
      && match source
         case FromTree =>
           parent == null && cache == null && Repr == {this}
         case FromMerge =>
           && parent != null && cache != null
           && this !in parent.Repr && cache !in parent.Repr
           && Repr == parent.Repr + {this, cache}
           && parent.Shape()
         case FromPrefix =>
           && parent != null && cache == null
           && this !in parent.Repr && Repr == parent.Repr + {this}
           && parent.Shape()
    }

    /** `rest` is what the parts of the iterator have still to yield. */
    ghost predicate Ready()
      requires Shape()
      reads Repr
      decreases Repr
    {
      match source
      case FromTree =>
        rest == items
      case FromMerge =>
        && parent.Ready()
        && Sorted(ascending, parent.rest) && Sorted(ascending, cache.items)
        && rest == Merge(ascending, parent.rest, cache.items)
      case FromPrefix =>
        && parent.Ready()
        && rest == (if valid then StripWhile(prefix, parent.rest) else [])
        && (valid ==> rest != [])
    }

    constructor OverTree(items: seq<Pair<Bytes>>)
      ensures Shape() && Ready() && fresh(Repr)
      ensures rest == items
    {
      source, parent, cache, ascending, prefix := FromTree, null, null, true, [];
      this.items, valid, rest := items, true, items;
      Repr := {this};
    }

    constructor OverMerge(parent: KVIterator, cache: MemIterator, ascending: bool)
      requires parent.Shape() && parent.Ready() && cache !in parent.Repr
      requires Sorted(ascending, parent.rest) && Sorted(ascending, cache.items)
      ensures Shape() && Ready() && fresh(this) && Repr == parent.Repr + {this, cache}
      ensures rest == Merge(ascending, parent.rest, cache.items)
    {
      source, this.parent, this.cache, this.ascending, prefix := FromMerge, parent, cache, ascending, [];
      items, valid := [], true;
      rest := Merge(ascending, parent.rest, cache.items);
      Repr := parent.Repr + {this, cache};
    }

    constructor OverPrefix(prefix: Bytes, parent: KVIterator)
      requires parent.Shape() && parent.Ready()
      modifies parent.Repr
      ensures Shape() && Ready() && fresh(this) && Repr == parent.Repr + {this}
      ensures rest == StripWhile(prefix, old(parent.rest))
    {
      source, this.parent, cache, ascending, this.prefix := FromPrefix, parent, null, true, prefix;
      items := [];
      Repr := parent.Repr + {this};
      valid, rest := false, StripWhile(prefix, parent.rest);
      new;
      var ok := parent.Valid();
      if ok {
        var key := parent.Key();
        valid := HasPrefix(key, prefix);
      }
    }

    method Valid() returns (ok: bool)
      requires Shape() && Ready()
      modifies Repr
      ensures Ready() && rest == old(rest)
      ensures ok <==> rest != []
      ensures source.FromMerge? ==> Settled()
      decreases Repr, 3
    {
      match source
      case FromTree =>
        ok := |items| > 0;
      case FromMerge =>
        ok := SkipUntilExistsOrInvalid();
      case FromPrefix =>
        ok := false;
        if valid {
          ok := parent.Valid();
        }
    }

    method Key() returns (key: Bytes)
      requires Shape() && Ready() && rest != []
      modifies Repr
      ensures Ready() && rest == old(rest)
      ensures key == rest[0].key
      decreases Repr, 4
    {
      match source
      case FromTree =>
        key := items[0].key;
      case FromMerge =>
        var _ := SkipUntilExistsOrInvalid();
        var _ := Valid();
        var heads := PeekHeads();
        if heads.NoParent? || (heads.Both? && heads.cmp == 1) {
          key := cache.Key();
        } else {
          key := parent.Key();
        }
      case FromPrefix =>
        key := parent.Key();
        key := key[|prefix|..];
    }

    method Value() returns (value: Bytes)
      requires Shape() && Ready() && rest != []
      modifies Repr
      ensures Ready() && rest == old(rest)
      ensures value == rest[0].value
      decreases Repr, 4
    {
      match source
      case FromTree =>
        value := items[0].value;
      case FromMerge =>
        var _ := SkipUntilExistsOrInvalid();
        var _ := Valid();
        var heads := PeekHeads();
        if heads.NoCache? || (heads.Both? && heads.cmp == -1) {
          value := parent.Value();
        } else {
          var v := cache.Value();
          value := v.value;
        }
      case FromPrefix =>
        value := parent.Value();
    }

    method Next()
      requires Shape() && Ready() && rest != []
      modifies Repr
      ensures Ready() && rest == old(rest)[1..]
      decreases Repr, 5
    {
      match source
      case FromTree =>
        items := items[1..];
        rest := rest[1..];
      case FromMerge =>
        NextOfMerge();
      case FromPrefix =>
        NextOfPrefix();
    }

    method NextOfPrefix()
      requires Shape() && Ready() && source.FromPrefix? && rest != []
      modifies Repr
      ensures Ready() && rest == old(rest)[1..]
      decreases Repr, 0
    {
      rest := rest[1..];
      assert rest == StripWhile(prefix, parent.rest[1..]);
      parent.Next();
      var ok := parent.Valid();
      if ok {
        var key := parent.Key();
        valid := HasPrefix(key, prefix);
      } else {
        valid := false;
      }
    }

    method NextOfMerge()
      requires Shape() && Ready() && source.FromMerge? && rest != []
      modifies Repr
      ensures Ready() && rest == old(rest)[1..]
      decreases Repr, 4
    {
      var _ := SkipUntilExistsOrInvalid();
      var _ := Valid();
      var heads := PeekHeads();
      ghost var (p, c) := MergeAdvance(ascending, parent.rest, cache.items);
      MergeAdvances(ascending, parent.rest, cache.items);
      Advance(heads);
      assert parent.rest == p && cache.items == c;
      rest := rest[1..];
    }

    method Advance(heads: Heads)
      requires Shape() && source.FromMerge? && parent.Ready()
      requires parent.rest != [] || cache.items != []
      requires heads == HeadsOf(ascending, parent.rest, cache.items)
      modifies parent.Repr, cache
      ensures parent.Ready()
      ensures (parent.rest, cache.items) == old(MergeAdvance(ascending, parent.rest, cache.items))
      decreases Repr, 0
    {
      if heads.NoParent? {
        cache.Next();
      } else if heads.NoCache? {
        parent.Next();
      } else if heads.cmp == -1 {
        parent.Next();
      } else if heads.cmp == 0 {
        parent.Next();
        cache.Next();
      } else {
        BeforeIsStrictTotal(ascending, parent.rest[0].key, cache.items[0].key);
        cache.Next();
      }
    }

    /** Asks both cursors whether they are valid and, if so, compares their keys. */
    method PeekHeads() returns (heads: Heads)
      requires Shape() && Ready() && source.FromMerge?
      modifies parent.Repr
      ensures parent.Ready() && parent.rest == old(parent.rest)
      ensures Ready() && rest == old(rest)
      ensures heads == HeadsOf(ascending, parent.rest, cache.items)
      decreases Repr, 0
    {
      var parentValid := parent.Valid();
      if !parentValid {
        return NoParent;
      }
      var cacheValid := cache.Valid();
      if !cacheValid {
        return NoCache;
      }
      var keyP := parent.Key();
      var keyC := cache.Key();
      return Both(DirectedCompare(ascending, keyP, keyC));
    }

    /** The current entry of the merge can be read off the two cursors. */
    ghost predicate Settled()
      requires Shape() && source.FromMerge?
      reads this, parent, cache
    {
      MergeSettled(ascending, parent.rest, cache.items)
    }

    /** Skips deletions before `until` in the cursor over dirty entries. */
    method SkipCacheDeletes(until: Option<Bytes>)
      requires Shape() && Ready() && source.FromMerge?
      requires parent.rest == [] <==> until.None?
      requires until.Some? ==> parent.rest[0].key == until.value
      modifies cache
      ensures Ready() && rest == old(rest)
      ensures |cache.items| <= old(|cache.items|)
      ensures cache.items != [] ==> !Skippable(cache.items[0], until)
      ensures old(cache.items != [] && Skippable(cache.items[0], until)) ==> |cache.items| < old(|cache.items|)
    {
      ghost var p := parent.rest;
      var more := true;
      while more
        invariant Sorted(ascending, cache.items)
        invariant Merge(ascending, p, cache.items) == old(rest)
        invariant cache.items == old(cache.items) || |cache.items| < old(|cache.items|)
        invariant !more && cache.items != [] ==> !Skippable(cache.items[0], until)
        decreases more, |cache.items|
      {
        more := false;
        var ok := cache.Valid();
        if ok {
          var value := cache.Value();
          var key := cache.Key();
          if value.None? && (until.None? || DirectedCompare(ascending, key, until.value) < 0) {
            MergeSkips(ascending, p, cache.items);
            SortedTail(ascending, cache.items);
            cache.Next();
            more := true;
          }
        }
      }
    }

    ghost predicate Skippable(e: Pair<Option<Bytes>>, until: Option<Bytes>)
    {
      e.value.None? && (until.None? || Before(ascending, e.key, until.value))
    }

    /** Moves the cursors to the next entry that exists, if there is one. */
    method SkipUntilExistsOrInvalid() returns (ok: bool)
      requires Shape() && Ready() && source.FromMerge?
      modifies Repr
      ensures Ready() && rest == old(rest)
      ensures Settled()
      ensures ok <==> rest != []
      decreases Repr, 2
    {
      var more := true;
      ok := false;
      while more
        invariant Ready() && rest == old(rest)
        invariant !more ==> Settled() && (ok <==> rest != [])
        decreases more, |parent.rest| + |cache.items|
      {
        more, ok := SkipOnce();
      }
    }

    /** One round of the loop above: `more` says that an entry was skipped. */
    method SkipOnce() returns (more: bool, ok: bool)
      requires Shape() && Ready() && source.FromMerge?
      modifies Repr
      ensures Ready() && rest == old(rest)
      ensures !more ==> Settled() && (ok <==> rest != [])
      ensures more ==> |parent.rest| + |cache.items| < old(|parent.rest| + |cache.items|)
      decreases Repr, 1
    {
      var heads := PeekHeads();
      if heads.NoParent? {
        SkipCacheDeletes(None);
        ok := cache.Valid();
        return false, ok;
      }
      if heads.NoCache? {
        return false, true;
      }
      var valueC := cache.Value();
      if heads.cmp == -1 || valueC.Some? {
        MergeAdvances(ascending, parent.rest, cache.items);
        return false, true;
      }
      SkipDeletion(heads.cmp == 0);
      return true, false;
    }

    /** Passes over a deletion, together with the parent entry that it hides if there is one. */
    method SkipDeletion(hidesParent: bool)
      requires Shape() && Ready() && source.FromMerge?
      requires cache.items != [] && cache.items[0].value.None? && parent.rest != []
      requires if hidesParent then parent.rest[0].key == cache.items[0].key
               else Before(ascending, cache.items[0].key, parent.rest[0].key)
      modifies Repr
      ensures Ready() && rest == old(rest)
      ensures |parent.rest| + |cache.items| < old(|parent.rest| + |cache.items|)
      decreases Repr, 0
    {
      if hidesParent {
        MergeSkips(ascending, parent.rest, cache.items);
        SortedTail(ascending, parent.rest);
        SortedTail(ascending, cache.items);
        parent.Next();
        cache.Next();
      } else {
        var keyP := parent.Key();
        SkipCacheDeletes(Some(keyP));
      }
    }

    /** Reads the current entry and moves on. */
    method Take() returns (entry: Pair<Bytes>)
      requires Shape() && Ready() && rest != []
      modifies Repr
      ensures Ready() && [entry] + rest == old(rest)
    {
      var key := Key();
      var value := Value();
      entry := Pair(key, value);
      Next();
    }

    /** A loop over the iterator, as every caller in the source writes it. */
    method Drain() returns (out: seq<Pair<Bytes>>)
      requires Shape() && Ready()
      modifies Repr
      ensures Ready() && rest == []
      ensures out == old(rest)
    {
      out := [];
      var ok := Valid();
      while ok
        invariant Ready() && (ok <==> rest != [])
        invariant out + rest == old(rest)
        decreases |rest|
      {
        var entry := Take();
        Shift(out, entry, rest);
        out := out + [entry];
        ok := Valid();
      }
    }
  }
}
