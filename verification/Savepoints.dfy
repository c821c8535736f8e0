/** Runs of operations on a stack of caches, compared with a plain stack of maps: a cache is a
    savepoint, Write merges it into the one below and dropping it rolls it back. */
module Savepoints {
  import opened Bytes
  import opened Listings
  import opened Iterators
  import opened KVStores

  datatype Op =
    | Get(key: Bytes)
    | Has(key: Bytes)
    | Set(key: Bytes, value: Bytes)
    | Delete(key: Bytes)
    | CacheWrap
    | Write
    | Discard

  datatype Answer = Value(value: Option<Bytes>) | Found(found: bool) | Done

  /** What an operation answers on a plain stack of maps, the top one first. */
  function Reply(op: Op, stack: seq<Store>): Answer
    requires stack != []
  {
    match op
    case Get(key) => Value(Lookup(stack[0], key))
    case Has(key) => Found(key in stack[0])
    case _ => Done
  }

  /** The bottom of the stack is never written or dropped: it is the committed store. */
  function Step(op: Op, stack: seq<Store>): (next: seq<Store>)
    requires stack != []
    ensures next != []
  {
    match op
    case Get(_) => stack
    case Has(_) => stack
    case Set(key, value) => stack[0 := stack[0][key := value]]
    case Delete(key) => stack[0 := stack[0] - {key}]
    case CacheWrap => [stack[0]] + stack
    case Write => if |stack| > 1 then stack[1 := stack[0]] else stack
    case Discard => if |stack| > 1 then stack[1..] else stack
  }

  function Run(ops: seq<Op>, stack: seq<Store>): (next: seq<Store>)
    requires stack != []
    ensures next != []
  {
    if ops == [] then stack else Run(ops[1..], Step(ops[0], stack))
  }

  function Replies(ops: seq<Op>, stack: seq<Store>): seq<Answer>
    requires stack != []
  {
    if ops == [] then [] else [Reply(ops[0], stack)] + Replies(ops[1..], Step(ops[0], stack))
  }

  /** A stack of caches over the committed tree. */
  ghost predicate CacheStack(top: KVStore)
    requires top.Shape()
    decreases top.Repr
  {
    top.kind.Tree? || (top.kind.Cached? && CacheStack(top.parent))
  }

  /** What each store of the stack holds, the top one first. */
  ghost function Views(top: KVStore): seq<Store>
    requires top.Shape()
    reads top.Repr`view
    decreases top.Repr
  {
    if top.parent == null then [top.view] else [top.view] + Views(top.parent)
  }

  /** Every run of operations on a stack of caches of any depth answers as the plain stack of
      maps does and leaves the same maps in every store of the stack. */
  method Execute(top: KVStore, ops: seq<Op>) returns (next: KVStore, answers: seq<Answer>)
    requires top.Shape() && top.Coherent() && CacheStack(top)
    modifies top.Repr
    ensures next.Shape() && next.Coherent() && CacheStack(next) && fresh(next.Repr - top.Repr)
    ensures Views(next) == Run(ops, old(Views(top)))
    ensures answers == Replies(ops, old(Views(top)))
    decreases |ops|
  {
    if ops == [] {
      return top, [];
    }
    var after, answer := ExecuteOne(top, ops[0]);
    var rest;
    next, rest := Execute(after, ops[1..]);
    answers := [answer] + rest;
  }

  method ExecuteOne(top: KVStore, op: Op) returns (next: KVStore, answer: Answer)
    requires top.Shape() && top.Coherent() && CacheStack(top)
    modifies top.Repr
    ensures next.Shape() && next.Coherent() && CacheStack(next) && fresh(next.Repr - top.Repr)
    ensures Views(next) == Step(op, old(Views(top)))
    ensures answer == Reply(op, old(Views(top)))
  {
    if Flat(op) {
      next := top;
      answer := ExecuteFlat(top, op);
    } else {
      answer := Done;
      next := ExecuteStacking(top, op);
    }
  }

  predicate Flat(op: Op)
  {
    op.Get? || op.Has? || op.Set? || op.Delete?
  }

  predicate AllFlat(ops: seq<Op>)
  {
    forall i :: 0 <= i < |ops| ==> Flat(ops[i])
  }

  method ExecuteFlat(top: KVStore, op: Op) returns (answer: Answer)
    requires top.Shape() && top.Coherent() && CacheStack(top) && Flat(op)
    modifies top.Repr
    ensures top.Coherent()
    ensures Views(top) == Step(op, old(Views(top)))
    ensures answer == Reply(op, old(Views(top)))
  {
    answer := Done;
    if op.Get? {
      var value := top.Get(op.key);
      answer := Value(value);
    } else if op.Has? {
      var found := top.Has(op.key);
      answer := Found(found);
    } else {
      ExecuteWrite(top, op);
    }
  }

  method ExecuteWrite(top: KVStore, op: Op)
    requires top.Shape() && top.Coherent() && CacheStack(top) && (op.Set? || op.Delete?)
    modifies top
    ensures top.Coherent()
    ensures Views(top) == Step(op, old(Views(top)))
  {
    ghost var below := Below(top);
    if op.Set? {
      top.Set(op.key, op.value);
    } else {
      top.Delete(op.key);
    }
    assert Below(top) == below;
  }

  ghost function Below(top: KVStore): seq<Store>
    requires top.Shape()
    reads top.Repr - {top}
    ensures Views(top) == [top.view] + Below(top)
  {
    if top.parent == null then [] else Views(top.parent)
  }

  method ExecuteStacking(top: KVStore, op: Op) returns (next: KVStore)
    requires top.Shape() && top.Coherent() && CacheStack(top) && !Flat(op)
    modifies top.Repr
    ensures next.Shape() && next.Coherent() && CacheStack(next) && fresh(next.Repr - top.Repr)
    ensures Views(next) == Step(op, old(Views(top)))
  {
    next := top;
    if op.CacheWrap? {
      next := new KVStore.CacheWrap(top);
    } else if top.kind.Cached? {
      if op.Write? {
        top.Write();
      } else {
        next := top.parent;
      }
    }
  }

  /** How high the stack is over a given level after a run that starts `height` above it, and
      whether the run ever writes into that level or drops below it. */
  predicate StaysAbove(ops: seq<Op>, height: nat)
  {
    ops == [] ||
    match ops[0]
    case CacheWrap => StaysAbove(ops[1..], height + 1)
    case Write => height > 1 && StaysAbove(ops[1..], height)
    case Discard => height > 1 && StaysAbove(ops[1..], height - 1)
    case _ => StaysAbove(ops[1..], height)
  }

  lemma StepIsolation(op: Op, upper: seq<Store>, lower: seq<Store>)
    requires upper != [] && (op.Write? || op.Discard? ==> |upper| > 1)
    ensures Step(op, upper + lower) == Step(op, upper) + lower
    ensures Reply(op, upper + lower) == Reply(op, upper)
  {
  }

  /** Nothing that happens above a level can be seen below it. */
  lemma {:induction false} Isolation(ops: seq<Op>, upper: seq<Store>, lower: seq<Store>)
    requires upper != [] && StaysAbove(ops, |upper|)
    ensures Run(ops, upper + lower) == Run(ops, upper) + lower
    ensures Replies(ops, upper + lower) == Replies(ops, upper)
  {
    if ops != [] {
      StepIsolation(ops[0], upper, lower);
      Isolation(ops[1..], Step(ops[0], upper), lower);
    }
  }

  lemma {:induction false} RunAppend(a: seq<Op>, b: seq<Op>, stack: seq<Store>)
    requires stack != []
    ensures Run(a + b, stack) == Run(b, Run(a, stack))
  {
    if a == [] {
      assert a + b == b;
    } else {
      assert (a + b)[1..] == a[1..] + b;
      RunAppend(a[1..], b, Step(a[0], stack));
    }
  }

  /** A cache around a run that closes what it opens: dropped, it leaves no trace; written, it
      does what the run does without it. */
  lemma Transaction(body: seq<Op>, top: Store, lower: seq<Store>)
    requires StaysAbove(body, 1) && |Run(body, [top])| == 1
    ensures Run([CacheWrap] + body + [Discard], [top] + lower) == [top] + lower
    ensures Run([CacheWrap] + body + [Write, Discard], [top] + lower) == Run(body, [top] + lower)
  {
    var result := Run(body, [top]);
    Isolation(body, [top], lower);
    Wrapped(body, [Discard], top, lower);
    DiscardTop(result[0], [top] + lower);
    Wrapped(body, [Write, Discard], top, lower);
    WriteTop(result[0], top, lower);
    assert result == [result[0]];
  }

  lemma Wrapped(body: seq<Op>, close: seq<Op>, top: Store, lower: seq<Store>)
    requires StaysAbove(body, 1)
    ensures Run([CacheWrap] + body + close, [top] + lower) == Run(close, Run(body, [top]) + ([top] + lower))
  {
    var all := [CacheWrap] + body + close;
    assert all[1..] == body + close;
    assert Step(CacheWrap, [top] + lower) == [top] + ([top] + lower);
    RunAppend(body, close, [top] + ([top] + lower));
    Isolation(body, [top], [top] + lower);
  }

  lemma DiscardTop(result: Store, lower: seq<Store>)
    requires lower != []
    ensures Run([Discard], [result] + lower) == lower
  {
    assert [Discard][1..] == [];
    assert ([result] + lower)[1..] == lower;
    assert Run([], lower) == lower;
  }

  lemma WriteTop(result: Store, top: Store, lower: seq<Store>)
    ensures Run([Write, Discard], [result] + ([top] + lower)) == [result] + lower
  {
    assert [Write, Discard][1..] == [Discard];
    assert Step(Write, [result] + ([top] + lower)) == [result] + ([result] + lower);
    DiscardTop(result, [result] + lower);
  }

  /** The effect of operations that open and close no cache, on one map. */
  ghost function Effect(ops: seq<Op>, m: Store): Store
  {
    if ops == [] then m
    else Effect(ops[1..], match ops[0]
                          case Set(key, value) => m[key := value]
                          case Delete(key) => m - {key}
                          case _ => m)
  }

  method Perform(store: KVStore, ops: seq<Op>)
    requires store.Shape() && store.Coherent()
    requires AllFlat(ops)
    modifies store.Repr`cache, store.Touched()
    ensures store.Coherent()
    ensures store.view == Effect(ops, old(store.view))
    decreases |ops|
  {
    if ops != [] {
      match ops[0] {
        case Get(key) => var _ := store.Get(key);
        case Has(key) => var _ := store.Has(key);
        case Set(key, value) => store.Set(key, value);
        case Delete(key) => store.Delete(key);
      }
      Perform(store, ops[1..]);
    }
  }

  ghost function Flatten(batches: seq<seq<Op>>): seq<Op>
  {
    if batches == [] then [] else Flatten(batches[..|batches| - 1]) + batches[|batches| - 1]
  }

  lemma {:induction false} EffectAppend(a: seq<Op>, b: seq<Op>, m: Store)
    ensures Effect(a + b, m) == Effect(b, Effect(a, m))
  {
    if a == [] {
      assert a + b == b;
    } else {
      assert (a + b)[1..] == a[1..] + b;
      EffectAppend(a[1..], b, match a[0]
                              case Set(key, value) => m[key := value]
                              case Delete(key) => m - {key}
                              case _ => m);
    }
  }

  /** An iterator is a snapshot: reads, writes and deletions through the same store between its
      steps (one batch a step) do not change what it yields. */
  method IterateWhileWriting(store: KVStore, start: Option<Bytes>, end: Option<Bytes>, ascending: bool,
                             batches: seq<seq<Op>>)
    returns (seen: seq<Pair<Bytes>>, used: nat)
    requires store.Shape() && store.Coherent()
    requires forall b :: b in batches ==> AllFlat(b)
    modifies store.Repr`cache, store.Touched()
    ensures store.Coherent()
    ensures seen == Listing(ascending, InRange(old(store.view), start, end))
    ensures used == if |batches| <= |seen| then |batches| else |seen|
    ensures store.view == Effect(Flatten(batches[..used]), old(store.view))
  {
    var iter := store.Iterator(start, end, ascending);
    seen, used := PerformEach(store, iter, batches);
  }

  method PerformEach(store: KVStore, iter: KVIterator, batches: seq<seq<Op>>)
    returns (seen: seq<Pair<Bytes>>, used: nat)
    requires store.Shape() && store.Coherent() && iter.Shape() && iter.Ready() && Apart(store, iter)
    requires forall b :: b in batches ==> AllFlat(b)
    modifies iter.Repr, store.Repr`cache, store.Touched()
    ensures store.Coherent()
    ensures seen == old(iter.rest)
    ensures used == if |batches| <= |seen| then |batches| else |seen|
    ensures store.view == Effect(Flatten(batches[..used]), old(store.view))
  {
    seen, used := [], 0;
    var ok := iter.Valid();
    while ok
      invariant store.Coherent() && iter.Ready() && (ok <==> iter.rest != [])
      invariant seen + iter.rest == old(iter.rest)
      invariant used == if |batches| <= |seen| then |batches| else |seen|
      invariant store.view == Effect(Flatten(batches[..used]), old(store.view))
      decreases |iter.rest|
    {
      var ops := if used < |batches| then batches[used] else [];
      FlattenNext(batches, used, old(store.view));
      var entry;
      entry, ok := TakeAndPerform(store, iter, ops);
      Shift(seen, entry, iter.rest);
      seen := seen + [entry];
      used := if used < |batches| then used + 1 else used;
    }
  }

  lemma FlattenNext(batches: seq<seq<Op>>, used: nat, m: Store)
    requires used <= |batches|
    ensures used < |batches| ==>
              Effect(Flatten(batches[..used + 1]), m) == Effect(batches[used], Effect(Flatten(batches[..used]), m))
  {
    if used < |batches| {
      assert batches[..used + 1][..used] == batches[..used];
      EffectAppend(Flatten(batches[..used]), batches[used], m);
    }
  }

  ghost predicate Apart(store: KVStore, iter: KVIterator)
  {
    forall s :: s in store.Repr ==> s !in iter.Repr
  }

  /** One turn of a loop over an iterator whose body uses the store. */
  method TakeAndPerform(store: KVStore, iter: KVIterator, ops: seq<Op>) returns (entry: Pair<Bytes>, ok: bool)
    requires store.Shape() && store.Coherent() && iter.Shape() && iter.Ready() && Apart(store, iter)
    requires iter.rest != []
    requires AllFlat(ops)
    modifies iter.Repr, store.Repr`cache, store.Touched()
    ensures store.Coherent() && iter.Ready()
    ensures store.view == Effect(ops, old(store.view))
    ensures [entry] + iter.rest == old(iter.rest)
    ensures ok <==> iter.rest != []
  {
    entry := iter.Take();
    Perform(store, ops);
    ok := iter.Valid();
  }

  /** The loop that the governance module writes: visit every entry in a range, deleting each
      one as it is visited. It visits each entry once and leaves none of them. */
  method DeleteWhileIterating(store: KVStore, start: Option<Bytes>, end: Option<Bytes>)
    returns (seen: seq<Pair<Bytes>>)
    requires store.Shape() && store.Coherent()
    modifies store.Repr`cache, store.Touched()
    ensures store.Coherent()
    ensures seen == Listing(true, InRange(old(store.view), start, end))
    ensures store.view == Without(old(store.view), InRange(old(store.view), start, end).Keys)
  {
    var iter := store.Iterator(start, end, true);
    KeysOfListing(iter.rest);
    seen := DeleteEach(store, iter);
  }

  method DeleteEach(store: KVStore, iter: KVIterator) returns (seen: seq<Pair<Bytes>>)
    requires store.Shape() && store.Coherent() && iter.Shape() && iter.Ready() && Apart(store, iter)
    modifies iter.Repr, store.Touched()
    ensures store.Coherent()
    ensures seen == old(iter.rest)
    ensures store.view == Without(old(store.view), KeysOf(seen))
  {
    seen := [];
    WithoutMore(store.view, {}, []);
    var ok := iter.Valid();
    while ok
      invariant store.Coherent() && iter.Ready() && (ok <==> iter.rest != [])
      invariant seen + iter.rest == old(iter.rest)
      invariant store.view == Without(old(store.view), KeysOf(seen))
      decreases |iter.rest|
    {
      var entry;
      entry, ok := TakeAndDelete(store, iter);
      WithoutMore(old(store.view), KeysOf(seen), entry.key);
      KeysOfAppend(seen, entry);
      Shift(seen, entry, iter.rest);
      seen := seen + [entry];
    }
  }

  ghost function KeysOf(s: seq<Pair<Bytes>>): set<Bytes>
  {
    if s == [] then {} else KeysOf(s[..|s| - 1]) + {s[|s| - 1].key}
  }

  lemma KeysOfAppend(s: seq<Pair<Bytes>>, p: Pair<Bytes>)
    ensures KeysOf(s + [p]) == KeysOf(s) + {p.key}
  {
    assert (s + [p])[..|s|] == s;
  }

  lemma {:induction false} KeysOfListing(s: seq<Pair<Bytes>>)
    requires Sorted(true, s)
    ensures KeysOf(s) == Dict(s).Keys
  {
    if s != [] {
      KeysOfListing(s[..|s| - 1]);
      PrefixOfListing(s, |s| - 1);
      assert s[..|s|] == s;
    }
  }

  ghost function Without(m: Store, keys: set<Bytes>): Store
  {
    map k | k in m && k !in keys :: m[k]
  }

  lemma WithoutMore(m: Store, keys: set<Bytes>, key: Bytes)
    ensures Without(m, keys) - {key} == Without(m, keys + {key})
    ensures Without(m, {}) == m
  {
  }

  method TakeAndDelete(store: KVStore, iter: KVIterator) returns (entry: Pair<Bytes>, ok: bool)
    requires store.Shape() && store.Coherent() && iter.Shape() && iter.Ready() && Apart(store, iter)
    requires iter.rest != []
    modifies iter.Repr, store.Touched()
    ensures store.Coherent() && iter.Ready()
    ensures store.view == old(store.view) - {entry.key}
    ensures [entry] + iter.rest == old(iter.rest)
    ensures ok <==> iter.rest != []
  {
    entry := iter.Take();
    store.Delete(entry.key);
    ok := iter.Valid();
  }
}
