/** Multistores: one store for each store key, cached together and written together. A multistore is
    the list of its stores, and a store key the place in it. */
module MultiStores {
  import opened Bytes
  import opened Listings
  import opened KVStores

  type Stores = seq<Store>

  /** The stores of a multistore have nothing in common. */
  ghost predicate Separate(stores: seq<KVStore>)
  {
    && (forall i :: 0 <= i < |stores| ==> stores[i].Shape())
    && (forall i, j :: 0 <= i < |stores| && 0 <= j < |stores| && i != j ==> stores[i].Repr !! stores[j].Repr)
  }

  ghost function AllOf(stores: seq<KVStore>): set<KVStore>
  {
    set i, s | 0 <= i < |stores| && s in stores[i].Repr :: s
  }

  ghost function Own(stores: seq<KVStore>): set<KVStore>
  {
    set s | s in stores
  }

  ghost predicate AllCoherent(stores: seq<KVStore>)
    requires Separate(stores)
    reads AllOf(stores)
  {
    forall i :: 0 <= i < |stores| ==> stores[i].Coherent()
  }

  /** What the stores hold. */
  ghost function Views(stores: seq<KVStore>): (m: Stores)
    reads stores
    ensures |m| == |stores| && forall i :: 0 <= i < |m| ==> m[i] == stores[i].view
  {
    seq(|stores|, i requires 0 <= i < |stores| reads stores => stores[i].view)
  }

  /** Each cache lies over the store of the same key. */
  ghost predicate Over(caches: seq<KVStore>, stores: seq<KVStore>)
  {
    |caches| == |stores| &&
    forall i :: 0 <= i < |caches| ==>
      caches[i].kind.Cached? && caches[i].parent == stores[i] && caches[i].Repr == stores[i].Repr + {caches[i]}
  }

  /** No store writes through to another. */
  ghost predicate Direct(stores: seq<KVStore>)
  {
    forall i :: 0 <= i < |stores| ==> !stores[i].kind.Prefixed?
  }

  /** newCacheMultiStoreFromCMS: every store is cached, and every cache holds what its store does. */
  method CacheAll(stores: seq<KVStore>) returns (caches: seq<KVStore>)
    requires Separate(stores) && AllCoherent(stores)
    ensures Over(caches, stores) && Separate(caches) && AllCoherent(caches)
    ensures fresh(Own(caches)) && Views(caches) == Views(stores)
    ensures AllOf(caches) == Own(caches) + AllOf(stores)
  {
    caches := [];
    for k := 0 to |stores|
      invariant |caches| == k
      invariant forall i :: 0 <= i < k ==>
        && caches[i].Shape() && caches[i].Coherent() && caches[i].kind.Cached? && caches[i].parent == stores[i]
        && caches[i].Repr == stores[i].Repr + {caches[i]} && caches[i].view == stores[i].view
        && fresh(caches[i])
      invariant forall i, j :: 0 <= i < j < k ==> caches[i] != caches[j]
    {
      var cache := new KVStore.CacheWrap(stores[k]);
      caches := caches + [cache];
    }
  }

  /** Write: every cache is moved into its store, and none of them touches another key's store. */
  method WriteAll(caches: seq<KVStore>, ghost stores: seq<KVStore>)
    requires Separate(caches) && AllCoherent(caches) && Over(caches, stores) && Direct(stores)
    modifies Own(caches), Own(stores)
    ensures AllCoherent(caches)
    ensures Views(stores) == old(Views(caches)) && Views(caches) == old(Views(caches))
  {
    for k := 0 to |caches|
      invariant AllCoherent(caches)
      invariant forall i :: 0 <= i < |caches| ==> caches[i].view == old(caches[i].view)
      invariant forall i :: 0 <= i < k ==> stores[i].view == caches[i].view
    {
      WriteOne(caches, stores, k);
    }
  }

  method WriteOne(caches: seq<KVStore>, ghost stores: seq<KVStore>, k: nat)
    requires Separate(caches) && AllCoherent(caches) && Over(caches, stores) && Direct(stores) && k < |caches|
    modifies caches[k], stores[k]
    ensures AllCoherent(caches)
    ensures forall i :: 0 <= i < |caches| ==> caches[i].view == old(caches[i].view)
    ensures stores[k].view == caches[k].view
    ensures forall i :: 0 <= i < |caches| && i != k ==> stores[i].view == old(stores[i].view)
  {
    caches[k].Write();
  }

  // ---- caches over trees ----

  ghost predicate Trees(cms: seq<KVStore>)
    reads AllOf(cms)
  {
    Separate(cms) && AllCoherent(cms) && forall i :: 0 <= i < |cms| ==> cms[i].kind.Tree?
  }

  /** A multistore of caches over some stores. */
  ghost predicate Layer(ms: seq<KVStore>, cms: seq<KVStore>)
    reads AllOf(ms)
  {
    Over(ms, cms) && Separate(ms) && AllCoherent(ms)
  }

  lemma LayerIs(ms: seq<KVStore>, cms: seq<KVStore>)
    requires Layer(ms, cms) && Separate(cms)
    ensures AllCoherent(cms) && AllOf(ms) == Own(ms) + AllOf(cms)
  {
    forall i | 0 <= i < |cms|
      ensures cms[i].Coherent()
    {
      assert ms[i].Coherent();
    }
  }

  lemma TreesOwn(cms: seq<KVStore>)
    requires Trees(cms)
    ensures AllOf(cms) == Own(cms)
  {
  }

  ghost function Caches(ms: seq<KVStore>): (c: seq<map<Bytes, CValue>>)
    reads ms
    ensures |c| == |ms| && forall i :: 0 <= i < |c| ==> c[i] == ms[i].cache
  {
    seq(|ms|, i requires 0 <= i < |ms| reads ms => ms[i].cache)
  }

  /** What makes caches over the maps `parents` hold the maps `views`. */
  ghost predicate Agree(caches: seq<map<Bytes, CValue>>, views: Stores, parents: Stores)
  {
    && |caches| == |views| == |parents|
    && forall i :: 0 <= i < |caches| ==>
         CacheAgrees(caches[i], parents[i]) && views[i] == Overlay(parents[i], Dirty(caches[i]))
  }

  /** So a layer depends on nothing of the stores below but what they hold. */
  lemma LayerAgrees(ms: seq<KVStore>, cms: seq<KVStore>)
    requires Over(ms, cms) && Separate(ms) && Separate(cms) && AllCoherent(cms)
    ensures Layer(ms, cms) <==> Agree(Caches(ms), Views(ms), Views(cms))
  {
    forall i | 0 <= i < |ms|
      ensures ms[i].Coherent() <==>
              && CacheAgrees(Caches(ms)[i], Views(cms)[i])
              && Views(ms)[i] == Overlay(Views(cms)[i], Dirty(Caches(ms)[i]))
    {
      assert cms[i].Coherent();
    }
  }

  /** Another layer over the same trees, if there is one, with caches of its own. */
  ghost predicate Beside(other: Option<seq<KVStore>>, ms: seq<KVStore>, cms: seq<KVStore>)
    reads if other.Some? then AllOf(other.value) else {}
  {
    other.Some? ==> Layer(other.value, cms) && Own(other.value) !! Own(ms)
  }

  ghost function ViewsOf(other: Option<seq<KVStore>>): Option<Stores>
    reads if other.Some? then Own(other.value) else {}
  {
    if other.Some? then Some(Views(other.value)) else None
  }

  /** What is done through one layer reaches no store of the other. */
  lemma BesideIsApart(other: seq<KVStore>, ms: seq<KVStore>, cms: seq<KVStore>)
    requires Trees(cms) && Layer(ms, cms) && Layer(other, cms) && Own(other) !! Own(ms)
    ensures forall i :: 0 <= i < |other| ==> other[i] !in AllOf(ms)
  {
    LayerIs(ms, cms);
    TreesOwn(cms);
    forall i | 0 <= i < |other|
      ensures other[i] !in Own(cms) && other[i] in Own(other)
    {
    }
  }

  /** A tree for each store key. */
  method LoadAll(committed: Stores) returns (cms: seq<KVStore>)
    ensures Trees(cms) && fresh(Own(cms)) && Views(cms) == committed
  {
    cms := [];
    for k := 0 to |committed|
      invariant |cms| == k
      invariant forall i :: 0 <= i < k ==>
        cms[i].Shape() && cms[i].Coherent() && cms[i].kind.Tree? && cms[i].view == committed[i] && fresh(cms[i])
      invariant forall i, j :: 0 <= i < j < k ==> cms[i] != cms[j]
    {
      var tree := new KVStore.OfTree(committed[k]);
      cms := cms + [tree];
    }
  }
}
