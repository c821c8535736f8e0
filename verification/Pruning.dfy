/** Which versions a pruned tree keeps, and what resetting the node relies on. A tree is the set
    of its saved versions. */
module Pruning {

  const NUM_STORE_EVERY := 10000
  const NUM_RECENT := 100

  datatype Strategy = PruneSyncable | PruneEverything | PruneNothing

  datatype Tree = Tree(versions: set<nat>, version: nat)

  /** A new version is saved, and one old version released unless it is the first or a waypoint. */
  function Committed(t: Tree, numRecent: nat, storeEvery: nat): Tree
  {
    var saved := t.versions + {t.version + 1};
    var released := t.version - numRecent;
    if released <= 0 || (storeEvery != 0 && released % storeEvery == 0) || released == 1
    then Tree(saved, t.version + 1)
    else Tree(saved - {released}, t.version + 1)
  }

  /** Loading a version for overwriting deletes every later one. */
  function Overwritten(t: Tree, version: nat): Tree
  {
    Tree((set v | v in t.versions && v <= version), version)
  }

  // ---- commits only ----

  predicate Keeps(numRecent: nat, storeEvery: nat, version: nat, v: nat)
  {
    1 <= v <= version && (v == 1 || (storeEvery != 0 && v % storeEvery == 0) || version - v <= numRecent)
  }

  ghost predicate Exact(t: Tree, numRecent: nat, storeEvery: nat)
  {
    forall v :: v in t.versions <==> Keeps(numRecent, storeEvery, t.version, v)
  }

  /** One commit turns exactly what is kept at a version into exactly what is kept at the next. */
  lemma CommitIsExact(t: Tree, numRecent: nat, storeEvery: nat)
    requires Exact(t, numRecent, storeEvery)
    ensures Exact(Committed(t, numRecent, storeEvery), numRecent, storeEvery)
  {
  }

  function Commits(t: Tree, numRecent: nat, storeEvery: nat, n: nat): Tree
  {
    if n == 0 then t else Committed(Commits(t, numRecent, storeEvery, n - 1), numRecent, storeEvery)
  }

  /** After any number of commits from genesis the versions are the first, the waypoints, and
      the last numRecent + 1: with the syncable strategy {1}, the multiples of 10000 and the
      last 101. */
  lemma {:induction false} CommitsAreExact(numRecent: nat, storeEvery: nat, n: nat)
    ensures Commits(Tree({}, 0), numRecent, storeEvery, n).version == n
    ensures Exact(Commits(Tree({}, 0), numRecent, storeEvery, n), numRecent, storeEvery)
  {
    if n > 0 {
      CommitsAreExact(numRecent, storeEvery, n - 1);
      CommitIsExact(Commits(Tree({}, 0), numRecent, storeEvery, n - 1), numRecent, storeEvery);
    }
  }

  // ---- commits and resets ----

  /** The current version, the first one and every waypoint are there. */
  ghost predicate Survivors(t: Tree)
  {
    && (t.version > 0 ==> t.version in t.versions && 1 in t.versions)
    && (forall v :: 1 <= v <= t.version && v % NUM_STORE_EVERY == 0 ==> v in t.versions)
    && (forall v :: v in t.versions ==> 1 <= v <= t.version)
  }

  lemma CommitSurvives(t: Tree)
    requires Survivors(t)
    ensures Survivors(Committed(t, NUM_RECENT, NUM_STORE_EVERY))
  {
  }

  lemma OverwriteSurvives(t: Tree, version: nat)
    requires Survivors(t) && version in t.versions
    ensures Survivors(Overwritten(t, version))
  {
  }

  datatype Step = Commit | Reset(target: nat)

  function Next(t: Tree, step: Step): Tree
  {
    match step
    case Commit => Committed(t, NUM_RECENT, NUM_STORE_EVERY)
    case Reset(target) => if target in t.versions then Overwritten(t, target) else t
  }

  function Run(t: Tree, steps: seq<Step>): Tree
  {
    if steps == [] then t else Next(Run(t, steps[..|steps| - 1]), steps[|steps| - 1])
  }

  lemma {:induction false} RunSurvives(steps: seq<Step>)
    ensures Survivors(Run(Tree({}, 0), steps))
  {
    if steps != [] {
      RunSurvives(steps[..|steps| - 1]);
      var t := Run(Tree({}, 0), steps[..|steps| - 1]);
      match steps[|steps| - 1]
      case Commit => CommitSurvives(t);
      case Reset(target) =>
        if target in t.versions {
          OverwriteSurvives(t, target);
        }
    }
  }

  /** When the versions after a reset are again exactly what a tree of that height keeps: from n
      commits, back to a kept version v, when nothing has been released yet, when v is the first
      or the last version, or when v is the last but one and the version released at the last
      commit was spared as a waypoint. Every other reset leaves a gap. */
  lemma ResetIsExactIff(n: nat, v: nat)
    requires v in Commits(Tree({}, 0), NUM_RECENT, NUM_STORE_EVERY, n).versions
    ensures Exact(Overwritten(Commits(Tree({}, 0), NUM_RECENT, NUM_STORE_EVERY, n), v), NUM_RECENT, NUM_STORE_EVERY)
      <==> (v == 1 || v == n || n <= NUM_RECENT + 2 ||
            (v == n - 1 && (n - NUM_RECENT - 1) % NUM_STORE_EVERY == 0))
  {
    CommitsAreExact(NUM_RECENT, NUM_STORE_EVERY, n);
    var t := Commits(Tree({}, 0), NUM_RECENT, NUM_STORE_EVERY, n);
    var back := Overwritten(t, v);
    if Exact(back, NUM_RECENT, NUM_STORE_EVERY) {
      OnlyWhole(n, v, back);
    } else {
      var w :| (w in back.versions) != Keeps(NUM_RECENT, NUM_STORE_EVERY, v, w);
      assert Keeps(NUM_RECENT, NUM_STORE_EVERY, v, w);
      assert w !in t.versions;
    }
  }

  /** A waypoint and its neighbour are not both waypoints, so a shorter tree misses one of the two
      newest versions released before n. */
  lemma OnlyWhole(n: nat, v: nat, back: Tree)
    requires Keeps(NUM_RECENT, NUM_STORE_EVERY, n, v) && back.version == v
    requires forall w | w in back.versions :: Keeps(NUM_RECENT, NUM_STORE_EVERY, n, w)
    requires Exact(back, NUM_RECENT, NUM_STORE_EVERY)
    ensures v == 1 || v == n || n <= NUM_RECENT + 2 ||
            (v == n - 1 && (n - NUM_RECENT - 1) % NUM_STORE_EVERY == 0)
  {
    if v != 1 && v != n && n > NUM_RECENT + 2 {
      var newest := if v < n - NUM_RECENT then v - 1 else n - NUM_RECENT - 1;
      assert Keeps(NUM_RECENT, NUM_STORE_EVERY, v, newest) && newest in back.versions;
      if v < n - 1 && v >= n - NUM_RECENT {
        assert Keeps(NUM_RECENT, NUM_STORE_EVERY, v, newest - 1);
      }
    }
  }

  /** Such a gap: resetting to the oldest of the recent versions, the one before it is missing
      unless it is the first or a waypoint. */
  lemma ResetLeavesGap(n: nat)
    requires n > NUM_RECENT + 2 && (n - NUM_RECENT - 1) % NUM_STORE_EVERY != 0
    ensures var t := Commits(Tree({}, 0), NUM_RECENT, NUM_STORE_EVERY, n);
            && n - NUM_RECENT in t.versions
            && !Exact(Overwritten(t, n - NUM_RECENT), NUM_RECENT, NUM_STORE_EVERY)
  {
    CommitsAreExact(NUM_RECENT, NUM_STORE_EVERY, n);
    ResetIsExactIff(n, n - NUM_RECENT);
  }

  // ---- the store and the node ----

  class IavlStore {
    var tree: Tree
    var numRecent: nat
    var storeEvery: nat

    constructor (strategy: Strategy)
      ensures tree == Tree({}, 0)
      ensures strategy == PruneSyncable ==> numRecent == 100 && storeEvery == 10000
    {
      tree, numRecent, storeEvery := Tree({}, 0), 0, 0;
      new;
      SetPruning(strategy);
    }

    method SetPruning(strategy: Strategy)
      modifies this`numRecent, this`storeEvery
      ensures strategy == PruneSyncable ==> numRecent == 100 && storeEvery == 10000
      ensures strategy == PruneEverything ==> numRecent == 0 && storeEvery == 0
      ensures strategy == PruneNothing ==> numRecent == old(numRecent) && storeEvery == 1
    {
      match strategy
      case PruneEverything => numRecent, storeEvery := 0, 0;
      case PruneNothing => storeEvery := 1;
      case PruneSyncable => numRecent, storeEvery := NUM_RECENT, NUM_STORE_EVERY;
    }

    method Commit() returns (version: nat)
      modifies this`tree
      ensures tree == Committed(old(tree), numRecent, storeEvery) && version == tree.version
    {
      version := tree.version + 1;
      tree := Tree(tree.versions + {version}, version);
      var previous := version - 1;
      if numRecent < previous {
        var toRelease := previous - numRecent;
        if storeEvery == 0 || toRelease % storeEvery != 0 {
          if toRelease == 1 {
            return;
          }
          tree := tree.(versions := tree.versions - {toRelease});
        }
      }
    }

    /** Loading a version that is not there is an error. */
    method LoadVersionForOverwriting(version: nat) returns (ok: bool)
      modifies this`tree
      ensures ok <==> version in old(tree).versions
      ensures tree == if ok then Overwritten(old(tree), version) else old(tree)
    {
      ok := version in tree.versions;
      if ok {
        tree := Tree((set v | v in tree.versions && v <= version), version);
      }
    }

    /** For a store committed at every block since genesis, resetting to any height from 1 on
        never fails: it loads a version that was kept, at most 9999 blocks below the target. */
    method ResetOrReplay(target: nat) returns (ok: bool, replay: bool, height: nat)
      requires Survivors(tree) && 1 <= target && 1 <= tree.version
      modifies this`tree
      ensures ok && height == (if target > old(tree).version then old(tree).version else target)
      ensures tree.version in old(tree).versions && tree == Overwritten(old(tree), tree.version)
      ensures tree.version <= height < tree.version + 10000
      ensures !replay ==> tree.version == height
      ensures Survivors(tree)
    {
      height := if target > tree.version then tree.version else target;
      ghost var before := tree;
      if tree.version - height <= NUM_RECENT {
        ok := LoadVersionForOverwriting(height);
        if ok {
          OverwriteSurvives(before, height);
          return ok, false, height;
        }
      }
      var loadHeight := ReplayToHeight(height);
      ReplayHeightIsKept(tree, height);
      ok := LoadVersionForOverwriting(loadHeight);
      OverwriteSurvives(before, loadHeight);
      replay := height != 1;
    }
  }

  function ReplayToHeight(target: nat): nat
  {
    if target >= NUM_STORE_EVERY then target - target % NUM_STORE_EVERY else 1
  }

  lemma ReplayHeightIsKept(t: Tree, target: nat)
    requires Survivors(t) && 1 <= target <= t.version
    ensures ReplayToHeight(target) in t.versions
    ensures ReplayToHeight(target) <= target < ReplayToHeight(target) + NUM_STORE_EVERY
    ensures target == 1 ==> ReplayToHeight(target) == 1
  {
  }
}
