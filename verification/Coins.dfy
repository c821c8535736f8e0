/** Coin sets: lists of coins in the order of their denominations. */
module Coins {
  import opened Bytes
  import opened Decimals

  datatype Coin = Coin(denom: Bytes, amount: int)

  predicate SortedCoins(s: seq<Coin>)
  {
    forall i, j :: 0 <= i < j < |s| ==> Less(s[i].denom, s[j].denom)
  }

  predicate ZeroFree(s: seq<Coin>)
  {
    forall i :: 0 <= i < |s| ==> s[i].amount != 0
  }

  predicate NonNegative(s: seq<Coin>)
  {
    forall i :: 0 <= i < |s| ==> s[i].amount >= 0
  }

  /** Amounts are sdk.Int: at most 255 bits. */
  predicate InBounds(s: seq<Coin>)
  {
    forall i :: 0 <= i < |s| ==> FitsInt(s[i].amount)
  }

  // ---- the amount of a denomination ----

  /** The amount of the first coin of the denomination. */
  function Amount(s: seq<Coin>, denom: Bytes): int
  {
    if s == [] then 0 else if s[0].denom == denom then s[0].amount else Amount(s[1..], denom)
  }

  lemma {:induction false} AmountAt(s: seq<Coin>, i: nat)
    requires SortedCoins(s) && i < |s|
    ensures Amount(s, s[i].denom) == s[i].amount
  {
    if i > 0 {
      LessIsTotal(s[0].denom, s[i].denom);
      AmountAt(s[1..], i - 1);
    }
  }

  lemma {:induction false} AmountAbsent(s: seq<Coin>, denom: Bytes)
    requires forall i :: 0 <= i < |s| ==> s[i].denom != denom
    ensures Amount(s, denom) == 0
  {
    if s != [] {
      AmountAbsent(s[1..], denom);
    }
  }

  /** Where a denomination below the first one cannot be. */
  lemma AmountBelow(s: seq<Coin>, denom: Bytes)
    requires SortedCoins(s) && (s != [] ==> Less(denom, s[0].denom))
    ensures Amount(s, denom) == 0
    ensures forall i :: 0 <= i < |s| ==> s[i].denom != denom
  {
    forall i | 0 <= i < |s|
      ensures s[i].denom != denom
    {
      if i > 0 {
        LessIsTransitive(denom, s[0].denom, s[i].denom);
      }
      LessIsTotal(denom, s[i].denom);
    }
    AmountAbsent(s, denom);
  }

  /** AmountOf: binary search. */
  function AmountOf(s: seq<Coin>, denom: Bytes): int
    decreases |s|
  {
    if |s| == 0 then 0
    else if |s| == 1 then (if s[0].denom == denom then s[0].amount else 0)
    else
      var mid := |s| / 2;
      if Less(denom, s[mid].denom) then AmountOf(s[..mid], denom)
      else if denom == s[mid].denom then s[mid].amount
      else AmountOf(s[mid + 1..], denom)
  }

  lemma {:induction false} AmountSplit(s: seq<Coin>, mid: nat, denom: Bytes)
    requires SortedCoins(s) && mid < |s|
    ensures Less(denom, s[mid].denom) ==> Amount(s, denom) == Amount(s[..mid], denom)
    ensures Less(s[mid].denom, denom) ==> Amount(s, denom) == Amount(s[mid + 1..], denom)
  {
    LessIsTotal(denom, s[0].denom);
    if mid == 0 {
      if Less(denom, s[0].denom) {
        AmountBelow(s, denom);
      }
    } else {
      AmountSplit(s[1..], mid - 1, denom);
      assert s[..mid][1..] == s[1..][..mid - 1];
      assert s[1..][mid..] == s[mid + 1..];
      if Less(s[mid].denom, denom) {
        LessIsTransitive(s[0].denom, s[mid].denom, denom);
      }
    }
  }

  /** Binary search finds what a search from the front finds. */
  lemma {:induction false} AmountOfIsAmount(s: seq<Coin>, denom: Bytes)
    requires SortedCoins(s)
    ensures AmountOf(s, denom) == Amount(s, denom)
    decreases |s|
  {
    if |s| > 1 {
      var mid := |s| / 2;
      AmountSplit(s, mid, denom);
      LessIsTotal(denom, s[mid].denom);
      if Less(denom, s[mid].denom) {
        AmountOfIsAmount(s[..mid], denom);
      } else if denom == s[mid].denom {
        AmountAt(s, mid);
      } else {
        AmountOfIsAmount(s[mid + 1..], denom);
      }
    }
  }

  /** Sorted sets without zero coins are equal when they hold the same amounts. */
  lemma {:induction false} SameAmounts(s: seq<Coin>, t: seq<Coin>)
    requires SortedCoins(s) && ZeroFree(s) && SortedCoins(t) && ZeroFree(t)
    requires forall d :: Amount(s, d) == Amount(t, d)
    ensures s == t
  {
    assert s != [] ==> Amount(s, s[0].denom) != 0;
    assert t != [] ==> Amount(t, t[0].denom) != 0;
    assert s == [] <==> t == [];
    if s != [] {
      SameFirst(s, t);
      SameFirst(t, s);
      LessIsTotal(s[0].denom, t[0].denom);
      assert Amount(s, s[0].denom) == Amount(t, s[0].denom);
      forall d
        ensures Amount(s[1..], d) == Amount(t[1..], d)
      {
        assert Amount(s, d) == Amount(t, d);
        if d == s[0].denom {
          TailBelow(s);
          TailBelow(t);
        }
      }
      SameAmounts(s[1..], t[1..]);
      assert s == [s[0]] + s[1..] && t == [t[0]] + t[1..];
    }
  }

  lemma TailBelow(s: seq<Coin>)
    requires SortedCoins(s) && s != []
    ensures Amount(s[1..], s[0].denom) == 0
  {
    AmountBelow(s[1..], s[0].denom);
  }

  lemma SameFirst(s: seq<Coin>, t: seq<Coin>)
    requires s != [] && t != [] && SortedCoins(t) && s[0].amount != 0
    requires forall d :: Amount(s, d) == Amount(t, d)
    ensures !Less(s[0].denom, t[0].denom)
  {
    assert Amount(s, s[0].denom) == Amount(t, s[0].denom);
    if Less(s[0].denom, t[0].denom) {
      AmountBelow(t, s[0].denom);
    }
  }

  // ---- zero coins ----

  /** The coins that are not zero, in order. */
  function NonZero(s: seq<Coin>): seq<Coin>
  {
    if s == [] then [] else if s[0].amount == 0 then NonZero(s[1..]) else [s[0]] + NonZero(s[1..])
  }

  lemma {:induction false} NonZeroHas(s: seq<Coin>)
    ensures ZeroFree(NonZero(s))
    ensures forall c :: c in NonZero(s) <==> c in s && c.amount != 0
  {
    if s != [] {
      NonZeroHas(s[1..]);
      assert s == [s[0]] + s[1..];
    }
  }

  lemma {:induction false} NonZeroIs(s: seq<Coin>)
    requires SortedCoins(s)
    ensures ZeroFree(NonZero(s)) && SortedCoins(NonZero(s))
    ensures forall c :: c in NonZero(s) <==> c in s && c.amount != 0
  {
    NonZeroHas(s);
    if s != [] {
      NonZeroIs(s[1..]);
      var rest := NonZero(s[1..]);
      forall i | 0 <= i < |rest|
        ensures Less(s[0].denom, rest[i].denom)
      {
        assert rest[i] in s[1..];
      }
    }
  }

  lemma {:induction false} NonZeroAmount(s: seq<Coin>, d: Bytes)
    requires SortedCoins(s)
    ensures Amount(NonZero(s), d) == Amount(s, d)
  {
    if s != [] {
      NonZeroAmount(s[1..], d);
      if s[0].amount != 0 {
        assert NonZero(s)[1..] == NonZero(s[1..]);
      } else {
        assert NonZero(s) == NonZero(s[1..]);
        TailBelow(s);
      }
    }
  }

  lemma {:induction false} NonZeroSize(s: seq<Coin>)
    ensures |NonZero(s)| <= |s|
    ensures |NonZero(s)| == |s| <==> ZeroFree(s)
    ensures ZeroFree(s) ==> NonZero(s) == s
  {
    if s != [] {
      NonZeroSize(s[1..]);
      assert s == [s[0]] + s[1..];
      if ZeroFree(s) {
        assert ZeroFree(s[1..]);
      } else if s[0].amount != 0 {
        var i :| 0 <= i < |s| && s[i].amount == 0;
        assert s[1..][i - 1].amount == 0;
      }
    }
  }

  function Repeat(c: Coin, n: nat): seq<Coin>
  {
    seq(n, i => c)
  }

  /** What is left in the backing array: every removal shifts the rest one place left and leaves
      the last coin where it was. */
  function Compacted(s: seq<Coin>): seq<Coin>
  {
    NonZeroSize(s);
    if s == [] then [] else NonZero(s) + Repeat(s[|s| - 1], |s| - |NonZero(s)|)
  }

  function Removed(now: seq<Coin>, i: nat, l: nat): (r: seq<Coin>)
    requires i < l <= |now|
    ensures |r| == |now|
  {
    now[..i] + now[i + 1..l] + now[l - 1..]
  }

  /** One removal: the rest of the slice moves one place left, and its last coin stays. */
  method RemoveAt(a: array<Coin>, i: nat, l: nat)
    requires i < l <= a.Length
    modifies a
    ensures a[..] == Removed(old(a[..]), i, l)
  {
    var j := i;
    while j < l - 1
      invariant i <= j <= l - 1
      invariant forall k :: 0 <= k < a.Length ==> a[k] == if i <= k < j then old(a[k + 1]) else old(a[k])
    {
      a[j] := a[j + 1];
      j := j + 1;
    }
    assert a[..] == Removed(old(a[..]), i, l);
  }

  /** removeZeroCoins on the part of the array from `start` on; the result is a[start..end]. */
  method RemoveZeroCoins(a: array<Coin>, start: nat) returns (end: nat)
    requires start <= a.Length
    modifies a
    ensures start <= end <= a.Length
    ensures a[..start] == old(a[..start])
    ensures a[start..end] == NonZero(old(a[start..]))
    ensures a[start..] == Compacted(old(a[start..]))
  {
    var i, l := start, a.Length;
    ghost var head, s := a[..start], a[start..];
    ghost var kept, rest: seq<Coin> := [], s;
    StartLayout(a[..], start);
    while i < l
      invariant 0 <= i <= l && LaidOut(a[..], head, kept, rest, s, i, l)
      decreases l - i
    {
      i, l, kept := RemoveOrKeep(a, i, l, head, kept, rest, s);
      rest := rest[1..];
    }
    end := i;
    EndLayout(a[..], head, kept, s, a.Length - l);
    assert a[start..end] == a[..][start..end] && a[start..] == a[..][start..] && a[..start] == a[..][..start];
  }

  /** One coin of the slice: a zero coin is removed, and any other kept. */
  method RemoveOrKeep(a: array<Coin>, i: nat, l: nat, ghost head: seq<Coin>, ghost kept: seq<Coin>,
                      ghost rest: seq<Coin>, ghost s: seq<Coin>)
    returns (i': nat, l': nat, ghost kept': seq<Coin>)
    requires i < l <= a.Length && LaidOut(a[..], head, kept, rest, s, i, l)
    modifies a
    ensures l' - i' < l - i && l' <= a.Length && i' <= l'
    ensures rest != [] && LaidOut(a[..], head, kept', rest[1..], s, i', l')
  {
    ghost var now := a[..];
    if a[i].amount == 0 {
      RemoveStep(now, head, kept, rest, s, i, l);
      RemoveAt(a, i, l);
      i', l', kept' := i, l - 1, kept;
      assert a[..] == Removed(now, i, l);
    } else {
      KeepStep(now, head, kept, rest, s, i, l);
      i', l', kept' := i + 1, l, kept + [rest[0]];
    }
  }

  ghost predicate LaidOut(now: seq<Coin>, head: seq<Coin>, kept: seq<Coin>, rest: seq<Coin>, s: seq<Coin>,
                          i: nat, l: nat)
  {
    && i == |head| + |kept| && l == i + |rest| && l <= |now| == |head| + |s|
    && now == Layout(head, kept, rest, s, |now| - l)
    && kept + NonZero(rest) == NonZero(s)
    && (rest != [] ==> s != [] && rest[|rest| - 1] == s[|s| - 1])
  }

  lemma FirstOfRest(now: seq<Coin>, head: seq<Coin>, kept: seq<Coin>, rest: seq<Coin>, s: seq<Coin>, i: nat, l: nat)
    requires LaidOut(now, head, kept, rest, s, i, l) && rest != []
    ensures now[i] == rest[0]
  {
  }

  lemma RemoveStep(now: seq<Coin>, head: seq<Coin>, kept: seq<Coin>, rest: seq<Coin>, s: seq<Coin>, i: nat, l: nat)
    requires LaidOut(now, head, kept, rest, s, i, l) && i < l && now[i].amount == 0
    ensures LaidOut(Removed(now, i, l), head, kept, rest[1..], s, i, l - 1)
  {
    FirstOfRest(now, head, kept, rest, s, i, l);
    NonZeroFirst(kept, rest);
    RemoveLayout(now, head, kept, rest, s, i, l);
    assert |rest| > 1 ==> rest[1..][|rest| - 2] == rest[|rest| - 1];
  }

  lemma KeepStep(now: seq<Coin>, head: seq<Coin>, kept: seq<Coin>, rest: seq<Coin>, s: seq<Coin>, i: nat, l: nat)
    requires LaidOut(now, head, kept, rest, s, i, l) && i < l && now[i].amount != 0
    ensures LaidOut(now, head, kept + [rest[0]], rest[1..], s, i + 1, l)
  {
    FirstOfRest(now, head, kept, rest, s, i, l);
    NonZeroFirst(kept, rest);
    KeepLayout(head, kept, rest, s, |now| - l);
  }

  /** The array while zero coins are removed: copies of the last coin fill it up. */
  ghost function Layout(head: seq<Coin>, kept: seq<Coin>, rest: seq<Coin>, s: seq<Coin>, removed: nat): seq<Coin>
  {
    head + kept + rest + (if s == [] then [] else Repeat(s[|s| - 1], removed))
  }

  lemma StartLayout(all: seq<Coin>, start: nat)
    requires start <= |all|
    ensures LaidOut(all, all[..start], [], all[start..], all[start..], start, |all|)
  {
    assert all == all[..start] + all[start..];
  }

  lemma NonZeroFirst(kept: seq<Coin>, rest: seq<Coin>)
    requires rest != []
    ensures rest[0].amount == 0 ==> kept + NonZero(rest[1..]) == kept + NonZero(rest)
    ensures rest[0].amount != 0 ==> kept + [rest[0]] + NonZero(rest[1..]) == kept + NonZero(rest)
  {
    Regroup(kept, [rest[0]], NonZero(rest[1..]));
  }

  lemma Regroup(a: seq<Coin>, b: seq<Coin>, c: seq<Coin>)
    ensures a + b + c == a + (b + c)
  {
  }

  lemma KeepLayout(head: seq<Coin>, kept: seq<Coin>, rest: seq<Coin>, s: seq<Coin>, removed: nat)
    requires rest != []
    ensures Layout(head, kept, rest, s, removed) == Layout(head, kept + [rest[0]], rest[1..], s, removed)
  {
    Regroup(head, kept, [rest[0]]);
    Regroup(head + kept, [rest[0]], rest[1..]);
    assert rest == [rest[0]] + rest[1..];
  }

  lemma RemoveLayout(now: seq<Coin>, head: seq<Coin>, kept: seq<Coin>, rest: seq<Coin>, s: seq<Coin>, i: nat, l: nat)
    requires i == |head| + |kept| && l == i + |rest| <= |now|
    requires now == Layout(head, kept, rest, s, |now| - l)
    requires rest != [] && s != [] && rest[|rest| - 1] == s[|s| - 1]
    ensures Removed(now, i, l) == Layout(head, kept, rest[1..], s, |now| - (l - 1))
  {
    var last, n := s[|s| - 1], |now| - l;
    RemovedFrom(now, head + kept, rest, Repeat(last, n), i, l);
    RepeatMore(last, n);
  }

  lemma RepeatMore(c: Coin, n: nat)
    ensures [c] + Repeat(c, n) == Repeat(c, n + 1)
  {
  }

  lemma RemovedFrom(now: seq<Coin>, a: seq<Coin>, b: seq<Coin>, c: seq<Coin>, i: nat, l: nat)
    requires now == a + b + c && b != [] && i == |a| && l == i + |b|
    ensures Removed(now, i, l) == a + b[1..] + ([b[|b| - 1]] + c)
  {
    assert now[..i] == a;
    assert now[i + 1..l] == b[1..];
    assert now[l - 1..] == [b[|b| - 1]] + c;
  }

  lemma EndLayout(now: seq<Coin>, head: seq<Coin>, kept: seq<Coin>, s: seq<Coin>, removed: nat)
    requires now == Layout(head, kept, [], s, removed) && |now| == |head| + |s| && kept == NonZero(s)
    ensures now[..|head|] == head && now[|head|..|head| + |kept|] == kept && now[|head|..] == Compacted(s)
  {
    NonZeroSize(s);
    var tail := if s == [] then [] else Repeat(s[|s| - 1], removed);
    assert head + kept + [] == head + kept;
    Parts(head, kept, tail);
  }

  lemma Parts(a: seq<Coin>, b: seq<Coin>, c: seq<Coin>)
    ensures var now := a + b + c;
            now[..|a|] == a && now[|a|..|a| + |b|] == b && now[|a|..] == b + c
  {
  }

  /** Nothing but copies of it follows a zero coin. */
  predicate Steady(s: seq<Coin>)
  {
    forall i, j :: 0 <= i <= j < |s| && s[i].amount == 0 ==> s[j] == s[i]
  }

  /** Exactly when the caller's coins are left as they were, in any order. */
  lemma {:induction false} CompactedIsSame(s: seq<Coin>)
    ensures Compacted(s) == s <==> Steady(s)
    decreases |s|
  {
    if s != [] {
      if s[0].amount == 0 {
        CompactedZero(s);
      } else {
        CompactedSame(s);
        CompactedIsSame(s[1..]);
        SteadyTail(s);
      }
    }
  }

  lemma CompactedZero(s: seq<Coin>)
    requires s != [] && s[0].amount == 0
    ensures Compacted(s) == s <==> Steady(s)
  {
    if NonZero(s) != [] {
      CompactedFirst(s);
    } else if Compacted(s) == s {
      assert forall i :: 0 <= i < |s| ==> s[i] == s[|s| - 1];
    }
    if Steady(s) {
      NoneNonZero(s);
      assert s == Repeat(s[|s| - 1], |s|);
    }
  }

  lemma CompactedFirst(s: seq<Coin>)
    requires NonZero(s) != []
    ensures Compacted(s) != [] && Compacted(s)[0].amount != 0
  {
    NonZeroHas(s);
  }

  lemma {:induction false} NoneNonZero(s: seq<Coin>)
    requires forall i :: 0 <= i < |s| ==> s[i].amount == 0
    ensures NonZero(s) == []
  {
    if s != [] {
      NoneNonZero(s[1..]);
    }
  }

  lemma CompactedSame(s: seq<Coin>)
    requires s != [] && s[0].amount != 0
    ensures Compacted(s) == s <==> Compacted(s[1..]) == s[1..]
  {
    NonZeroSize(s[1..]);
    assert Compacted(s) == [s[0]] + Compacted(s[1..]);
    assert s == [s[0]] + s[1..];
    if Compacted(s) == s {
      assert Compacted(s[1..]) == Compacted(s)[1..];
    }
  }

  lemma SteadyTail(s: seq<Coin>)
    requires s != [] && s[0].amount != 0
    ensures Steady(s) <==> Steady(s[1..])
  {
    var t := s[1..];
    if Steady(t) {
      forall i, j | 0 <= i <= j < |s| && s[i].amount == 0
        ensures s[j] == s[i]
      {
        assert t[i - 1] == s[i] && t[j - 1] == s[j];
      }
    }
  }

  /** Of sorted coins only the last may be zero. */
  lemma SortedSteady(s: seq<Coin>)
    requires SortedCoins(s)
    ensures Steady(s) <==> s == [] || ZeroFree(s[..|s| - 1])
  {
    if s != [] && Steady(s) {
      forall i | 0 <= i < |s| - 1
        ensures s[i].amount != 0
      {
        LessIsTotal(s[i].denom, s[|s| - 1].denom);
      }
    }
  }

  // ---- adding ----

  function Then(c: Coin, rest: Outcome<seq<Coin>>): Outcome<seq<Coin>>
  {
    if rest.Panics? then Panics else Returns(if c.amount == 0 then rest.value else [c] + rest.value)
  }

  /** safeAdd as a merge of two sorted lists. */
  function Merged(x: seq<Coin>, y: seq<Coin>): Outcome<seq<Coin>>
    decreases |x| + |y|
  {
    if x == [] then Returns(NonZero(y))
    else if y == [] then Returns(NonZero(x))
    else if Less(x[0].denom, y[0].denom) then Then(x[0], Merged(x[1..], y))
    else if x[0].denom == y[0].denom then
      var sum := x[0].amount + y[0].amount;
      if FitsInt(sum) then Then(Coin(x[0].denom, sum), Merged(x[1..], y[1..])) else Panics
    else Then(y[0], Merged(x, y[1..]))
  }

  /** The same denomination in both, with a sum that does not fit. */
  predicate Clash(x: seq<Coin>, y: seq<Coin>)
  {
    exists i, j :: 0 <= i < |x| && 0 <= j < |y| && x[i].denom == y[j].denom && !FitsInt(x[i].amount + y[j].amount)
  }

  lemma ClashSkip(x: seq<Coin>, y: seq<Coin>)
    requires SortedCoins(y) && x != [] && y != [] && Less(x[0].denom, y[0].denom)
    ensures Clash(x, y) <==> Clash(x[1..], y)
  {
    AmountBelow(y, x[0].denom);
    if Clash(x, y) {
      var i, j :| 0 <= i < |x| && 0 <= j < |y| && x[i].denom == y[j].denom && !FitsInt(x[i].amount + y[j].amount);
      assert x[1..][i - 1] == x[i];
    }
    if Clash(x[1..], y) {
      var i, j :| 0 <= i < |x[1..]| && 0 <= j < |y| && x[1..][i].denom == y[j].denom &&
                  !FitsInt(x[1..][i].amount + y[j].amount);
      assert x[i + 1] == x[1..][i];
    }
  }

  lemma ClashBoth(x: seq<Coin>, y: seq<Coin>)
    requires SortedCoins(x) && SortedCoins(y) && x != [] && y != []
    requires x[0].denom == y[0].denom && FitsInt(x[0].amount + y[0].amount)
    ensures Clash(x, y) <==> Clash(x[1..], y[1..])
  {
    if Clash(x, y) {
      var i, j :| 0 <= i < |x| && 0 <= j < |y| && x[i].denom == y[j].denom && !FitsInt(x[i].amount + y[j].amount);
      NotFirst(x, y, i, j);
      assert x[1..][i - 1] == x[i] && y[1..][j - 1] == y[j];
    }
    if Clash(x[1..], y[1..]) {
      var i, j :| 0 <= i < |x[1..]| && 0 <= j < |y[1..]| && x[1..][i].denom == y[1..][j].denom &&
                  !FitsInt(x[1..][i].amount + y[1..][j].amount);
      assert x[i + 1] == x[1..][i] && y[j + 1] == y[1..][j];
    }
  }

  lemma NotFirst(x: seq<Coin>, y: seq<Coin>, i: nat, j: nat)
    requires SortedCoins(x) && SortedCoins(y) && i < |x| && j < |y| && x[0].denom == y[0].denom
    requires x[i].denom == y[j].denom
    ensures i == 0 <==> j == 0
  {
    LessIsTotal(x[0].denom, x[i].denom);
    LessIsTotal(y[0].denom, y[j].denom);
  }

  lemma ClashSymmetric(x: seq<Coin>, y: seq<Coin>)
    ensures Clash(x, y) <==> Clash(y, x)
  {
  }

  /** The only panic is a sum of more than 255 bits. */
  lemma {:induction false} MergedPanicsIff(x: seq<Coin>, y: seq<Coin>)
    requires SortedCoins(x) && SortedCoins(y)
    ensures Merged(x, y).Panics? <==> Clash(x, y)
    decreases |x| + |y|
  {
    if x != [] && y != [] {
      LessIsTotal(x[0].denom, y[0].denom);
      if Less(x[0].denom, y[0].denom) {
        ClashSkip(x, y);
        MergedPanicsIff(x[1..], y);
      } else if x[0].denom == y[0].denom {
        if FitsInt(x[0].amount + y[0].amount) {
          ClashBoth(x, y);
          MergedPanicsIff(x[1..], y[1..]);
        }
      } else {
        ClashSkip(y, x);
        ClashSymmetric(x, y);
        ClashSymmetric(x, y[1..]);
        MergedPanicsIff(x, y[1..]);
      }
    }
  }

  predicate Above(s: seq<Coin>, d: Bytes)
  {
    forall i :: 0 <= i < |s| ==> Less(d, s[i].denom)
  }

  lemma AboveTail(s: seq<Coin>)
    requires SortedCoins(s) && s != []
    ensures Above(s[1..], s[0].denom) && SortedCoins(s[1..])
  {
  }

  lemma AboveFirst(s: seq<Coin>, d: Bytes)
    requires SortedCoins(s) && s != [] && Less(d, s[0].denom)
    ensures Above(s, d)
  {
    forall i | 0 <= i < |s|
      ensures Less(d, s[i].denom)
    {
      if i > 0 {
        LessIsTransitive(d, s[0].denom, s[i].denom);
      }
    }
  }

  lemma {:induction false} MergedAbove(x: seq<Coin>, y: seq<Coin>, d: Bytes)
    requires SortedCoins(x) && SortedCoins(y) && Above(x, d) && Above(y, d) && Merged(x, y).Returns?
    ensures Above(Merged(x, y).value, d)
    decreases |x| + |y|
  {
    NonZeroIs(x);
    NonZeroIs(y);
    if x != [] && y != [] {
      if Less(x[0].denom, y[0].denom) {
        MergedAbove(x[1..], y, d);
      } else if x[0].denom == y[0].denom {
        MergedAbove(x[1..], y[1..], d);
      } else {
        MergedAbove(x, y[1..], d);
      }
    } else {
      forall c | c in Merged(x, y).value
        ensures Less(d, c.denom)
      {
        assert c in x || c in y;
      }
    }
  }

  lemma SortedThen(c: Coin, rest: seq<Coin>)
    requires SortedCoins(rest) && ZeroFree(rest) && Above(rest, c.denom)
    ensures SortedCoins(Then(c, Returns(rest)).value) && ZeroFree(Then(c, Returns(rest)).value)
  {
  }

  lemma {:induction false} MergedIsSorted(x: seq<Coin>, y: seq<Coin>)
    requires SortedCoins(x) && SortedCoins(y) && Merged(x, y).Returns?
    ensures SortedCoins(Merged(x, y).value) && ZeroFree(Merged(x, y).value)
    decreases |x| + |y|
  {
    NonZeroIs(x);
    NonZeroIs(y);
    if x != [] && y != [] {
      LessIsTotal(x[0].denom, y[0].denom);
      AboveTail(x);
      AboveTail(y);
      if Less(x[0].denom, y[0].denom) {
        AboveFirst(y, x[0].denom);
        MergedIsSorted(x[1..], y);
        MergedAbove(x[1..], y, x[0].denom);
        SortedThen(x[0], Merged(x[1..], y).value);
      } else if x[0].denom == y[0].denom {
        MergedIsSorted(x[1..], y[1..]);
        MergedAbove(x[1..], y[1..], x[0].denom);
        SortedThen(Coin(x[0].denom, x[0].amount + y[0].amount), Merged(x[1..], y[1..]).value);
      } else {
        AboveFirst(x, y[0].denom);
        MergedIsSorted(x, y[1..]);
        MergedAbove(x, y[1..], y[0].denom);
        SortedThen(y[0], Merged(x, y[1..]).value);
      }
    }
  }

  lemma AmountThen(c: Coin, rest: seq<Coin>, d: Bytes)
    requires Above(rest, c.denom)
    ensures Amount(Then(c, Returns(rest)).value, d) == Amount(rest, d) + (if d == c.denom then c.amount else 0)
  {
    if d == c.denom {
      LessIsTotal(d, d);
      AmountAbsent(rest, d);
    }
    if c.amount != 0 {
      assert ([c] + rest)[1..] == rest;
    }
  }

  /** Denomination by denomination it is the sum. With the order and the absence of zeros this
      determines the result. */
  lemma {:induction false} MergedAmount(x: seq<Coin>, y: seq<Coin>, d: Bytes)
    requires SortedCoins(x) && SortedCoins(y) && Merged(x, y).Returns?
    ensures Amount(Merged(x, y).value, d) == Amount(x, d) + Amount(y, d)
    decreases |x| + |y|
  {
    NonZeroAmount(x, d);
    NonZeroAmount(y, d);
    if x != [] && y != [] {
      LessIsTotal(x[0].denom, y[0].denom);
      AboveTail(x);
      AboveTail(y);
      if Less(x[0].denom, y[0].denom) {
        AboveFirst(y, x[0].denom);
        MergedAmount(x[1..], y, d);
        MergedAbove(x[1..], y, x[0].denom);
        AmountThen(x[0], Merged(x[1..], y).value, d);
        TailBelow(x);
      } else if x[0].denom == y[0].denom {
        MergedAmount(x[1..], y[1..], d);
        MergedAbove(x[1..], y[1..], x[0].denom);
        AmountThen(Coin(x[0].denom, x[0].amount + y[0].amount), Merged(x[1..], y[1..]).value, d);
        TailBelow(x);
        TailBelow(y);
      } else {
        AboveFirst(x, y[0].denom);
        MergedAmount(x, y[1..], d);
        MergedAbove(x, y[1..], y[0].denom);
        AmountThen(y[0], Merged(x, y[1..]).value, d);
        TailBelow(y);
      }
    }
  }

  function After(sum: seq<Coin>, rest: Outcome<seq<Coin>>): Outcome<seq<Coin>>
  {
    if rest.Panics? then Panics else Returns(sum + rest.value)
  }

  lemma AfterThen(sum: seq<Coin>, c: Coin, rest: Outcome<seq<Coin>>)
    ensures After(sum, Then(c, rest)) == After(if c.amount == 0 then sum else sum + [c], rest)
  {
    if rest.Returns? {
      Regroup(sum, [c], rest.value);
    }
  }

  /** Drops the coins before i and j. */
  ghost function Left(x: seq<Coin>, i: nat, y: seq<Coin>, j: nat): Outcome<seq<Coin>>
    requires i <= |x| && j <= |y|
  {
    Merged(x[i..], y[j..])
  }

  lemma LeftStep(x: seq<Coin>, i: nat, y: seq<Coin>, j: nat)
    requires i < |x| && j < |y|
    ensures Less(x[i].denom, y[j].denom) ==> Left(x, i, y, j) == Then(x[i], Left(x, i + 1, y, j))
    ensures x[i].denom == y[j].denom ==>
      var sum := x[i].amount + y[j].amount;
      Left(x, i, y, j) == if FitsInt(sum) then Then(Coin(x[i].denom, sum), Left(x, i + 1, y, j + 1)) else Panics
    ensures Less(y[j].denom, x[i].denom) ==> Left(x, i, y, j) == Then(y[j], Left(x, i, y, j + 1))
  {
    assert x[i..][1..] == x[i + 1..] && y[j..][1..] == y[j + 1..];
    LessIsTotal(x[i].denom, y[j].denom);
  }

  lemma StartAdd(x: seq<Coin>, y: seq<Coin>)
    ensures After([], Left(x, 0, y, 0)) == Merged(x, y)
  {
    assert x[0..] == x && y[0..] == y;
    if Merged(x, y).Returns? {
      assert [] + Merged(x, y).value == Merged(x, y).value;
    }
  }

  /** How much of two lists the merge goes through before one of them ends. */
  function Merging(x: seq<Coin>, y: seq<Coin>): (r: (nat, nat))
    ensures r.0 <= |x| && r.1 <= |y|
    decreases |x| + |y|
  {
    if x == [] || y == [] then (0, 0)
    else if Less(x[0].denom, y[0].denom) then var r := Merging(x[1..], y); (r.0 + 1, r.1)
    else if x[0].denom == y[0].denom then var r := Merging(x[1..], y[1..]); (r.0 + 1, r.1 + 1)
    else var r := Merging(x, y[1..]); (r.0, r.1 + 1)
  }

  ghost predicate MergingAt(x: seq<Coin>, i: nat, y: seq<Coin>, j: nat)
  {
    && i <= |x| && j <= |y|
    && Merging(x, y) == (i + Merging(x[i..], y[j..]).0, j + Merging(x[i..], y[j..]).1)
  }

  lemma MergingStep(x: seq<Coin>, i: nat, y: seq<Coin>, j: nat)
    requires i < |x| && j < |y| && MergingAt(x, i, y, j)
    ensures Less(x[i].denom, y[j].denom) ==> MergingAt(x, i + 1, y, j)
    ensures x[i].denom == y[j].denom ==> MergingAt(x, i + 1, y, j + 1)
    ensures Less(y[j].denom, x[i].denom) ==> MergingAt(x, i, y, j + 1)
  {
    assert x[i..][1..] == x[i + 1..] && y[j..][1..] == y[j + 1..];
    LessIsTotal(x[i].denom, y[j].denom);
  }

  lemma StartMerging(x: seq<Coin>, y: seq<Coin>)
    ensures MergingAt(x, 0, y, 0)
  {
    assert x[0..] == x && y[0..] == y;
  }

  lemma {:induction false} MergingBoth(x: seq<Coin>)
    ensures Merging(x, x) == (|x|, |x|)
  {
    if x != [] {
      LessIsTotal(x[0].denom, x[0].denom);
      MergingBoth(x[1..]);
    }
  }

  /** A list of which the part from i on was compacted in place. */
  function CompactedFrom(x: seq<Coin>, i: nat): seq<Coin>
    requires i <= |x|
  {
    x[..i] + Compacted(x[i..])
  }

  lemma CompactedFromIsSame(x: seq<Coin>, i: nat)
    requires i <= |x|
    ensures CompactedFrom(x, i) == x <==> Steady(x[i..])
  {
    CompactedIsSame(x[i..]);
    NonZeroSize(x[i..]);
    assert x == x[..i] + x[i..];
    if CompactedFrom(x, i) == x {
      assert CompactedFrom(x, i)[i..] == Compacted(x[i..]);
    }
  }

  /** safeAdd. What is left of the longer list is compacted in place, in the caller's array. */
  method SafeAdd(a: array<Coin>, b: array<Coin>) returns (sum: Outcome<seq<Coin>>)
    modifies a, b
    ensures sum == Merged(old(a[..]), old(b[..]))
    ensures sum.Panics? ==> a[..] == old(a[..]) && b[..] == old(b[..])
    ensures sum.Returns? ==>
      var (i, j) := Merging(old(a[..]), old(b[..]));
      a[..] == CompactedFrom(old(a[..]), i) && b[..] == CompactedFrom(old(b[..]), j)
  {
    ghost var x, y := a[..], b[..];
    var i, j := 0, 0;
    var coins: seq<Coin> := [];
    StartAdd(x, y);
    StartMerging(x, y);
    while i < a.Length && j < b.Length
      invariant 0 <= i <= a.Length == |x| && 0 <= j <= b.Length == |y|
      invariant a[..] == x && b[..] == y
      invariant Merged(x, y) == After(coins, Left(x, i, y, j)) && MergingAt(x, i, y, j)
      decreases a.Length + b.Length - i - j
    {
      var coinA, coinB := a[i], b[j];
      assert coinA == x[i] && coinB == y[j];
      LeftStep(x, i, y, j);
      MergingStep(x, i, y, j);
      var compare := Compare(coinA.denom, coinB.denom);
      var coin;
      if compare == -1 {
        AfterThen(coins, coinA, Left(x, i + 1, y, j));
        coin := coinA;
        i := i + 1;
      } else if compare == 0 {
        if !FitsInt(coinA.amount + coinB.amount) {
          return Panics;
        }
        coin := Coin(coinA.denom, coinA.amount + coinB.amount);
        AfterThen(coins, coin, Left(x, i + 1, y, j + 1));
        i, j := i + 1, j + 1;
      } else {
        AfterThen(coins, coinB, Left(x, i, y, j + 1));
        coin := coinB;
        j := j + 1;
      }
      if coin.amount != 0 {
        coins := coins + [coin];
      }
    }
    EndMerging(x, i, y, j);
    sum := FinishAdd(a, i, b, j, coins);
  }

  lemma EndMerging(x: seq<Coin>, i: nat, y: seq<Coin>, j: nat)
    requires MergingAt(x, i, y, j) && (i == |x| || j == |y|)
    ensures Merging(x, y) == (i, j) && (x == y ==> i == j)
  {
    if x == y {
      MergingBoth(x);
    }
  }

  method FinishAdd(a: array<Coin>, i: nat, b: array<Coin>, j: nat, coins: seq<Coin>) returns (sum: Outcome<seq<Coin>>)
    requires i <= a.Length && j <= b.Length && (i == a.Length || j == b.Length)
    requires a == b ==> i == j
    modifies a, b
    ensures sum == After(coins, Left(old(a[..]), i, old(b[..]), j)) && sum.Returns?
    ensures a[..] == CompactedFrom(old(a[..]), i) && b[..] == CompactedFrom(old(b[..]), j)
  {
    NothingLeft(a[..]);
    NothingLeft(b[..]);
    if i == a.Length {
      var end := RemoveZeroCoins(b, j);
      FromParts(b[..], j);
      return Returns(coins + b[j..end]);
    }
    var end := RemoveZeroCoins(a, i);
    FromParts(a[..], i);
    return Returns(coins + a[i..end]);
  }

  lemma NothingLeft(x: seq<Coin>)
    ensures CompactedFrom(x, |x|) == x
  {
  }

  lemma FromParts(x: seq<Coin>, i: nat)
    requires i <= |x|
    ensures x == x[..i] + x[i..]
  {
  }

  /** The arrays of the caller stay as they were exactly when, in what the merge leaves of each,
      nothing but copies of it follows a zero coin; without zero coins they always do. */
  lemma SafeAddKeepsIff(x: seq<Coin>, y: seq<Coin>)
    ensures var (i, j) := Merging(x, y);
            && (CompactedFrom(x, i) == x <==> Steady(x[i..]))
            && (CompactedFrom(y, j) == y <==> Steady(y[j..]))
    ensures ZeroFree(x) ==> CompactedFrom(x, Merging(x, y).0) == x
    ensures ZeroFree(y) ==> CompactedFrom(y, Merging(x, y).1) == y
  {
    var (i, j) := Merging(x, y);
    CompactedFromIsSame(x, i);
    CompactedFromIsSame(y, j);
  }

  /** They do change: adding nothing to 0A,1B leaves 1B,1B in the caller's array. */
  lemma SafeAddCanMutate(a: Bytes, b: Bytes)
    ensures var x := [Coin(a, 0), Coin(b, 1)];
            CompactedFrom(x, Merging(x, []).0) == [Coin(b, 1), Coin(b, 1)]
  {
    var x := [Coin(a, 0), Coin(b, 1)];
    assert x[0..] == x && x[1..] == [Coin(b, 1)] && x[1..][1..] == [];
    assert NonZero(x) == NonZero(x[1..]) == [Coin(b, 1)];
  }

  // ---- subtracting and comparing ----

  function Negated(s: seq<Coin>): (r: seq<Coin>)
    ensures |r| == |s|
  {
    seq(|s|, i requires 0 <= i < |s| => Coin(s[i].denom, -s[i].amount))
  }

  predicate AnyNegative(s: seq<Coin>)
  {
    exists i :: 0 <= i < |s| && s[i].amount < 0
  }

  lemma {:induction false} NegatedAmount(s: seq<Coin>, d: Bytes)
    ensures Amount(Negated(s), d) == -Amount(s, d)
  {
    if s != [] {
      NegatedAmount(s[1..], d);
      assert Negated(s)[1..] == Negated(s[1..]);
    }
  }

  lemma {:induction false} AmountNonNegative(s: seq<Coin>, d: Bytes)
    requires NonNegative(s)
    ensures Amount(s, d) >= 0
  {
    if s != [] {
      AmountNonNegative(s[1..], d);
    }
  }

  ghost predicate Covers(x: seq<Coin>, y: seq<Coin>)
  {
    forall d :: Amount(x, d) >= Amount(y, d)
  }

  /** Coins that are not negative can be subtracted, and no coin of the difference is negative,
      exactly when there is enough of every denomination. */
  lemma SafeSubIs(x: seq<Coin>, y: seq<Coin>)
    requires SortedCoins(x) && SortedCoins(y) && NonNegative(x) && NonNegative(y) && InBounds(x) && InBounds(y)
    ensures Merged(x, Negated(y)).Returns?
    ensures SortedCoins(Merged(x, Negated(y)).value) && ZeroFree(Merged(x, Negated(y)).value)
    ensures forall d :: Amount(Merged(x, Negated(y)).value, d) == Amount(x, d) - Amount(y, d)
    ensures !AnyNegative(Merged(x, Negated(y)).value) <==> Covers(x, y)
  {
    MergedPanicsIff(x, Negated(y));
    MergedIsSorted(x, Negated(y));
    var diff := Merged(x, Negated(y)).value;
    forall d
      ensures Amount(diff, d) == Amount(x, d) - Amount(y, d)
    {
      MergedAmount(x, Negated(y), d);
      NegatedAmount(y, d);
    }
    NegativeAmount(diff);
    CoversIff(x, y, diff);
  }

  lemma CoversIff(x: seq<Coin>, y: seq<Coin>, diff: seq<Coin>)
    requires forall d :: Amount(diff, d) == Amount(x, d) - Amount(y, d)
    ensures Covers(x, y) <==> !exists d :: Amount(diff, d) < 0
  {
    if Covers(x, y) {
      forall d
        ensures !(Amount(diff, d) < 0)
      {
        assert Amount(x, d) >= Amount(y, d);
        assert Amount(diff, d) == Amount(x, d) - Amount(y, d);
      }
    } else {
      var d :| !(Amount(x, d) >= Amount(y, d));
      assert Amount(diff, d) < 0;
    }
  }

  lemma NegativeAmount(s: seq<Coin>)
    requires SortedCoins(s)
    ensures AnyNegative(s) <==> exists d :: Amount(s, d) < 0
  {
    if AnyNegative(s) {
      var i :| 0 <= i < |s| && s[i].amount < 0;
      AmountAt(s, i);
    }
    if exists d :: Amount(s, d) < 0 {
      var d :| Amount(s, d) < 0;
      if !AnyNegative(s) {
        AmountNonNegative(s, d);
      }
    }
  }

  method IsZero(s: seq<Coin>) returns (zero: bool)
    ensures zero <==> forall i :: 0 <= i < |s| ==> s[i].amount == 0
  {
    for i := 0 to |s|
      invariant forall k :: 0 <= k < i ==> s[k].amount == 0
    {
      if s[i].amount != 0 {
        return false;
      }
    }
    return true;
  }

  /** IsAllGTE agrees with SafeSub on sets of coins that are not negative. */
  method IsAllGTE(x: seq<Coin>, y: seq<Coin>) returns (all: bool)
    requires SortedCoins(x) && SortedCoins(y) && NonNegative(x) && NonNegative(y)
    ensures all <==> Covers(x, y)
    ensures InBounds(x) && InBounds(y) ==>
      Merged(x, Negated(y)).Returns? && (all <==> !AnyNegative(Merged(x, Negated(y)).value))
  {
    if InBounds(x) && InBounds(y) {
      SafeSubIs(x, y);
    }
    var none := IsZero(y);
    if none {
      NoneCovered(x, y);
      return true;
    }
    none := IsZero(x);
    if none {
      NoneCovers(x, y);
      return false;
    }
    for i := 0 to |y|
      invariant forall k :: 0 <= k < i ==> Amount(x, y[k].denom) >= y[k].amount
    {
      AmountOfIsAmount(x, y[i].denom);
      if AmountOf(x, y[i].denom) < y[i].amount {
        AmountAt(y, i);
        return false;
      }
    }
    EachCovered(x, y);
    return true;
  }

  lemma {:induction false} ZeroAmount(s: seq<Coin>, d: Bytes)
    requires forall i :: 0 <= i < |s| ==> s[i].amount == 0
    ensures Amount(s, d) == 0
  {
    if s != [] {
      ZeroAmount(s[1..], d);
    }
  }

  lemma NoneCovered(x: seq<Coin>, y: seq<Coin>)
    requires NonNegative(x) && forall i :: 0 <= i < |y| ==> y[i].amount == 0
    ensures Covers(x, y)
  {
    forall d
      ensures Amount(x, d) >= Amount(y, d)
    {
      ZeroAmount(y, d);
      AmountNonNegative(x, d);
    }
  }

  lemma NoneCovers(x: seq<Coin>, y: seq<Coin>)
    requires SortedCoins(y) && NonNegative(y) && forall i :: 0 <= i < |x| ==> x[i].amount == 0
    requires exists i :: 0 <= i < |y| && y[i].amount != 0
    ensures !Covers(x, y)
  {
    var i :| 0 <= i < |y| && y[i].amount != 0;
    AmountAt(y, i);
    ZeroAmount(x, y[i].denom);
    assert !(Amount(x, y[i].denom) >= Amount(y, y[i].denom));
  }

  lemma EachCovered(x: seq<Coin>, y: seq<Coin>)
    requires SortedCoins(y) && NonNegative(x)
    requires forall k :: 0 <= k < |y| ==> Amount(x, y[k].denom) >= y[k].amount
    ensures Covers(x, y)
  {
    forall d
      ensures Amount(x, d) >= Amount(y, d)
    {
      AmountNonNegative(x, d);
      if exists k :: 0 <= k < |y| && y[k].denom == d {
        var k :| 0 <= k < |y| && y[k].denom == d;
        AmountAt(y, k);
      } else {
        AmountAbsent(y, d);
      }
    }
  }

  /** IsValidV0: strictly sorted, and every coin positive. */
  method IsValidV0(s: seq<Coin>) returns (valid: bool)
    ensures valid <==> SortedCoins(s) && forall i :: 0 <= i < |s| ==> s[i].amount > 0
  {
    if s == [] {
      return true;
    }
    if s[0].amount <= 0 {
      return false;
    }
    var lowDenom := s[0].denom;
    for i := 1 to |s|
      invariant lowDenom == s[i - 1].denom
      invariant SortedCoins(s[..i]) && forall k :: 0 <= k < i ==> s[k].amount > 0
    {
      if Compare(s[i].denom, lowDenom) != 1 || s[i].amount <= 0 {
        assert s[i - 1] == s[..i][i - 1];
        return false;
      }
      SortedMore(s, i);
      lowDenom := s[i].denom;
    }
    assert s[..|s|] == s;
    return true;
  }

  lemma SortedMore(s: seq<Coin>, i: nat)
    requires 0 < i < |s| && SortedCoins(s[..i]) && Less(s[i - 1].denom, s[i].denom)
    ensures SortedCoins(s[..i + 1])
  {
    forall j, k | 0 <= j < k < i + 1
      ensures Less(s[j].denom, s[k].denom)
    {
      assert s[j] == s[..i][j];
      if k < i {
        assert s[k] == s[..i][k];
      } else if j < i - 1 {
        assert s[i - 1] == s[..i][i - 1];
        LessIsTransitive(s[j].denom, s[i - 1].denom, s[i].denom);
      }
    }
  }
}
