/** The governance records in the byte store: what the decoded maps and queues stand for, and the
    loops over their iterators. Amino encodings are arbitrary, with their inverses. */
module GovStore {
  import opened Bytes
  import opened Chain
  import opened Listings
  import opened Iterators
  import opened Prefix
  import opened KVStores
  import opened Savepoints
  import opened Sums
  import opened GovKeys
  import opened GovSpec
  import Gov

  // ---- deposits ----

  datatype Deposit = Deposit(depositor: Address, id: nat, amount: nat)

  const DEPOSITS: Bytes := Text("deposits:")

  function DepositKey(d: Deposit): Bytes
  {
    RecordKey(DEPOSITS, d.id, d.depositor.bytes)
  }

  predicate IsRecord(deposits: Deposits, d: Deposit)
  {
    d.id in deposits && d.depositor in deposits[d.id] && deposits[d.id][d.depositor] == d.amount
  }

  /** The store's entries under the deposits prefix are the records, each under its key. */
  ghost predicate Holds(m: Store, deposits: Deposits, c: Codec<Deposit>)
  {
    && (forall d :: IsRecord(deposits, d) ==> DepositKey(d) in m && m[DepositKey(d)] == c.encode(d))
    && (forall k :: k in m && HasPrefix(k, DEPOSITS) ==>
          IsRecord(deposits, c.decode(m[k])) && k == DepositKey(c.decode(m[k])))
  }

  ghost function RecordsOf(m: Store, id: nat): Store
  {
    InRange(m, Some(Subspace(DEPOSITS, id)), PrefixEnd(Subspace(DEPOSITS, id)))
  }

  lemma DepositKeyInRange(m: Store, id: nat, d: Deposit)
    requires DepositKey(d) in m
    ensures DepositKey(d) in RecordsOf(m, id) <==> d.id == id
  {
    SubspaceIsOneProposal(DEPOSITS, id, d.id, d.depositor.bytes);
  }

  /** The range of a proposal holds its records. */
  lemma RangeHoldsRecords(m: Store, deposits: Deposits, c: Codec<Deposit>, id: nat, k: Bytes)
    requires Holds(m, deposits, c) && k in RecordsOf(m, id)
    ensures RecordsOf(m, id)[k] == m[k]
    ensures var d := c.decode(m[k]); IsRecord(deposits, d) && k == DepositKey(d) && d.id == id
  {
    PrefixRange(Subspace(DEPOSITS, id), k);
    var d := c.decode(m[k]);
    assert Subspace(DEPOSITS, id)[..|DEPOSITS|] == DEPOSITS;
    assert k[..|DEPOSITS|] == Subspace(DEPOSITS, id)[..|DEPOSITS|];
    assert HasPrefix(k, DEPOSITS);
    DepositKeyInRange(m, id, d);
  }

  lemma RangeDeleted(m: Store, deposits: Deposits, c: Codec<Deposit>, id: nat)
    requires Holds(m, deposits, c)
    ensures Holds(Without(m, RecordsOf(m, id).Keys), deposits - {id}, c)
  {
    var rest := Without(m, RecordsOf(m, id).Keys);
    forall d | IsRecord(deposits - {id}, d)
      ensures DepositKey(d) in rest && rest[DepositKey(d)] == c.encode(d)
    {
      assert IsRecord(deposits, d);
      DepositKeyInRange(m, id, d);
    }
    forall k | k in rest && HasPrefix(k, DEPOSITS)
      ensures IsRecord(deposits - {id}, c.decode(rest[k])) && k == DepositKey(c.decode(rest[k]))
    {
      DepositKeyInRange(m, id, c.decode(m[k]));
    }
  }

  /** Exactly a proposal's records, no depositor twice. */
  ghost predicate Lists(taken: seq<Deposit>, deposits: Deposits, id: nat)
  {
    && (forall d :: d in taken <==> IsRecord(deposits, d) && d.id == id)
    && (forall i, j :: 0 <= i < j < |taken| ==> taken[i].depositor != taken[j].depositor)
  }

  lemma ListedRecords(m: Store, deposits: Deposits, c: Codec<Deposit>, id: nat,
                      seen: seq<Pair<Bytes>>, taken: seq<Deposit>)
    requires Holds(m, deposits, c) && Faithful(c)
    requires Sorted(true, seen) && Dict(seen) == RecordsOf(m, id)
    requires |taken| == |seen| && forall i :: 0 <= i < |seen| ==> taken[i] == c.decode(seen[i].value)
    ensures Lists(taken, deposits, id)
  {
    forall i | 0 <= i < |seen|
      ensures IsRecord(deposits, taken[i]) && taken[i].id == id && seen[i].key == DepositKey(taken[i])
    {
      DictAt(seen, i);
      RangeHoldsRecords(m, deposits, c, id, seen[i].key);
    }
    forall d | IsRecord(deposits, d) && d.id == id
      ensures d in taken
    {
      DepositKeyInRange(m, id, d);
      DictKeys(seen, DepositKey(d));
      var i :| 0 <= i < |seen| && seen[i].key == DepositKey(d);
      DictAt(seen, i);
      assert taken[i] == d;
    }
    forall i, j | 0 <= i < j < |taken|
      ensures taken[i].depositor != taken[j].depositor
    {
      LessIsTotal(seen[i].key, seen[j].key);
    }
  }

  method DecodeAll<T>(seen: seq<Pair<Bytes>>, c: Codec<T>) returns (taken: seq<T>)
    ensures |taken| == |seen| && forall i :: 0 <= i < |seen| ==> taken[i] == c.decode(seen[i].value)
  {
    taken := [];
    for i := 0 to |seen|
      invariant |taken| == i && forall k :: 0 <= k < i ==> taken[k] == c.decode(seen[k].value)
    {
      taken := taken + [c.decode(seen[i].value)];
    }
  }

  /** On the byte store itself: iterating over a proposal's range while deleting visits every
      record of the proposal once and leaves exactly the other proposals' records. */
  method TakeDeposits(store: KVStore, id: nat, c: Codec<Deposit>, ghost deposits: Deposits)
    returns (taken: seq<Deposit>)
    requires store.Shape() && store.Coherent() && Holds(store.view, deposits, c) && Faithful(c)
    modifies store.Repr`cache, store.Touched()
    ensures store.Coherent() && Holds(store.view, deposits - {id}, c)
    ensures Lists(taken, deposits, id)
  {
    var subspace := Subspace(DEPOSITS, id);
    var end := PrefixEndBytes(Some(subspace));
    ghost var m := store.view;
    RangeDeleted(m, deposits, c, id);
    var seen := DeleteWhileIterating(store, Some(subspace), end.value);
    taken := DecodeAll(seen, c);
    ListedRecords(m, deposits, c, id, seen, taken);
  }

  // ---- burning a proposal's deposits ----

  function TotalOf(taken: seq<Deposit>): nat
  {
    if taken == [] then 0 else TotalOf(taken[..|taken| - 1]) + taken[|taken| - 1].amount
  }

  lemma TotalMore(taken: seq<Deposit>, i: nat)
    requires i < |taken|
    ensures TotalOf(taken[..i + 1]) == TotalOf(taken[..i]) + taken[i].amount
  {
    assert taken[..i + 1][..i] == taken[..i];
  }

  lemma {:induction false} TotalUpTo(taken: seq<Deposit>, i: nat)
    requires i <= |taken|
    ensures TotalOf(taken[..i]) <= TotalOf(taken)
    decreases |taken| - i
  {
    if i == |taken| {
      assert taken[..i] == taken;
    } else {
      TotalMore(taken, i);
      TotalUpTo(taken, i + 1);
    }
  }

  /** A list of some records, each once. */
  ghost predicate Enumerated(taken: seq<Deposit>, records: map<Address, nat>)
  {
    && (forall i :: 0 <= i < |taken| ==>
          taken[i].depositor in records && records[taken[i].depositor] == taken[i].amount)
    && (forall a :: a in records ==> exists i :: 0 <= i < |taken| && taken[i].depositor == a)
    && (forall i, j :: 0 <= i < j < |taken| ==> taken[i].depositor != taken[j].depositor)
  }

  lemma {:induction false} TotalIsSum(taken: seq<Deposit>, records: map<Address, nat>)
    requires Enumerated(taken, records)
    ensures TotalOf(taken) == Sum(records)
  {
    if taken == [] {
      assert records == map[];
    } else {
      var init, last := taken[..|taken| - 1], taken[|taken| - 1];
      EnumeratedInit(taken, records);
      TotalIsSum(init, records - {last.depositor});
      SumTake(records, last.depositor);
    }
  }

  lemma EnumeratedInit(taken: seq<Deposit>, records: map<Address, nat>)
    requires Enumerated(taken, records) && taken != []
    ensures Enumerated(taken[..|taken| - 1], records - {taken[|taken| - 1].depositor})
  {
    var init, last := taken[..|taken| - 1], taken[|taken| - 1];
    forall a | a in records - {last.depositor}
      ensures exists i :: 0 <= i < |init| && init[i].depositor == a
    {
      var i :| 0 <= i < |taken| && taken[i].depositor == a;
      assert init[i].depositor == a;
    }
  }

  lemma ListsEnumerate(taken: seq<Deposit>, deposits: Deposits, id: nat)
    requires Lists(taken, deposits, id)
    ensures Enumerated(taken, Records(deposits, id))
  {
    var records := Records(deposits, id);
    forall i | 0 <= i < |taken|
      ensures taken[i].depositor in records && records[taken[i].depositor] == taken[i].amount
    {
      assert taken[i] in taken;
    }
    forall a | a in records
      ensures exists i :: 0 <= i < |taken| && taken[i].depositor == a
    {
      assert IsRecord(deposits, Deposit(a, id, records[a]));
      assert Deposit(a, id, records[a]) in taken;
    }
  }

  method Spend(bank: Gov.Keeper, amount: nat) returns (v: Verdict)
    requires Gov.Affords(bank.params, bank.store, amount)
    modifies bank`store
    ensures v == Verdict.Done && bank.store == Gov.Spent(bank.params, old(bank.store), old(bank.store).deposits, amount)
  {
    v := bank.BurnCoinsFromAddr(bank.params.escrow, amount);
  }

  /** One turn: burn a record's coins, then delete the record. */
  method BurnOne(store: KVStore, iter: KVIterator, bank: Gov.Keeper, c: Codec<Deposit>)
    returns (v: Verdict, entry: Pair<Bytes>, ok: bool)
    requires store.Shape() && store.Coherent() && iter.Shape() && iter.Ready()
    requires Apart(store, iter) && bank !in iter.Repr
    requires iter.rest != [] && Gov.Affords(bank.params, bank.store, c.decode(iter.rest[0].value).amount)
    modifies iter.Repr, store.Touched(), bank`store
    ensures store.Coherent() && iter.Ready()
    ensures v == Verdict.Done && [entry] + iter.rest == old(iter.rest) && (ok <==> iter.rest != [])
    ensures store.view == old(store.view) - {entry.key}
    ensures bank.store ==
            Gov.Spent(bank.params, old(bank.store), old(bank.store).deposits, c.decode(entry.value).amount)
  {
    var value := iter.Value();
    v := Spend(bank, c.decode(value).amount);
    entry, ok := TakeAndDelete(store, iter);
  }

  /** The first i of the deposits are burned. */
  ghost predicate Burnt(p: Params, before: State, now: State, all: seq<Deposit>, i: nat)
  {
    i <= |all| && Gov.Burning(p, before, now, before.deposits, TotalOf(all[..i]), i > 0)
  }

  lemma BurnAffords(p: Params, before: State, now: State, all: seq<Deposit>, i: nat)
    requires i < |all| && Gov.Affords(p, before, TotalOf(all)) && Burnt(p, before, now, all, i)
    ensures Gov.Affords(p, now, all[i].amount)
  {
    TotalMore(all, i);
    TotalUpTo(all, i + 1);
    Gov.AffordsLess(p, before, TotalOf(all[..i + 1]), TotalOf(all) - TotalOf(all[..i + 1]));
    Gov.BurnLeaves(p, before, now, before.deposits, TotalOf(all[..i]), i > 0, all[i].amount);
  }

  lemma BurnMore(p: Params, before: State, now: State, all: seq<Deposit>, i: nat)
    requires i < |all| && Burnt(p, before, now, all, i)
    ensures Burnt(p, before, Gov.Spent(p, now, now.deposits, all[i].amount), all, i + 1)
  {
    TotalMore(all, i);
    Gov.BurnMore(p, before, now, before.deposits, TotalOf(all[..i]), i > 0, before.deposits, all[i].amount);
  }

  /** One turn of the loop, over the records `all`, after those in `seen`. */
  method BurnNext(store: KVStore, iter: KVIterator, bank: Gov.Keeper, c: Codec<Deposit>, ghost all: seq<Deposit>,
                  ghost before: State, ghost m: Store, ghost rest: seq<Pair<Bytes>>, ghost seen: seq<Pair<Bytes>>)
    returns (v: Verdict, ok: bool, ghost seen': seq<Pair<Bytes>>)
    requires store.Shape() && store.Coherent() && iter.Shape() && iter.Ready()
    requires Apart(store, iter) && bank !in iter.Repr
    requires iter.rest != [] && |seen| < |all| && all[|seen|] == c.decode(iter.rest[0].value)
    requires Gov.Affords(bank.params, before, TotalOf(all)) && Burnt(bank.params, before, bank.store, all, |seen|)
    requires Visited(rest, seen, iter.rest, m, store.view)
    modifies iter.Repr, store.Touched(), bank`store
    ensures store.Coherent() && iter.Ready()
    ensures v == Verdict.Done && (ok <==> iter.rest != []) && |iter.rest| < old(|iter.rest|) && |seen'| == |seen| + 1
    ensures Visited(rest, seen', iter.rest, m, store.view)
    ensures Burnt(bank.params, before, bank.store, all, |seen'|)
  {
    BurnAffords(bank.params, before, bank.store, all, |seen|);
    BurnMore(bank.params, before, bank.store, all, |seen|);
    ghost var was, funds, d := store.view, bank.store, all[|seen|];
    ghost var after := Gov.Spent(bank.params, funds, funds.deposits, d.amount);
    assert Burnt(bank.params, before, after, all, |seen| + 1);
    var entry;
    v, entry, ok := BurnOne(store, iter, bank, c);
    VisitMore(rest, seen, entry, iter.rest, m, was);
    seen' := seen + [entry];
    assert entry == old(iter.rest)[0];
    assert bank.store == after;
  }

  /** `all` are the records that the iterator has yet to visit. */
  method BurnEach(store: KVStore, iter: KVIterator, bank: Gov.Keeper, c: Codec<Deposit>, ghost all: seq<Deposit>)
    returns (v: Verdict)
    requires store.Shape() && store.Coherent() && iter.Shape() && iter.Ready()
    requires Apart(store, iter) && bank !in iter.Repr
    requires DecodesTo(iter.rest, c, all) && Gov.Affords(bank.params, bank.store, TotalOf(all))
    modifies iter.Repr, store.Touched(), bank`store
    ensures v == Verdict.Done && store.Coherent()
    ensures store.view == Without(old(store.view), KeysOf(old(iter.rest)))
    ensures Burnt(bank.params, old(bank.store), bank.store, all, |all|)
  {
    ghost var before, m, rest, seen: seq<Pair<Bytes>> := bank.store, store.view, iter.rest, [];
    WithoutMore(m, {}, []);
    v := Verdict.Done;
    var ok := iter.Valid();
    while ok
      invariant v == Verdict.Done && store.Coherent() && iter.Ready() && (ok <==> iter.rest != [])
      invariant Visited(rest, seen, iter.rest, m, store.view)
      invariant Burnt(bank.params, before, bank.store, all, |seen|)
      decreases |iter.rest|
    {
      NextAhead(rest, c, all, seen, iter.rest);
      v, ok, seen := BurnNext(store, iter, bank, c, all, before, m, rest, seen);
    }
    assert seen + [] == seen;
  }

  lemma NextAhead(rest: seq<Pair<Bytes>>, c: Codec<Deposit>, all: seq<Deposit>,
                  seen: seq<Pair<Bytes>>, ahead: seq<Pair<Bytes>>)
    requires DecodesTo(rest, c, all) && seen + ahead == rest && ahead != []
    ensures |seen| < |all| && all[|seen|] == c.decode(ahead[0].value)
  {
    assert rest[|seen|] == ahead[0];
  }

  /** The entries `seen` were visited and deleted, those `ahead` were not. */
  ghost predicate Visited(all: seq<Pair<Bytes>>, seen: seq<Pair<Bytes>>, ahead: seq<Pair<Bytes>>, m: Store, view: Store)
  {
    seen + ahead == all && view == Without(m, KeysOf(seen))
  }

  lemma VisitMore(all: seq<Pair<Bytes>>, seen: seq<Pair<Bytes>>, entry: Pair<Bytes>, ahead: seq<Pair<Bytes>>,
                  m: Store, view: Store)
    requires Visited(all, seen, [entry] + ahead, m, view)
    ensures Visited(all, seen + [entry], ahead, m, view - {entry.key})
  {
    WithoutMore(m, KeysOf(seen), entry.key);
    KeysOfAppend(seen, entry);
    Shift(seen, entry, ahead);
  }

  ghost predicate DecodesTo(entries: seq<Pair<Bytes>>, c: Codec<Deposit>, all: seq<Deposit>)
  {
    |all| == |entries| && forall i :: 0 <= i < |entries| ==> all[i] == c.decode(entries[i].value)
  }

  /** DeleteDeposits on the byte store: while the iterator is open every record's coins are burned
      and the record deleted; in the end exactly the proposal's deposits have left escrow and the
      loosen counter, and exactly the other proposals' records are left. */
  method BurnDeposits(store: KVStore, bank: Gov.Keeper, id: nat, c: Codec<Deposit>, ghost deposits: Deposits)
    returns (v: Verdict)
    requires store.Shape() && store.Coherent() && Holds(store.view, deposits, c) && Faithful(c)
    requires Gov.Affords(bank.params, bank.store, Sum(Records(deposits, id)))
    modifies store.Repr`cache, store.Touched(), bank`store
    ensures v == Verdict.Done && store.Coherent() && Holds(store.view, deposits - {id}, c)
    ensures bank.store == if Records(deposits, id) == map[] then old(bank.store)
                          else Gov.Spent(bank.params, old(bank.store), old(bank.store).deposits,
                                         Sum(Records(deposits, id)))
  {
    var subspace := Subspace(DEPOSITS, id);
    var end := PrefixEndBytes(Some(subspace));
    var iter := store.Iterator(Some(subspace), end.value, true);
    ghost var all := RecordsAhead(store.view, deposits, c, id, iter.rest);
    v := BurnEach(store, iter, bank, c, all);
  }

  /** What an iterator over a proposal's range has ahead. */
  lemma RecordsAhead(m: Store, deposits: Deposits, c: Codec<Deposit>, id: nat, ahead: seq<Pair<Bytes>>)
    returns (all: seq<Deposit>)
    requires Holds(m, deposits, c) && Faithful(c) && Sorted(true, ahead) && Dict(ahead) == RecordsOf(m, id)
    ensures DecodesTo(ahead, c, all)
    ensures all[..|all|] == all && TotalOf(all) == Sum(Records(deposits, id))
    ensures all == [] <==> Records(deposits, id) == map[]
    ensures Holds(Without(m, KeysOf(ahead)), deposits - {id}, c)
  {
    all := seq(|ahead|, i requires 0 <= i < |ahead| => c.decode(ahead[i].value));
    RangeDeleted(m, deposits, c, id);
    KeysOfListing(ahead);
    ListedRecords(m, deposits, c, id, ahead, all);
    TotalOfLists(all, deposits, id);
  }

  lemma TotalOfLists(taken: seq<Deposit>, deposits: Deposits, id: nat)
    requires Lists(taken, deposits, id)
    ensures TotalOf(taken) == Sum(Records(deposits, id)) && (taken == [] <==> Records(deposits, id) == map[])
  {
    ListsEnumerate(taken, deposits, id);
    TotalIsSum(taken, Records(deposits, id));
    NoneListed(taken, Records(deposits, id));
  }

  lemma NoneListed(taken: seq<Deposit>, records: map<Address, nat>)
    requires Enumerated(taken, records)
    ensures taken == [] <==> records == map[]
  {
    if taken != [] {
      assert taken[0].depositor in records;
    }
  }

  lemma DepositKeyIsInjective(d: Deposit, e: Deposit)
    ensures DepositKey(d) == DepositKey(e) <==> d.id == e.id && d.depositor == e.depositor
  {
    RecordKeyIsInjective(DEPOSITS, d.id, d.depositor.bytes, e.id, e.depositor.bytes);
  }

  ghost function WithRecord(deposits: Deposits, d: Deposit): Deposits
  {
    deposits[d.id := Records(deposits, d.id)[d.depositor := d.amount]]
  }

  /** Writing a record is one write, which replaces the depositor's earlier record. */
  method SetDeposit(store: KVStore, d: Deposit, c: Codec<Deposit>, ghost deposits: Deposits)
    requires store.Shape() && store.Coherent() && Holds(store.view, deposits, c) && Faithful(c)
    modifies store.Touched()
    ensures store.Coherent() && Holds(store.view, WithRecord(deposits, d), c)
  {
    ghost var m := store.view;
    store.Set(DepositKey(d), c.encode(d));
    RecordSet(m, deposits, c, d);
  }

  lemma RecordSet(m: Store, deposits: Deposits, c: Codec<Deposit>, d: Deposit)
    requires Holds(m, deposits, c) && Faithful(c)
    ensures Holds(m[DepositKey(d) := c.encode(d)], WithRecord(deposits, d), c)
  {
    var after := m[DepositKey(d) := c.encode(d)];
    forall e | IsRecord(WithRecord(deposits, d), e)
      ensures DepositKey(e) in after && after[DepositKey(e)] == c.encode(e)
    {
      DepositKeyIsInjective(d, e);
      assert IsRecord(deposits, e) || e == d;
    }
    forall k | k in after && HasPrefix(k, DEPOSITS)
      ensures IsRecord(WithRecord(deposits, d), c.decode(after[k])) && k == DepositKey(c.decode(after[k]))
    {
      if k != DepositKey(d) {
        DepositKeyIsInjective(d, c.decode(m[k]));
      }
    }
  }

  // ---- queues ----

  /** UTC calendars of the instants of some span of time before the year 10000. */
  datatype Clock = Clock(from: int, to: int, civil: int -> Time)

  predicate During(clock: Clock, t: int)
  {
    clock.from <= t < clock.to
  }

  ghost predicate Civil(clock: Clock)
  {
    && (forall t :: During(clock, t) ==> ValidTime(clock.civil(t)) && clock.civil(t).year < 10000)
    && (forall t, u :: During(clock, t) && During(clock, u) ==>
          (Earlier(clock.civil(t), clock.civil(u)) <==> t < u))
  }

  function EntryKey(queue: Bytes, clock: Clock, e: Entry): Bytes
  {
    QueueKey(queue, clock.civil(e.time), e.id)
  }

  predicate Proper(clock: Clock, e: Entry)
  {
    During(clock, e.time) && e.id < UINT64_BOUND
  }

  /** The store's entries under the queue's name are the queue's entries, each holding its proposal. */
  ghost predicate Queues(m: Store, queue: Bytes, entries: set<Entry>, clock: Clock, c: Codec<nat>)
  {
    && (forall e :: e in entries ==>
          Proper(clock, e) && EntryKey(queue, clock, e) in m && m[EntryKey(queue, clock, e)] == c.encode(e.id))
    && (forall k :: k in m && HasPrefix(k, queue) ==> exists e :: e in entries && k == EntryKey(queue, clock, e))
  }

  ghost function DueOf(m: Store, queue: Bytes, clock: Clock, now: int): Store
  {
    InRange(m, Some(queue), PrefixEnd(QueueTime(queue, clock.civil(now))))
  }

  lemma EntryInRange(m: Store, queue: Bytes, clock: Clock, now: int, e: Entry)
    requires Civil(clock) && During(clock, now) && During(clock, e.time) && EntryKey(queue, clock, e) in m
    ensures EntryKey(queue, clock, e) in DueOf(m, queue, clock, now) <==> e.time <= now
  {
    QueueRangeIsDue(queue, clock.civil(e.time), e.id, clock.civil(now));
  }

  lemma RangeHoldsDue(m: Store, queue: Bytes, entries: set<Entry>, clock: Clock, c: Codec<nat>, now: int, k: Bytes)
    returns (e: Entry)
    requires Civil(clock) && During(clock, now) && Queues(m, queue, entries, clock, c)
    requires k in DueOf(m, queue, clock, now)
    ensures e in entries && e.time <= now && k == EntryKey(queue, clock, e)
    ensures DueOf(m, queue, clock, now)[k] == c.encode(e.id)
  {
    QueueRangeIsItsQueue(queue, clock.civil(now), k);
    e :| e in entries && k == EntryKey(queue, clock, e);
    EntryInRange(m, queue, clock, now, e);
  }

  /** The order of the end-blocker: by end time, then by proposal. */
  predicate InOrder(es: seq<Entry>)
  {
    forall i, j :: 0 <= i < j < |es| ==> es[i].time < es[j].time || (es[i].time == es[j].time && es[i].id < es[j].id)
  }

  /** The proposals of exactly the due entries, each once, in order. */
  ghost predicate Enumerates(ids: seq<nat>, es: seq<Entry>, entries: set<Entry>, now: int)
  {
    && |es| == |ids| && (forall i :: 0 <= i < |ids| ==> es[i].id == ids[i])
    && InOrder(es)
    && (forall e :: e in es <==> e in entries && e.time <= now)
  }

  ghost predicate YieldsDue(ids: seq<nat>, entries: set<Entry>, now: int)
  {
    exists es :: Enumerates(ids, es, entries, now)
  }

  /** The iterator over the due part of a queue yields exactly the proposals whose time has come,
      each once, in the order of time and number, whatever the loop over it writes and deletes in
      the meantime, the queue's own entries included. */
  method DueProposals(store: KVStore, queue: Bytes, clock: Clock, c: Codec<nat>, now: int, batches: seq<seq<Op>>,
                      ghost entries: set<Entry>)
    returns (ids: seq<nat>, used: nat)
    requires store.Shape() && store.Coherent() && Faithful(c)
    requires Civil(clock) && During(clock, now) && Queues(store.view, queue, entries, clock, c)
    requires forall b :: b in batches ==> AllFlat(b)
    modifies store.Repr`cache, store.Touched()
    ensures store.Coherent() && YieldsDue(ids, entries, now)
    ensures used == if |batches| <= |ids| then |batches| else |ids|
    ensures store.view == Effect(Flatten(batches[..used]), old(store.view))
  {
    QueueTimeIsLong(queue, clock.civil(now));
    var end := PrefixEndBytes(Some(QueueTime(queue, clock.civil(now))));
    ghost var m := store.view;
    var seen;
    seen, used := IterateWhileWriting(store, Some(queue), end.value, true, batches);
    ids := DecodeAll(seen, c);
    ghost var es := DueOfListing(m, queue, entries, clock, c, now, seen, ids);
    assert Enumerates(ids, es, entries, now);
  }

  lemma DueOfListing(m: Store, queue: Bytes, entries: set<Entry>, clock: Clock, c: Codec<nat>, now: int,
                     seen: seq<Pair<Bytes>>, ids: seq<nat>)
    returns (es: seq<Entry>)
    requires Faithful(c) && Civil(clock) && During(clock, now) && Queues(m, queue, entries, clock, c)
    requires Sorted(true, seen) && Dict(seen) == DueOf(m, queue, clock, now)
    requires |ids| == |seen| && forall i :: 0 <= i < |seen| ==> ids[i] == c.decode(seen[i].value)
    ensures Enumerates(ids, es, entries, now)
  {
    forall i | 0 <= i < |seen|
      ensures HasEntry(entries, now, queue, clock, seen[i].key)
    {
      DictAt(seen, i);
      var e := RangeHoldsDue(m, queue, entries, clock, c, now, seen[i].key);
      assert Behind(entries, now, queue, clock, seen[i].key, e);
    }
    es := seq(|seen|, i requires 0 <= i < |seen| => EntryAt(entries, now, queue, clock, seen[i].key));
    IdsOfEntries(queue, clock, entries, now, m, c, seen, es);
    DueInOrder(queue, clock, seen, es);
    DueAll(m, queue, entries, clock, c, now, seen, es);
  }

  /** A due entry and its key. */
  predicate Behind(entries: set<Entry>, now: int, queue: Bytes, clock: Clock, k: Bytes, e: Entry)
  {
    e in entries && e.time <= now && k == EntryKey(queue, clock, e)
  }

  ghost predicate HasEntry(entries: set<Entry>, now: int, queue: Bytes, clock: Clock, k: Bytes)
  {
    exists e :: Behind(entries, now, queue, clock, k, e)
  }

  ghost predicate Matches(queue: Bytes, clock: Clock, entries: set<Entry>, now: int,
                          seen: seq<Pair<Bytes>>, es: seq<Entry>)
    requires |es| == |seen|
  {
    forall i :: 0 <= i < |es| ==> Behind(entries, now, queue, clock, seen[i].key, es[i])
  }

  ghost function EntryAt(entries: set<Entry>, now: int, queue: Bytes, clock: Clock, k: Bytes): (e: Entry)
    requires HasEntry(entries, now, queue, clock, k)
    ensures Behind(entries, now, queue, clock, k, e)
  {
    var e :| Behind(entries, now, queue, clock, k, e);
    e
  }

  lemma IdsOfEntries(queue: Bytes, clock: Clock, entries: set<Entry>, now: int, m: Store, c: Codec<nat>,
                     seen: seq<Pair<Bytes>>, es: seq<Entry>)
    requires Faithful(c) && Queues(m, queue, entries, clock, c) && Sorted(true, seen)
    requires Dict(seen) == DueOf(m, queue, clock, now)
    requires |es| == |seen| && Matches(queue, clock, entries, now, seen, es)
    ensures forall i :: 0 <= i < |seen| ==> c.decode(seen[i].value) == es[i].id
  {
    forall i | 0 <= i < |seen|
      ensures c.decode(seen[i].value) == es[i].id
    {
      DictAt(seen, i);
      assert Behind(entries, now, queue, clock, seen[i].key, es[i]);
      assert seen[i].value == m[EntryKey(queue, clock, es[i])];
    }
  }

  lemma QueueTimeIsLong(queue: Bytes, t: Time)
    ensures QueueTime(queue, t) != []
  {
  }

  lemma DueInOrder(queue: Bytes, clock: Clock, seen: seq<Pair<Bytes>>, es: seq<Entry>)
    requires Civil(clock) && Sorted(true, seen) && |es| == |seen|
    requires forall i :: 0 <= i < |es| ==> Proper(clock, es[i]) && seen[i].key == EntryKey(queue, clock, es[i])
    ensures InOrder(es)
  {
    forall i, j | 0 <= i < j < |es|
      ensures es[i].time < es[j].time || (es[i].time == es[j].time && es[i].id < es[j].id)
    {
      assert Less(seen[i].key, seen[j].key);
      KeysInOrder(queue, clock, es[i], es[j]);
    }
  }

  lemma DueAll(m: Store, queue: Bytes, entries: set<Entry>, clock: Clock, c: Codec<nat>, now: int,
               seen: seq<Pair<Bytes>>, es: seq<Entry>)
    requires Civil(clock) && During(clock, now) && Queues(m, queue, entries, clock, c)
    requires Dict(seen) == DueOf(m, queue, clock, now)
    requires |es| == |seen| && Matches(queue, clock, entries, now, seen, es)
    ensures forall e :: e in es <==> e in entries && e.time <= now
  {
    forall e | e in entries && e.time <= now
      ensures e in es
    {
      DueIsListed(m, queue, entries, clock, c, now, seen, es, e);
    }
  }

  lemma DueIsListed(m: Store, queue: Bytes, entries: set<Entry>, clock: Clock, c: Codec<nat>, now: int,
                    seen: seq<Pair<Bytes>>, es: seq<Entry>, e: Entry)
    requires Civil(clock) && During(clock, now) && Queues(m, queue, entries, clock, c)
    requires Dict(seen) == DueOf(m, queue, clock, now)
    requires |es| == |seen| && Matches(queue, clock, entries, now, seen, es)
    requires e in entries && e.time <= now
    ensures e in es
  {
    EntryInRange(m, queue, clock, now, e);
    DictKeys(seen, EntryKey(queue, clock, e));
    var i :| 0 <= i < |seen| && seen[i].key == EntryKey(queue, clock, e);
    KeysEqual(queue, clock, es[i], e);
  }

  lemma KeysInOrder(queue: Bytes, clock: Clock, e: Entry, f: Entry)
    requires Civil(clock) && Proper(clock, e) && Proper(clock, f)
    requires Less(EntryKey(queue, clock, e), EntryKey(queue, clock, f))
    ensures e.time < f.time || (e.time == f.time && e.id < f.id)
  {
    QueueKeyOrder(queue, clock.civil(e.time), e.id, clock.civil(f.time), f.id);
    SameInstant(clock, e.time, f.time);
  }

  lemma KeysEqual(queue: Bytes, clock: Clock, e: Entry, f: Entry)
    requires Civil(clock) && Proper(clock, e) && Proper(clock, f)
    requires EntryKey(queue, clock, e) == EntryKey(queue, clock, f)
    ensures e == f
  {
    QueueKeyOrder(queue, clock.civil(e.time), e.id, clock.civil(f.time), f.id);
    SameInstant(clock, e.time, f.time);
  }

  lemma SameInstant(clock: Clock, t: int, u: int)
    requires Civil(clock) && During(clock, t) && During(clock, u)
    ensures clock.civil(t) == clock.civil(u) <==> t == u
  {
    assert Earlier(clock.civil(t), clock.civil(u)) <==> t < u;
    assert Earlier(clock.civil(u), clock.civil(t)) <==> u < t;
    assert Earlier(clock.civil(t), clock.civil(t)) <==> t < t;
  }
}
