/** Message, ante and refund handlers as programs over a multistore. A handler is any function from
    the answers it has had so far to the next thing it does, so it may read, branch on what it
    read, write, scan a range, consume gas, return or panic, in any of the stores. */
module Handlers {
  import opened Bytes
  import opened Listings
  import opened KVStores
  import opened MultiStores
  import opened Gas

  datatype Action =
    | Read(store: nat, key: Bytes)
    | Put(store: nat, key: Bytes, value: Bytes)
    | Remove(store: nat, key: Bytes)
    | Scan(store: nat, start: Option<Bytes>, end: Option<Bytes>, ascending: bool)
    | Burn(amount: nat)
    | Finish(verdict: Verdict)
    | Panic

  datatype Answer = Got(value: Option<Bytes>) | Listed(entries: seq<Pair<Bytes>>) | Ack

  /** What a handler returns: a code, and for ante handlers the gas wanted, whether to abort,
      whether a new context is returned and what it carries. */
  datatype Verdict = Verdict(code: nat, gasWanted: nat, abort: bool, newCtx: bool, info: Option<Bytes>)

  /** `steps` bounds the number of actions; a handler still running then is cut off by a panic. */
  datatype Program = Program(next: seq<Answer> -> Action, steps: nat)

  datatype Halt = Finished(verdict: Verdict) | RanOutOfGas | Crashed

  predicate OnStore(action: Action)
  {
    action.Read? || action.Put? || action.Remove? || action.Scan?
  }

  ghost function ActEffect(action: Action, m: Store): (Store, Answer)
    requires OnStore(action)
  {
    match action
    case Read(_, key) => (m, Got(Lookup(m, key)))
    case Put(_, key, value) => (m[key := value], Ack)
    case Remove(_, key) => (m - {key}, Ack)
    case Scan(_, start, end, ascending) => (m, Listed(Listing(ascending, InRange(m, start, end))))
  }

  /** What a program does to plain maps; the store of an unknown key panics. */
  ghost function Exec(p: Program, history: seq<Answer>, m: Stores, meter: Meter): (Stores, Meter, Halt)
    decreases p.steps
  {
    if p.steps == 0 then (m, meter, Crashed)
    else
      var rest, action := p.(steps := p.steps - 1), p.next(history);
      match action
      case Burn(amount) =>
        var (meter', charge) := Consume(meter, amount);
        if charge.OutOfGas? then (m, meter', RanOutOfGas)
        else if charge.Overflow? then (m, meter', Crashed)
        else Exec(rest, history + [Ack], m, meter')
      case Finish(verdict) => (m, meter, Finished(verdict))
      case Panic => (m, meter, Crashed)
      case _ =>
        if action.store >= |m| then (m, meter, Crashed)
        else
          var (after, answer) := ActEffect(action, m[action.store]);
          Exec(rest, history + [answer], m[action.store := after], meter)
  }

  /** A multistore whose stores are caches. */
  ghost predicate Usable(ms: seq<KVStore>)
    reads AllOf(ms)
  {
    Separate(ms) && AllCoherent(ms) && forall i :: 0 <= i < |ms| ==> ms[i].kind.Cached?
  }

  /** The same program on a real multistore with its caches: it sees and does the same. */
  method Execute(p: Program, history: seq<Answer>, ms: seq<KVStore>, meter: Meter) returns (after: Meter, halt: Halt)
    requires Usable(ms)
    modifies AllOf(ms)`cache, Own(ms)
    ensures Usable(ms)
    ensures (Views(ms), after, halt) == Exec(p, history, old(Views(ms)), meter)
    decreases p.steps
  {
    if p.steps == 0 {
      return meter, Crashed;
    }
    var rest := p.(steps := p.steps - 1);
    var action := p.next(history);
    if action.Finish? {
      return meter, Finished(action.verdict);
    } else if action.Panic? {
      return meter, Crashed;
    } else if action.Burn? {
      var (meter', charge) := Consume(meter, action.amount);
      if charge.OutOfGas? {
        return meter', RanOutOfGas;
      } else if charge.Overflow? {
        return meter', Crashed;
      }
      after, halt := Execute(rest, history + [Ack], ms, meter');
    } else if action.store >= |ms| {
      return meter, Crashed;
    } else {
      var answer := ActOn(action, ms);
      after, halt := Execute(rest, history + [answer], ms, meter);
    }
  }

  /** One store changes, and the others do not. */
  method ActOn(action: Action, ms: seq<KVStore>) returns (answer: Answer)
    requires Usable(ms) && OnStore(action) && action.store < |ms|
    modifies AllOf(ms)`cache, Own(ms)
    ensures Usable(ms)
    ensures var (after, seen) := ActEffect(action, old(Views(ms))[action.store]);
            answer == seen && Views(ms) == old(Views(ms))[action.store := after]
  {
    answer := Act(action, ms[action.store]);
  }

  method Act(action: Action, store: KVStore) returns (answer: Answer)
    requires store.Shape() && store.Coherent() && OnStore(action)
    modifies store.Repr`cache, store.Touched()
    ensures store.Coherent()
    ensures (store.view, answer) == ActEffect(action, old(store.view))
    ensures action.Read? || action.Scan? ==> store.view == old(store.view)
    ensures action.Read? ==> answer == Got(if action.key in store.view then Some(store.view[action.key]) else None)
    ensures action.Put? ==> store.view == old(store.view)[action.key := action.value]
    ensures action.Remove? ==> store.view == old(store.view) - {action.key}
  {
    answer := Ack;
    if action.Read? {
      var value := store.Get(action.key);
      answer := Got(value);
    } else if action.Put? {
      store.Set(action.key, action.value);
    } else if action.Remove? {
      store.Delete(action.key);
    } else {
      var iter := store.Iterator(action.start, action.end, action.ascending);
      var entries := iter.Drain();
      answer := Listed(entries);
    }
  }

  /** The program never writes. */
  ghost predicate ReadOnly(p: Program)
  {
    forall history :: !p.next(history).Put? && !p.next(history).Remove?
  }

  lemma {:induction false} ReadOnlyKeepsStores(p: Program, history: seq<Answer>, m: Stores, meter: Meter)
    requires ReadOnly(p)
    ensures Exec(p, history, m, meter).0 == m
    decreases p.steps
  {
    if p.steps > 0 {
      var rest, action := p.(steps := p.steps - 1), p.next(history);
      if action.Burn? {
        ReadOnlyKeepsStores(rest, history + [Ack], m, Consume(meter, action.amount).0);
      } else if OnStore(action) && action.store < |m| {
        var (after, answer) := ActEffect(action, m[action.store]);
        assert m[action.store := after] == m;
        ReadOnlyKeepsStores(rest, history + [answer], m, meter);
      }
    }
  }
}
