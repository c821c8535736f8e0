/** Handlers that keep a state of their own, and the store wrapper that charges gas for what a
    handler reads and writes. */
module Machines {
  import opened Bytes
  import opened Chain
  import opened Listings
  import opened KVStores
  import opened MultiStores
  import opened Gas
  import opened Handlers

  /** What a handler does in a state, and the state that the answer leads it to. */
  datatype Machine<!S> = Machine(act: S -> Action, step: (S, Answer) -> S)

  function StateAfter<S>(k: Machine<S>, s: S, answers: seq<Answer>): S
  {
    if answers == [] then s
    else k.step(StateAfter(k, s, answers[..|answers| - 1]), answers[|answers| - 1])
  }

  function Strategy<S>(k: Machine<S>, s: S): seq<Answer> -> Action
  {
    answers => k.act(StateAfter(k, s, answers))
  }

  /** The machine as a handler program. */
  function Compiled<S>(k: Machine<S>, s: S, steps: nat): Program
  {
    Program(Strategy(k, s), steps)
  }

  /** What a machine does to plain maps. */
  ghost function Go<S>(k: Machine<S>, s: S, steps: nat, m: Stores, meter: Meter): (Stores, Meter, Halt)
  {
    if steps == 0 then (m, meter, Crashed)
    else
      var action := k.act(s);
      match action
      case Burn(amount) =>
        var (meter', charge) := Consume(meter, amount);
        if charge.OutOfGas? then (m, meter', RanOutOfGas)
        else if charge.Overflow? then (m, meter', Crashed)
        else Go(k, k.step(s, Ack), steps - 1, m, meter')
      case Finish(verdict) => (m, meter, Finished(verdict))
      case Panic => (m, meter, Crashed)
      case _ =>
        if action.store >= |m| then (m, meter, Crashed)
        else
          var (after, answer) := ActEffect(action, m[action.store]);
          Go(k, k.step(s, answer), steps - 1, m[action.store := after], meter)
  }

  lemma {:induction false} CompiledGoes<S>(k: Machine<S>, s: S, history: seq<Answer>, steps: nat, m: Stores,
                                           meter: Meter)
    ensures Exec(Compiled(k, s, steps), history, m, meter) == Go(k, StateAfter(k, s, history), steps, m, meter)
    decreases steps
  {
    if steps > 0 {
      var action := k.act(StateAfter(k, s, history));
      if action.Burn? {
        assert (history + [Ack])[..|history|] == history;
        CompiledGoes(k, s, history + [Ack], steps - 1, m, Consume(meter, action.amount).0);
      } else if OnStore(action) && action.store < |m| {
        var (after, answer) := ActEffect(action, m[action.store]);
        assert (history + [answer])[..|history|] == history;
        CompiledGoes(k, s, history + [answer], steps - 1, m[action.store := after], meter);
      }
    }
  }

  /** The same with all the gas it needs: what it leaves, what it consumes, and how it ends. */
  ghost function Free<S>(k: Machine<S>, s: S, steps: nat, m: Stores): (Stores, nat, Halt)
  {
    if steps == 0 then (m, 0, Crashed)
    else
      var action := k.act(s);
      match action
      case Burn(amount) =>
        var (m', spent, halt) := Free(k, k.step(s, Ack), steps - 1, m);
        (m', amount + spent, halt)
      case Finish(verdict) => (m, 0, Finished(verdict))
      case Panic => (m, 0, Crashed)
      case _ =>
        if action.store >= |m| then (m, 0, Crashed)
        else
          var (after, answer) := ActEffect(action, m[action.store]);
          Free(k, k.step(s, answer), steps - 1, m[action.store := after])
  }

  /** A charge, a read and a write. */
  lemma {:induction false} BurnGoes<S>(k: Machine<S>, s: S, steps: nat, m: Stores)
    requires k.act(s).Burn? && steps > 0
    ensures var rest := Free(k, k.step(s, Ack), steps - 1, m);
            Free(k, s, steps, m) == (rest.0, k.act(s).amount + rest.1, rest.2)
  {
  }

  lemma {:induction false} ReadGoes<S>(k: Machine<S>, s: S, steps: nat, m: Stores)
    requires k.act(s).Read? && k.act(s).store < |m| && steps > 0
    ensures Free(k, s, steps, m) == Free(k, k.step(s, Got(Lookup(m[k.act(s).store], k.act(s).key))), steps - 1, m)
  {
    assert m[k.act(s).store := m[k.act(s).store]] == m;
  }

  lemma {:induction false} PutGoes<S>(k: Machine<S>, s: S, steps: nat, m: Stores)
    requires k.act(s).Put? && k.act(s).store < |m| && steps > 0
    ensures var a := k.act(s);
            Free(k, s, steps, m) == Free(k, k.step(s, Ack), steps - 1, m[a.store := m[a.store][a.key := a.value]])
  {
  }

  // ---- meters ----

  /** A meter that has not run out. */
  predicate WithinLimit(meter: Meter)
  {
    meter.consumed < UINT64_BOUND && (meter.limited ==> meter.consumed <= meter.limit)
  }

  function Spend(meter: Meter, amount: nat): Meter
  {
    meter.(consumed := meter.consumed + amount)
  }

  predicate HasRoom(meter: Meter, amount: nat)
  {
    WithinLimit(Spend(meter, amount))
  }

  /** Where a meter stands that ran out. */
  predicate RanOut(meter: Meter, after: Meter)
  {
    meter.limited && meter.limit < after.consumed < UINT64_BOUND && after == meter.(consumed := after.consumed)
  }

  /** A run does what it does with all the gas it needs exactly when it has it; otherwise it stops
      out of gas or, beyond a uint64, by a panic. */
  lemma {:induction false} GasDecides<S>(k: Machine<S>, s: S, steps: nat, m: Stores, meter: Meter)
    requires WithinLimit(meter)
    ensures var (m', spent, halt) := Free(k, s, steps, m);
            var end := Go(k, s, steps, m, meter);
            if HasRoom(meter, spent) then end == (m', Spend(meter, spent), halt)
            else !end.2.Finished? && (end.2.RanOutOfGas? ==> RanOut(meter, end.1))
    decreases steps
  {
    if steps > 0 {
      var action := k.act(s);
      if action.Burn? {
        var (meter', charge) := Consume(meter, action.amount);
        var spent := Free(k, k.step(s, Ack), steps - 1, m).1;
        assert Spend(Spend(meter, action.amount), spent) == Spend(meter, action.amount + spent);
        if charge.Charged? {
          GasDecides(k, k.step(s, Ack), steps - 1, m, meter');
        }
      } else if OnStore(action) && action.store < |m| {
        var (after, answer) := ActEffect(action, m[action.store]);
        GasDecides(k, k.step(s, answer), steps - 1, m[action.store := after], meter);
      }
    }
  }

  /** A machine without charges of its own needs no gas. */
  lemma {:induction false} NeedsNoGas<S>(k: Machine<S>, s: S, steps: nat, m: Stores)
    requires forall x :: !k.act(x).Burn?
    ensures Free(k, s, steps, m).1 == 0
    decreases steps
  {
    if steps > 0 {
      var action := k.act(s);
      if OnStore(action) && action.store < |m| {
        var (after, answer) := ActEffect(action, m[action.store]);
        NeedsNoGas(k, k.step(s, answer), steps - 1, m[action.store := after]);
      }
    }
  }

  // ---- machines that come to an end ----

  /** Whatever the answers are, a machine comes closer to its end with every one. */
  ghost predicate Ends<S(!new)>(k: Machine<S>, rank: S -> nat)
  {
    forall s, answer :: k.act(s).Finish? || k.act(s).Panic? || rank(k.step(s, answer)) < rank(s)
  }

  /** So the bound on its steps, if it is large enough, never stops it. */
  lemma {:induction false} EndsInTime<S(!new)>(k: Machine<S>, rank: S -> nat, s: S, steps: nat, more: nat, m: Stores,
                                               meter: Meter)
    requires Ends(k, rank) && rank(s) < steps <= more
    ensures Go(k, s, steps, m, meter) == Go(k, s, more, m, meter)
    decreases steps
  {
    var action := k.act(s);
    if action.Burn? {
      EndsInTime(k, rank, k.step(s, Ack), steps - 1, more - 1, m, Consume(meter, action.amount).0);
    } else if OnStore(action) && action.store < |m| {
      var (after, answer) := ActEffect(action, m[action.store]);
      EndsInTime(k, rank, k.step(s, answer), steps - 1, more - 1, m[action.store := after], meter);
    }
  }

  // ---- gas for reads and writes ----

  const READ_COST_FLAT := 10
  const READ_COST_PER_BYTE := 1
  const WRITE_COST_FLAT := 10
  const WRITE_COST_PER_BYTE := 10
  const DELETE_COST := 10
  const VALUE_COST_PER_BYTE := 1
  const ITER_NEXT_COST_FLAT := 15

  function FlatCost(action: Action): nat
  {
    match action
    case Read(_, _) => READ_COST_FLAT
    case Put(_, _, _) => WRITE_COST_FLAT
    case Remove(_, _) => DELETE_COST
    case _ => 0
  }

  function WriteCost(action: Action): nat
  {
    if action.Put? then WRITE_COST_PER_BYTE * |action.value| else 0
  }

  function EntryCost(entry: Pair<Bytes>): nat
  {
    VALUE_COST_PER_BYTE * |entry.value| + ITER_NEXT_COST_FLAT
  }

  /** Every step of an iterator is charged for the entry that it leaves. */
  function SeekCost(entries: seq<Pair<Bytes>>): nat
  {
    if entries == [] then 0 else EntryCost(entries[0]) + SeekCost(entries[1..])
  }

  /** Opening it is charged for the first entry too. */
  function ScanCost(entries: seq<Pair<Bytes>>): nat
  {
    if entries == [] then 0 else EntryCost(entries[0]) + SeekCost(entries)
  }

  function AnswerCost(answer: Answer): nat
  {
    match answer
    case Got(value) => if value.Some? then READ_COST_PER_BYTE * |value.value| else 0
    case Listed(entries) => ScanCost(entries)
    case Ack => 0
  }

  /** A machine over gas-charging stores, before, during and after one of its store actions. */
  datatype Metered<S> = Idle(s: S) | Opened(s: S) | Ready(s: S) | Answered(s: S, answer: Answer)

  function Charging<S>(k: Machine<S>): Machine<Metered<S>>
  {
    Machine((x: Metered<S>) => ChargingAct(k, x), (x: Metered<S>, answer: Answer) => ChargingStep(k, x, answer))
  }

  function ChargingAct<S>(k: Machine<S>, x: Metered<S>): Action
  {
    var action := k.act(x.s);
    match x
    case Idle(_) => if OnStore(action) then Burn(FlatCost(action)) else action
    case Opened(_) => Burn(WriteCost(action))
    case Ready(_) => action
    case Answered(_, answer) => Burn(AnswerCost(answer))
  }

  function ChargingStep<S>(k: Machine<S>, x: Metered<S>, answer: Answer): Metered<S>
  {
    match x
    case Idle(s) => if OnStore(k.act(s)) then Opened(s) else Idle(k.step(s, answer))
    case Opened(s) => Ready(s)
    case Ready(s) => Answered(s, answer)
    case Answered(s, got) => Idle(k.step(s, got))
  }

  /** What a store action costs on some maps. */
  ghost function ActionCost(action: Action, m: Stores): nat
    requires OnStore(action) && action.store < |m|
  {
    FlatCost(action) + WriteCost(action) + AnswerCost(ActEffect(action, m[action.store]).1)
  }

  /** One store action with its three charges. */
  lemma {:induction false} ChargedAction<S>(k: Machine<S>, s: S, steps: nat, m: Stores)
    requires OnStore(k.act(s)) && k.act(s).store < |m| && steps >= 4
    ensures var (after, answer) := ActEffect(k.act(s), m[k.act(s).store]);
            var rest := Free(Charging(k), Idle(k.step(s, answer)), steps - 4, m[k.act(s).store := after]);
            Free(Charging(k), Idle(s), steps, m) == (rest.0, ActionCost(k.act(s), m) + rest.1, rest.2)
  {
    var c, action := Charging(k), k.act(s);
    var (after, answer) := ActEffect(action, m[action.store]);
    var m' := m[action.store := after];
    var rest := Free(c, Idle(k.step(s, answer)), steps - 4, m');
    assert Free(c, Answered(s, answer), steps - 3, m') == (rest.0, AnswerCost(answer) + rest.1, rest.2);
    assert Free(c, Ready(s), steps - 2, m) == Free(c, Answered(s, answer), steps - 3, m');
    assert Free(c, Opened(s), steps - 1, m)
        == (rest.0, WriteCost(action) + AnswerCost(answer) + rest.1, rest.2);
  }

  /** A read costs ten, and one for every byte that it finds. */
  lemma {:induction false} ReadCharged<S>(k: Machine<S>, s: S, steps: nat, m: Stores, found: Option<Bytes>)
    requires k.act(s).Read? && k.act(s).store < |m| && steps >= 4
    requires found == Lookup(m[k.act(s).store], k.act(s).key)
    ensures var rest := Free(Charging(k), Idle(k.step(s, Got(found))), steps - 4, m);
            Free(Charging(k), Idle(s), steps, m) ==
            (rest.0, 10 + (if found.Some? then |found.value| else 0) + rest.1, rest.2)
  {
    assert m[k.act(s).store := m[k.act(s).store]] == m;
    ChargedAction(k, s, steps, m);
  }

  /** A write costs ten, and ten for every byte. */
  lemma {:induction false} PutCharged<S>(k: Machine<S>, s: S, steps: nat, m: Stores, store: nat, key: Bytes,
                                         value: Bytes)
    requires k.act(s) == Put(store, key, value) && store < |m| && steps >= 4
    ensures var rest := Free(Charging(k), Idle(k.step(s, Ack)), steps - 4, m[store := m[store][key := value]]);
            Free(Charging(k), Idle(s), steps, m) == (rest.0, 10 + 10 * |value| + rest.1, rest.2)
  {
    ChargedAction(k, s, steps, m);
  }

  /** A deletion costs ten. */
  lemma {:induction false} RemoveCharged<S>(k: Machine<S>, s: S, steps: nat, m: Stores, store: nat, key: Bytes)
    requires k.act(s) == Remove(store, key) && store < |m| && steps >= 4
    ensures var rest := Free(Charging(k), Idle(k.step(s, Ack)), steps - 4, m[store := m[store] - {key}]);
            Free(Charging(k), Idle(s), steps, m) == (rest.0, 10 + rest.1, rest.2)
  {
    ChargedAction(k, s, steps, m);
  }

  function ValueBytes(entries: seq<Pair<Bytes>>): nat
  {
    if entries == [] then 0 else |entries[0].value| + ValueBytes(entries[1..])
  }

  lemma {:induction false} SeekCostIs(entries: seq<Pair<Bytes>>)
    ensures SeekCost(entries) == 15 * |entries| + ValueBytes(entries)
  {
    if entries != [] {
      SeekCostIs(entries[1..]);
    }
  }

  /** Walking a range to its end costs fifteen and one for every byte of the value for every entry, and
      the same again for the first. */
  lemma {:induction false} ScanCharged<S>(k: Machine<S>, s: S, steps: nat, m: Stores, found: seq<Pair<Bytes>>)
    requires k.act(s).Scan? && k.act(s).store < |m| && steps >= 4
    requires found == Listing(k.act(s).ascending, InRange(m[k.act(s).store], k.act(s).start, k.act(s).end))
    ensures var rest := Free(Charging(k), Idle(k.step(s, Listed(found))), steps - 4, m);
            var first := if found == [] then 0 else 15 + |found[0].value|;
            Free(Charging(k), Idle(s), steps, m) == (rest.0, first + 15 * |found| + ValueBytes(found) + rest.1, rest.2)
  {
    assert m[k.act(s).store := m[k.act(s).store]] == m;
    SeekCostIs(found);
    ChargedAction(k, s, steps, m);
  }

  /** Charging for store actions changes nothing but the gas that is needed. */
  lemma {:induction false} ChargingIsFaithful<S(!new)>(k: Machine<S>, rank: S -> nat, s: S, steps: nat, charged: nat,
                                                       m: Stores)
    requires Ends(k, rank) && rank(s) < steps && 4 * rank(s) + 3 < charged
    ensures var free, end := Free(k, s, steps, m), Free(Charging(k), Idle(s), charged, m);
            end.0 == free.0 && end.2 == free.2 && end.1 >= free.1
    decreases steps
  {
    var action := k.act(s);
    if action.Burn? {
      ChargingIsFaithful(k, rank, k.step(s, Ack), steps - 1, charged - 1, m);
    } else if OnStore(action) && action.store < |m| {
      var (after, answer) := ActEffect(action, m[action.store]);
      assert rank(k.step(s, answer)) < rank(s);
      ChargedAction(k, s, charged, m);
      ChargingIsFaithful(k, rank, k.step(s, answer), steps - 1, charged - 4, m[action.store := after]);
    } else if OnStore(action) {
      assert Free(Charging(k), Ready(s), charged - 2, m) == (m, 0, Crashed);
      assert Free(Charging(k), Opened(s), charged - 1, m) == (m, WriteCost(action), Crashed);
    }
  }

  function ChargingRank<S>(k: Machine<S>, rank: S -> nat, x: Metered<S>): nat
  {
    match x
    case Idle(s) => 4 * rank(s) + 3
    case Opened(s) => 4 * rank(s) + 2
    case Ready(s) => 4 * rank(s) + 1
    case Answered(s, answer) => 4 * rank(k.step(s, answer)) + 4
  }

  /** The charges do not keep a machine from its end. */
  lemma ChargingEnds<S(!new)>(k: Machine<S>, rank: S -> nat)
    requires Ends(k, rank)
    ensures Ends(Charging(k), x => ChargingRank(k, rank, x))
  {
    var c, after := Charging(k), x => ChargingRank(k, rank, x);
    forall x, answer
      ensures c.act(x).Finish? || c.act(x).Panic? || after(c.step(x, answer)) < after(x)
    {
      var s := x.s;
      assert k.act(s).Finish? || k.act(s).Panic? || rank(k.step(s, answer)) < rank(s);
    }
  }
}
