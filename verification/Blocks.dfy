/** The block cycle, on plain maps: what each ABCI call does to the application's three states. */
module Blocks {
  import opened Bytes
  import opened MultiStores
  import opened Gas
  import opened TxSpec
  import opened Handlers
  import opened Transactions
  import opened TxReports

  /** The states that the application keeps, as plain maps: the committed one, the one that
      CheckTx works on and the one of the block under way. */
  datatype AppState = AppState(committed: Stores, check: Stores, deliver: Option<Stores>, blockGas: Meter)

  datatype Event =
    | BeginBlock(maxGas: nat)
    | Hook(blocker: Program)
    | CheckTx(tx: Tx, start: Meter)
    | SimulateTx(tx: Tx, start: Meter)
    | DeliverTx(tx: Tx, start: Meter)
    | Commit

  /** Deliver, the block hooks and Commit happen between BeginBlock and Commit only. */
  predicate Legal(e: Event, inBlock: bool)
  {
    match e
    case BeginBlock(_) => !inBlock
    case Hook(_) => inBlock
    case DeliverTx(_, _) => inBlock
    case Commit => inBlock
    case _ => true
  }

  function BlockMeter(maxGas: nat): Meter
  {
    if maxGas > 0 then Meter(0, true, maxGas) else INFINITE
  }

  ghost function Next(e: Event, s: AppState): AppState
    requires Legal(e, s.deliver.Some?)
  {
    match e
    case BeginBlock(maxGas) => s.(deliver := Some(s.committed), blockGas := BlockMeter(maxGas))
    case Hook(blocker) => s.(deliver := Some(Exec(blocker, [], s.deliver.value, INFINITE).0))
    case CheckTx(tx, start) => s.(check := TxEffect(Check, tx, start, s.check, s.blockGas).state)
    case SimulateTx(_, _) => s
    case DeliverTx(tx, start) =>
      var end := TxEffect(Deliver, tx, start, s.deliver.value, s.blockGas);
      s.(deliver := Some(end.state), blockGas := end.blockGas)
    case Commit => s.(committed := s.deliver.value, check := s.deliver.value, deliver := None)
  }

  /** What the caller gets back. */
  ghost function Report(e: Event, s: AppState): Option<Result>
    requires Legal(e, s.deliver.Some?)
  {
    match e
    case CheckTx(tx, start) => Some(TxEffect(Check, tx, start, s.check, s.blockGas).result)
    case SimulateTx(tx, start) => Some(TxEffect(Simulate, tx, start, s.check, s.blockGas).result)
    case DeliverTx(tx, start) => Some(TxEffect(Deliver, tx, start, s.deliver.value, s.blockGas).result)
    case _ => None
  }

  ghost predicate EventOk(e: Event)
  {
    (e.CheckTx? || e.SimulateTx? || e.DeliverTx?) && e.tx.preprocess.Some? ==> ReadOnly(e.tx.preprocess.value)
  }

  ghost predicate LegalRun(events: seq<Event>, inBlock: bool)
  {
    events == [] ||
    (Legal(events[0], inBlock)
     && LegalRun(events[1..], if events[0].BeginBlock? then true else if events[0].Commit? then false else inBlock))
  }

  ghost function Run(events: seq<Event>, s: AppState): AppState
    requires LegalRun(events, s.deliver.Some?)
  {
    if events == [] then s else Run(events[1..], Next(events[0], s))
  }

  ghost function Reports(events: seq<Event>, s: AppState): seq<Option<Result>>
    requires LegalRun(events, s.deliver.Some?)
  {
    if events == [] then [] else [Report(events[0], s)] + Reports(events[1..], Next(events[0], s))
  }

  /** A transaction's call works on its own state, in its own mode. */
  lemma CallsDo(e: Event, s: AppState)
    requires Legal(e, s.deliver.Some?)
    ensures e.CheckTx? ==>
      var end := TxOutcome(Check, e.tx, e.start, s.check, s.blockGas);
      Next(e, s) == s.(check := end.state) && Report(e, s) == Some(end.result)
    ensures e.SimulateTx? ==>
      Next(e, s) == s && Report(e, s) == Some(TxOutcome(Simulate, e.tx, e.start, s.check, s.blockGas).result)
    ensures e.DeliverTx? ==>
      var end := TxOutcome(Deliver, e.tx, e.start, s.deliver.value, s.blockGas);
      Next(e, s) == s.(deliver := Some(end.state), blockGas := end.blockGas) && Report(e, s) == Some(end.result)
  {
    match e
    case CheckTx(tx, start) => TxIs(Check, tx, start, s.check, s.blockGas);
    case SimulateTx(tx, start) => TxIs(Simulate, tx, start, s.check, s.blockGas);
    case DeliverTx(tx, start) => TxIs(Deliver, tx, start, s.deliver.value, s.blockGas);
    case _ =>
  }

  predicate Consensus(e: Event)
  {
    !e.CheckTx? && !e.SimulateTx?
  }

  /** The events of a run that consensus orders. */
  ghost function ConsensusOnly(events: seq<Event>): seq<Event>
  {
    if events == [] then []
    else if Consensus(events[0]) then [events[0]] + ConsensusOnly(events[1..])
    else ConsensusOnly(events[1..])
  }

  /** Whatever CheckTx and simulations happen in between, and in whatever order, the committed
      state, the state of the block and the block's gas depend on the consensus events alone. */
  lemma {:induction false} ChecksDoNotInterfere(events: seq<Event>, s: AppState, t: AppState)
    requires LegalRun(events, s.deliver.Some?)
    requires t.committed == s.committed && t.deliver == s.deliver && t.blockGas == s.blockGas
    ensures LegalRun(ConsensusOnly(events), t.deliver.Some?)
    ensures var a, b := Run(events, s), Run(ConsensusOnly(events), t);
            a.committed == b.committed && a.deliver == b.deliver && a.blockGas == b.blockGas
  {
    if events != [] {
      if Consensus(events[0]) {
        ChecksDoNotInterfere(events[1..], Next(events[0], s), Next(events[0], t));
        assert ConsensusOnly(events)[1..] == ConsensusOnly(events[1..]);
      } else {
        ChecksDoNotInterfere(events[1..], Next(events[0], s), t);
      }
    }
  }
}
