/** What a transaction does to a plain map that holds the whole state: its stages, and what of
    them stays. */
module Transactions {
  import opened Bytes
  import opened Chain
  import opened MultiStores
  import opened Gas
  import opened TxSpec
  import opened Handlers

  /** An ante handler. One with a guard installs its own gas meter and turns running out of gas
      into an abort that reports the gas wanted; one without uses the meter of the context. */
  datatype Guard = Guard(meter: Meter, wanted: nat)
  datatype AnteHandler = AnteHandler(guard: Option<Guard>, program: Program)

  datatype Message = Unrouted | Routed(handler: Program)

  /** A transaction with the handlers that the current protocol has for it. `rejected` is the
      code with which the stateless checks turn it down, if they do. */
  datatype Tx = Tx(size: nat, rejected: Option<nat>, preprocess: Option<Program>,
                   antes: seq<AnteHandler>, msgs: seq<Message>,
                   refund: (Option<Bytes>, Result) -> Option<Program>)

  // ---- the stages on plain maps ----

  ghost function PreStage(tx: Tx, m: Stores, start: Meter): PreEnd
  {
    if tx.preprocess.None? then PreEnd(start, PreOk)
    else
      var (_, meter, halt) := Exec(tx.preprocess.value, [], m, start);
      PreEnd(meter, PreVerdictOf(halt))
  }

  function PreVerdictOf(halt: Halt): PreVerdict
  {
    match halt
    case Finished(verdict) => if verdict.code == CODE_OK then PreOk else PreFails(verdict.code)
    case RanOutOfGas => PrePanics(CODE_OUT_OF_GAS)
    case Crashed => PrePanics(CODE_INTERNAL)
  }

  function MeterFor(h: AnteHandler, ctx: Ctx): Meter
  {
    if h.guard.Some? then h.guard.value.meter else ctx.meter
  }

  /** What one ante handler leads to, apart from the state. */
  function AnteVerdictOf(h: AnteHandler, ctx: Ctx, meter: Meter, halt: Halt, wanted: nat): AnteEnd<()>
  {
    var shared := if h.guard.None? then ctx.(meter := meter) else ctx;
    match halt
    case Crashed => AntePanicked(shared, CODE_INTERNAL, wanted)
    case RanOutOfGas =>
      if h.guard.Some? then
        AnteAborted(ctx.(meter := meter), Result(CODE_OUT_OF_GAS, h.guard.value.wanted, meter.consumed), wanted)
      else AntePanicked(shared, CODE_OUT_OF_GAS, wanted)
    case Finished(v) =>
      var ctx' := if v.newCtx then Ctx(meter, if v.info.Some? then v.info else ctx.info) else shared;
      if v.abort then AnteAborted(ctx', Result(v.code, v.gasWanted, 0), wanted)
      else AntePassed((), ctx', (wanted + v.gasWanted) % UINT64_BOUND)
  }

  ghost function WithState(end: AnteEnd<()>, m: Stores): AnteEnd<Stores>
  {
    match end
    case AntePassed(_, ctx, wanted) => AntePassed(m, ctx, wanted)
    case AnteAborted(ctx, result, wanted) => AnteAborted(ctx, result, wanted)
    case AntePanicked(ctx, code, wanted) => AntePanicked(ctx, code, wanted)
  }

  ghost function AnteLoop(antes: seq<AnteHandler>, m: Stores, ctx: Ctx, wanted: nat): AnteEnd<Stores>
  {
    if antes == [] then AntePassed(m, ctx, wanted)
    else
      var (m', meter, halt) := Exec(antes[0].program, [], m, MeterFor(antes[0], ctx));
      var end := AnteVerdictOf(antes[0], ctx, meter, halt, wanted);
      if end.AntePassed? then AnteLoop(antes[1..], m', end.ctx, end.wanted) else WithState(end, m')
  }

  function ChargeTxSize(end: AnteEnd<()>, size: nat): AnteEnd<()>
  {
    if !end.AntePassed? then end
    else
      var (meter, charge) := Consume(end.ctx.meter, BLOCK_STORE_COST_PER_BYTE * size);
      if charge.Charged? then AntePassed((), end.ctx.(meter := meter), end.wanted)
      else AntePanicked(end.ctx.(meter := meter), GasCode(charge), end.wanted)
  }

  ghost function Forget(end: AnteEnd<Stores>): AnteEnd<()>
  {
    match end
    case AntePassed(_, ctx, wanted) => AntePassed((), ctx, wanted)
    case AnteAborted(ctx, result, wanted) => AnteAborted(ctx, result, wanted)
    case AntePanicked(ctx, code, wanted) => AntePanicked(ctx, code, wanted)
  }

  ghost function AnteStage(tx: Tx, m: Stores, ctx: Ctx): AnteEnd<Stores>
  {
    var end := AnteLoop(tx.antes, m, ctx, 0);
    if tx.antes == [] then end
    else WithState(ChargeTxSize(Forget(end), tx.size), if end.AntePassed? then end.state else m)
  }

  ghost function MsgLoop(msgs: seq<Message>, m: Stores, meter: Meter): MsgsEnd<Stores>
  {
    if msgs == [] then MsgsReturned(m, meter, CODE_OK)
    else if msgs[0].Unrouted? then MsgsReturned(m, meter, CODE_UNKNOWN_REQUEST)
    else
      var (m', meter', halt) := Exec(msgs[0].handler, [], m, meter);
      match halt
      case Crashed => MsgsPanicked(meter', CODE_INTERNAL)
      case RanOutOfGas => MsgsPanicked(meter', CODE_OUT_OF_GAS)
      case Finished(v) =>
        if v.code == CODE_OK then MsgLoop(msgs[1..], m', meter') else MsgsReturned(m', meter', v.code)
  }

  function RefundVerdictOf(halt: Halt): RefundEnd<()>
  {
    match halt
    case Finished(v) => if v.code == CODE_OK then Refunded(()) else RefundFailed
    case RanOutOfGas => RefundPanicked(CODE_OUT_OF_GAS)
    case Crashed => RefundPanicked(CODE_INTERNAL)
  }

  ghost function RefundStage(tx: Tx, m: Stores, ctx: Ctx, result: Result): RefundEnd<Stores>
  {
    var program := tx.refund(ctx.info, result);
    if program.None? then Refunded(m)
    else
      var (m', _, halt) := Exec(program.value, [], m, INFINITE);
      match RefundVerdictOf(halt)
      case Refunded(_) => Refunded(m')
      case RefundFailed => RefundFailed
      case RefundPanicked(code) => RefundPanicked(code)
  }

  ghost function BodyEffect(mode: Mode, tx: Tx, start: Meter, m: Stores): Body<Stores>
  {
    RunBody(mode, m, x => PreStage(tx, x, start), (x, c) => AnteStage(tx, x, c),
            (x, c: Ctx) => MsgLoop(tx.msgs, x, c.meter))
  }

  /** What a transaction does to a plain map that holds the whole state. */
  ghost function TxEffect(mode: Mode, tx: Tx, start: Meter, m: Stores, blockGas: Meter): TxEnd<Stores>
  {
    RunTx(mode, m, blockGas, tx.rejected, x => PreStage(tx, x, start), (x, c) => AnteStage(tx, x, c),
          (x, c: Ctx) => MsgLoop(tx.msgs, x, c.meter), (x, c, r) => RefundStage(tx, x, c, r))
  }

  lemma TxEffectSettles(mode: Mode, tx: Tx, start: Meter, m: Stores, blockGas: Meter)
    requires !(mode.Deliver? && IsOutOfGas(blockGas)) && tx.rejected.None?
    ensures TxEffect(mode, tx, start, m, blockGas)
         == Settle(mode, BodyEffect(mode, tx, start, m), blockGas, (x, c, r) => RefundStage(tx, x, c, r))
  {
  }

  // ---- what of a delivered transaction stays ----

  /** Every message has a route, and its handler, run after those before it, succeeds. */
  ghost predicate AllOk(msgs: seq<Message>, m: Stores, meter: Meter)
  {
    msgs == [] ||
    (msgs[0].Routed? &&
     var (m', meter', halt) := Exec(msgs[0].handler, [], m, meter);
     halt.Finished? && halt.verdict.code == CODE_OK && AllOk(msgs[1..], m', meter'))
  }

  /** What the handlers of the messages leave, run one after the other. */
  ghost function Work(msgs: seq<Message>, m: Stores, meter: Meter): (Stores, Meter)
  {
    if msgs == [] || msgs[0].Unrouted? then (m, meter)
    else
      var (m', meter', _) := Exec(msgs[0].handler, [], m, meter);
      Work(msgs[1..], m', meter')
  }

  lemma {:induction false} MsgLoopIs(msgs: seq<Message>, m: Stores, meter: Meter)
    ensures MsgLoop(msgs, m, meter).MsgsReturned? && MsgLoop(msgs, m, meter).code == CODE_OK <==> AllOk(msgs, m, meter)
    ensures AllOk(msgs, m, meter) ==>
      MsgLoop(msgs, m, meter) == MsgsReturned(Work(msgs, m, meter).0, Work(msgs, m, meter).1, CODE_OK)
    ensures MsgLoop(msgs, m, meter).MsgsPanicked? ==> MsgLoop(msgs, m, meter).code != CODE_OK
  {
    if msgs != [] && msgs[0].Routed? {
      var (m', meter', halt) := Exec(msgs[0].handler, [], m, meter);
      MsgLoopIs(msgs[1..], m', meter');
    }
  }

  /** Whether the transaction gets as far as its fee preprocessing. */
  predicate Admitted(tx: Tx, blockGas: Meter)
  {
    !IsOutOfGas(blockGas) && tx.rejected.None?
  }

  ghost function AnteEndOf(tx: Tx, start: Meter, m: Stores): AnteEnd<Stores>
  {
    AnteStage(tx, m, Ctx(PreStage(tx, m, start).meter, None))
  }

  ghost function TxLanding(tx: Tx, start: Meter, m: Stores, blockGas: Meter): Landing
  {
    var ante := AnteEndOf(tx, start, m);
    if !Admitted(tx, blockGas) || !PreStage(tx, m, start).verdict.PreOk? || !ante.AntePassed? then Nothing
    else if AllOk(tx.msgs, ante.state, ante.ctx.meter) then AnteAndMessages
    else AnteOnly
  }

  /** What stays before the refund. */
  ghost function Kept(tx: Tx, start: Meter, m: Stores, blockGas: Meter): Stores
  {
    var ante := AnteEndOf(tx, start, m);
    match TxLanding(tx, start, m, blockGas)
    case Nothing => m
    case AnteOnly => ante.state
    case AnteAndMessages => Work(tx.msgs, ante.state, ante.ctx.meter).0
  }

  /** The refund's end. */
  ghost function RefundEndOf(tx: Tx, start: Meter, m: Stores, blockGas: Meter): RefundEnd<Stores>
  {
    var body := BodyEffect(Deliver, tx, start, m);
    RefundStage(tx, Kept(tx, start, m, blockGas), body.ctx, body.result.(gasUsed := body.ctx.meter.consumed))
  }

  /** The state after a delivered transaction: what stays, and the refund's writes if it succeeds. */
  ghost predicate Atomic(tx: Tx, start: Meter, m: Stores, blockGas: Meter, now: Stores)
  {
    var kept, refund := Kept(tx, start, m, blockGas), RefundEndOf(tx, start, m, blockGas);
    now == if Admitted(tx, blockGas) && refund.Refunded? then refund.state else kept
  }

  lemma BodyKeeps(tx: Tx, start: Meter, m: Stores, blockGas: Meter)
    requires Admitted(tx, blockGas)
    ensures BodyEffect(Deliver, tx, start, m).state == Kept(tx, start, m, blockGas)
  {
    var ante := AnteEndOf(tx, start, m);
    if ante.AntePassed? {
      MsgLoopIs(tx.msgs, ante.state, ante.ctx.meter);
    }
  }

  /** Whatever a handler does and wherever it stops, a delivered transaction leaves nothing, the
      ante handlers' writes, or these and the writes of all its messages: the last exactly when
      every message succeeds. */
  lemma TxIsAtomic(tx: Tx, start: Meter, m: Stores, blockGas: Meter)
    ensures Atomic(tx, start, m, blockGas, TxEffect(Deliver, tx, start, m, blockGas).state)
  {
    if Admitted(tx, blockGas) {
      BodyKeeps(tx, start, m, blockGas);
      TxEffectSettles(Deliver, tx, start, m, blockGas);
    }
  }

  /** So a property of the state survives every panic and every failure if each of the three
      stages keeps it when it succeeds. */
  lemma DeliverKeeps(tx: Tx, start: Meter, m: Stores, blockGas: Meter, keeps: Stores -> bool)
    requires keeps(m)
    requires forall x, c :: keeps(x) && AnteStage(tx, x, c).AntePassed? ==> keeps(AnteStage(tx, x, c).state)
    requires forall x, g :: keeps(x) && AllOk(tx.msgs, x, g) ==> keeps(Work(tx.msgs, x, g).0)
    requires forall x, c, r :: keeps(x) && RefundStage(tx, x, c, r).Refunded? ==> keeps(RefundStage(tx, x, c, r).state)
    ensures keeps(TxEffect(Deliver, tx, start, m, blockGas).state)
  {
    TxIsAtomic(tx, start, m, blockGas);
    assert keeps(Kept(tx, start, m, blockGas));
  }

  /** The code that is reported is not what decides what stays: it is OK exactly when the block's
      gas meter took the charge, the refund succeeded, and the messages landed or an ante handler
      stopped the transaction without an error. */
  lemma TxReportedOk(tx: Tx, start: Meter, m: Stores, blockGas: Meter)
    requires tx.rejected != Some(CODE_OK)
    ensures var ante := AnteEndOf(tx, start, m);
            TxEffect(Deliver, tx, start, m, blockGas).result.code == CODE_OK <==>
              && Admitted(tx, blockGas)
              && Consume(blockGas, ConsumedToLimit(BodyEffect(Deliver, tx, start, m).ctx.meter)).1.Charged?
              && RefundEndOf(tx, start, m, blockGas).Refunded?
              && (TxLanding(tx, start, m, blockGas).AnteAndMessages? ||
                  (PreStage(tx, m, start).verdict.PreOk? && ante.AnteAborted? && ante.result.code == CODE_OK))
  {
    if Admitted(tx, blockGas) {
      BodyKeeps(tx, start, m, blockGas);
      TxEffectSettles(Deliver, tx, start, m, blockGas);
      BodyReportsOk(tx, start, m, blockGas);
      var body := BodyEffect(Deliver, tx, start, m);
      RefundPanics(tx, Kept(tx, start, m, blockGas), body.ctx, body.result.(gasUsed := body.ctx.meter.consumed));
    }
  }

  lemma RefundPanics(tx: Tx, m: Stores, ctx: Ctx, result: Result)
    ensures RefundStage(tx, m, ctx, result).RefundPanicked? ==> RefundStage(tx, m, ctx, result).code != CODE_OK
  {
  }

  /** Before the deferred functions, no panic is under way and the code is OK. */
  lemma BodyReportsOk(tx: Tx, start: Meter, m: Stores, blockGas: Meter)
    requires Admitted(tx, blockGas)
    ensures var ante, body := AnteEndOf(tx, start, m), BodyEffect(Deliver, tx, start, m);
            && (body.panic.Some? ==> body.panic.value != CODE_OK)
            && (body.panic.None? && body.result.code == CODE_OK <==>
                  (TxLanding(tx, start, m, blockGas).AnteAndMessages? ||
                   (PreStage(tx, m, start).verdict.PreOk? && ante.AnteAborted? && ante.result.code == CODE_OK)))
  {
    var ante := AnteEndOf(tx, start, m);
    AntePanics(tx.antes, m, Ctx(PreStage(tx, m, start).meter, None), 0);
    if ante.AntePassed? {
      MsgLoopIs(tx.msgs, ante.state, ante.ctx.meter);
    }
  }

  lemma {:induction false} AntePanics(antes: seq<AnteHandler>, m: Stores, ctx: Ctx, wanted: nat)
    ensures AnteLoop(antes, m, ctx, wanted).AntePanicked? ==> AnteLoop(antes, m, ctx, wanted).code != CODE_OK
  {
    if antes != [] {
      var (m', meter, halt) := Exec(antes[0].program, [], m, MeterFor(antes[0], ctx));
      var end := AnteVerdictOf(antes[0], ctx, meter, halt, wanted);
      if end.AntePassed? {
        AntePanics(antes[1..], m', end.ctx, end.wanted);
      }
    }
  }

  const GOOD := Verdict(CODE_OK, 10, false, true, None)

  /** A message that burns nine units of gas and stores one value in the first store. */
  function Storing(key: Bytes, value: Bytes): Program
  {
    Program((answers: seq<Answer>) =>
              if |answers| == 0 then Burn(9) else if |answers| == 1 then Put(0, key, value) else Finish(GOOD), 3)
  }

  function Stored(m: Stores, key: Bytes, value: Bytes): Stores
    requires |m| > 0
  {
    m[0 := m[0][key := value]]
  }

  /** A transaction with that message, behind an ante handler that gives it ten. */
  function StoringTx(key: Bytes, value: Bytes): Tx
  {
    var ante := AnteHandler(Some(Guard(Meter(0, true, 10), 10)), Program((answers: seq<Answer>) => Finish(GOOD), 1));
    Tx(0, None, None, [ante], [Routed(Storing(key, value))], (info, result) => None)
  }

  lemma StoringRuns(key: Bytes, value: Bytes, m: Stores)
    requires |m| > 0
    ensures Exec(Storing(key, value), [], m, Meter(0, true, 10)) ==
            (Stored(m, key, value), Meter(9, true, 10), Finished(GOOD))
  {
    var p := Storing(key, value);
    var p1 := p.(steps := 2);
    var p2 := p.(steps := 1);
    assert p.next([]) == Burn(9);
    assert [] + [Ack] == [Ack] && [Ack] + [Ack] == [Ack, Ack];
    assert p1.next([Ack]) == Put(0, key, value);
    assert p2.next([Ack, Ack]) == Finish(GOOD);
    var after := Stored(m, key, value);
    assert Exec(p2, [Ack, Ack], after, Meter(9, true, 10)) == (after, Meter(9, true, 10), Finished(GOOD));
    assert Exec(p1, [Ack], m, Meter(9, true, 10)) == Exec(p2, [Ack, Ack], after, Meter(9, true, 10));
  }

  /** A block with half its gas left reports that it ran out of gas for this transaction, whose
      write stays. */
  lemma WritesCanLandUnderAnError(key: Bytes, value: Bytes, m: Stores)
    requires |m| > 0
    ensures var end := TxEffect(Deliver, StoringTx(key, value), INFINITE, m, Meter(5, true, 10));
            end.state == Stored(m, key, value) && end.result.code == CODE_OUT_OF_GAS
  {
    var tx, blockGas := StoringTx(key, value), Meter(5, true, 10);
    StoringAnte(key, value, m);
    StoringRuns(key, value, m);
    assert tx.msgs[1..] == [];
    assert MsgLoop(tx.msgs, m, Meter(0, true, 10)) ==
           MsgsReturned(Stored(m, key, value), Meter(9, true, 10), CODE_OK);
    TxEffectSettles(Deliver, tx, INFINITE, m, blockGas);
  }

  lemma StoringAnte(key: Bytes, value: Bytes, m: Stores)
    ensures AnteStage(StoringTx(key, value), m, Ctx(INFINITE, None)) ==
            AntePassed(m, Ctx(Meter(0, true, 10), None), 10)
  {
    var tx := StoringTx(key, value);
    var ante := tx.antes[0];
    assert ante.program.next([]) == Finish(GOOD);
    assert Exec(ante.program, [], m, Meter(0, true, 10)) == (m, Meter(0, true, 10), Finished(GOOD));
    assert tx.antes[1..] == [];
    var end := AnteVerdictOf(ante, Ctx(INFINITE, None), Meter(0, true, 10), Finished(GOOD), 0);
    assert end == AntePassed((), Ctx(Meter(0, true, 10), None), 10);
    assert AnteLoop([], m, end.ctx, end.wanted) == AntePassed(m, end.ctx, end.wanted);
    assert AnteLoop(tx.antes, m, Ctx(INFINITE, None), 0) == AntePassed(m, end.ctx, end.wanted);
  }
}
