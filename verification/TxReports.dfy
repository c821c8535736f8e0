/** What runTx leaves and reports, in terms of what its handlers did: the state, the gas wanted, the
    gas used, the code, and what the block is charged. */
module TxReports {
  import opened Bytes
  import opened Chain
  import opened MultiStores
  import opened Gas
  import opened TxSpec
  import opened Handlers
  import opened Transactions

  // ---- the ante handlers, one after the other ----

  /** A handler with a guard runs on its own meter, and one without on the context's. */
  ghost function Handled(h: AnteHandler, m: Stores, meter: Meter): (Stores, Meter, Halt)
  {
    Exec(h.program, [], m, if h.guard.Some? then h.guard.value.meter else meter)
  }

  predicate Passes(halt: Halt)
  {
    halt.Finished? && !halt.verdict.abort
  }

  /** The context after a handler returned: with its meter and what it leaves if it returns one. */
  function Handed(h: AnteHandler, ctx: Ctx, own: Meter, v: Handlers.Verdict): Ctx
  {
    Ctx(if v.newCtx || h.guard.None? then own else ctx.meter, if v.newCtx && v.info.Some? then v.info else ctx.info)
  }

  /** The gas wanted by the handlers that pass, up to the first that does not. */
  ghost function WantedBy(antes: seq<AnteHandler>, m: Stores, ctx: Ctx): seq<nat>
  {
    if antes == [] then []
    else
      var (m', own, halt) := Handled(antes[0], m, ctx.meter);
      if !Passes(halt) then []
      else [halt.verdict.gasWanted] + WantedBy(antes[1..], m', Handed(antes[0], ctx, own, halt.verdict))
  }

  /** The state and the context when they are through, or one has stopped. A panic leaves the caller
      with the context it had. */
  ghost function Past(antes: seq<AnteHandler>, m: Stores, ctx: Ctx): (Stores, Ctx)
  {
    if antes == [] then (m, ctx)
    else
      var (m', own, halt) := Handled(antes[0], m, ctx.meter);
      match halt
      case Crashed => (m', if antes[0].guard.None? then ctx.(meter := own) else ctx)
      case RanOutOfGas => (m', ctx.(meter := own))
      case Finished(v) =>
        var handed := Handed(antes[0], ctx, own, v);
        if v.abort then (m', handed) else Past(antes[1..], m', handed)
  }

  /** A stop: by a panic, or by returning with a code and the gas wanted. */
  datatype Stop = Panicked(code: nat) | Refused(code: nat, wanted: nat)

  /** How the first handler that does not pass stops. */
  ghost function AnteStop(antes: seq<AnteHandler>, m: Stores, ctx: Ctx): Option<Stop>
  {
    if antes == [] then None
    else
      var (m', own, halt) := Handled(antes[0], m, ctx.meter);
      match halt
      case Crashed => Some(Panicked(1))
      case RanOutOfGas => Some(if antes[0].guard.None? then Panicked(12) else Refused(12, antes[0].guard.value.wanted))
      case Finished(v) =>
        if v.abort then Some(Refused(v.code, v.gasWanted))
        else AnteStop(antes[1..], m', Handed(antes[0], ctx, own, v))
  }

  function Total(wanted: seq<nat>): nat
  {
    if wanted == [] then 0 else wanted[0] + Total(wanted[1..])
  }

  lemma WrapsOnce(a: nat, b: nat, c: nat)
    ensures ((a + b) % UINT64_BOUND + c) % UINT64_BOUND == (a + (b + c)) % UINT64_BOUND
  {
  }

  ghost predicate StopsBy(end: AnteEnd<Stores>, stop: Option<Stop>)
  {
    match end
    case AntePassed(_, _, _) => stop.None?
    case AntePanicked(_, code, _) => stop == Some(Panicked(code))
    case AnteAborted(_, result, _) => stop == Some(Refused(result.code, result.gasWanted))
  }

  /** One handler. */
  lemma HandlerIs(h: AnteHandler, ctx: Ctx, own: Meter, halt: Halt, wanted: nat)
    ensures var end := AnteVerdictOf(h, ctx, own, halt, wanted);
            && (end.AntePassed? <==> Passes(halt))
            && if end.AntePassed?
               then end == AntePassed((), Handed(h, ctx, own, halt.verdict),
                                      (wanted + halt.verdict.gasWanted) % UINT64_BOUND)
               else end.wanted == wanted
  {
  }

  lemma {:induction false} AnteLoopIs(antes: seq<AnteHandler>, m: Stores, ctx: Ctx, wanted: nat)
    requires wanted < UINT64_BOUND
    ensures var end := AnteLoop(antes, m, ctx, wanted);
            && end.wanted == (wanted + Total(WantedBy(antes, m, ctx))) % UINT64_BOUND
            && end.ctx == Past(antes, m, ctx).1
            && (end.AntePassed? ==> end.state == Past(antes, m, ctx).0)
            && StopsBy(end, AnteStop(antes, m, ctx))
  {
    if antes != [] {
      var (m', own, halt) := Handled(antes[0], m, ctx.meter);
      HandlerIs(antes[0], ctx, own, halt, wanted);
      if Passes(halt) {
        var v := halt.verdict;
        var ctx', wanted' := Handed(antes[0], ctx, own, v), (wanted + v.gasWanted) % UINT64_BOUND;
        AnteLoopIs(antes[1..], m', ctx', wanted');
        var rest := WantedBy(antes[1..], m', ctx');
        assert ([v.gasWanted] + rest)[1..] == rest;
        WrapsOnce(wanted, v.gasWanted, Total(rest));
      }
    }
  }

  // ---- the messages ----

  /** The state and the meter after the messages, up to the first that does not succeed. */
  ghost function MsgsDone(msgs: seq<Message>, m: Stores, meter: Meter): (Stores, Meter)
  {
    if msgs == [] || msgs[0].Unrouted? then (m, meter)
    else
      var (m', meter', halt) := Exec(msgs[0].handler, [], m, meter);
      if halt.Finished? && halt.verdict.code == 0 then MsgsDone(msgs[1..], m', meter') else (m', meter')
  }

  ghost function MsgsStop(msgs: seq<Message>, m: Stores, meter: Meter, wanted: nat): Option<Stop>
  {
    if msgs == [] then None
    else if msgs[0].Unrouted? then Some(Refused(6, wanted))
    else
      var (m', meter', halt) := Exec(msgs[0].handler, [], m, meter);
      match halt
      case Crashed => Some(Panicked(1))
      case RanOutOfGas => Some(Panicked(12))
      case Finished(v) =>
        if v.code == 0 then MsgsStop(msgs[1..], m', meter', wanted) else Some(Refused(v.code, wanted))
  }

  lemma {:induction false} MsgLoopStops(msgs: seq<Message>, m: Stores, meter: Meter, wanted: nat)
    ensures var end, stop := MsgLoop(msgs, m, meter), MsgsStop(msgs, m, meter, wanted);
            && end.meter == MsgsDone(msgs, m, meter).1
            && (stop.None? ==> end.MsgsReturned? && end.code == 0 && end.state == MsgsDone(msgs, m, meter).0)
            && (end.MsgsPanicked? ==> stop == Some(Panicked(end.code)))
            && (end.MsgsReturned? ==> stop == if end.code == 0 then None else Some(Refused(end.code, wanted)))
  {
    if msgs != [] && msgs[0].Routed? {
      var (m', meter', halt) := Exec(msgs[0].handler, [], m, meter);
      MsgLoopStops(msgs[1..], m', meter', wanted);
    }
  }

  // ---- the whole transaction ----

  /** The context after the fee pre-processing, and how it stops, if it does. */
  ghost function Preprocessed(tx: Tx, m: Stores, start: Meter): (Ctx, Option<Stop>)
  {
    if tx.preprocess.None? then (Ctx(start, None), None)
    else
      var (_, meter, halt) := Exec(tx.preprocess.value, [], m, start);
      (Ctx(meter, None),
       match halt
       case Crashed => Some(Panicked(1))
       case RanOutOfGas => Some(Panicked(12))
       case Finished(v) => if v.code == 0 then None else Some(Refused(v.code, 0)))
  }

  /** A meter after some gas: past a uint64 it is set to zero. */
  function Added(meter: Meter, amount: nat): Meter
  {
    meter.(consumed := if meter.consumed + amount >= 0x1_0000_0000_0000_0000 then 0 else meter.consumed + amount)
  }

  /** How consuming gas stops: by the overflow panic, or past the limit. */
  function GasStop(meter: Meter, amount: nat): Option<Stop>
  {
    if meter.consumed + amount >= 0x1_0000_0000_0000_0000 then Some(Panicked(1))
    else if meter.limited && meter.consumed + amount > meter.limit then Some(Panicked(12))
    else None
  }

  /** How a transaction ends before its deferred functions run: what it keeps, the context, the gas
      wanted, and what stopped it. */
  datatype Ending = Ending(state: Stores, ctx: Ctx, wanted: nat, stop: Option<Stop>)

  /** The ante handlers; every byte of a transaction costs ten, once they have passed. */
  ghost function AnteEnding(tx: Tx, m: Stores, ctx: Ctx): Ending
  {
    var wanted := Total(WantedBy(tx.antes, m, ctx)) % 0x1_0000_0000_0000_0000;
    var (m', passed) := Past(tx.antes, m, ctx);
    var stop := AnteStop(tx.antes, m, ctx);
    if stop.Some? then Ending(m, passed, wanted, stop)
    else if tx.antes == [] then Ending(m, passed, wanted, None)
    else
      var dear := GasStop(passed.meter, 10 * tx.size);
      Ending(if dear.Some? then m else m', passed.(meter := Added(passed.meter, 10 * tx.size)), wanted, dear)
  }

  /** Messages that all succeed stay in deliver mode only. */
  ghost function EndingOf(mode: Mode, tx: Tx, start: Meter, m: Stores): Ending
  {
    var (ctx, unpaid) := Preprocessed(tx, m, start);
    if unpaid.Some? then Ending(m, ctx, 0, unpaid)
    else
      var ante := AnteEnding(tx, m, ctx);
      if ante.stop.Some? || mode.Check? then ante
      else
        var (done, meter) := MsgsDone(tx.msgs, ante.state, ante.ctx.meter);
        var stop := MsgsStop(tx.msgs, ante.state, ante.ctx.meter, ante.wanted);
        Ending(if stop.None? && mode.Deliver? then done else ante.state, ante.ctx.(meter := meter), ante.wanted, stop)
  }

  lemma AnteStageEnds(tx: Tx, m: Stores, ctx: Ctx)
    ensures var ante, end := AnteStage(tx, m, ctx), AnteEnding(tx, m, ctx);
            && ante.ctx == end.ctx && ante.wanted == end.wanted && StopsBy(ante, end.stop)
            && end.state == if ante.AntePassed? then ante.state else m
  {
    AnteLoopIs(tx.antes, m, ctx, 0);
    if tx.antes != [] {
      Sizes(AnteLoop(tx.antes, m, ctx, 0), tx.size);
    }
  }

  /** The charge for the size. */
  lemma Sizes(loop: AnteEnd<Stores>, size: nat)
    ensures var end, ctx := ChargeTxSize(Forget(loop), size), loop.ctx;
            if !loop.AntePassed? then end == Forget(loop)
            else
              && end.ctx == ctx.(meter := Added(ctx.meter, 10 * size)) && end.wanted == loop.wanted
              && (end.AntePassed? <==> GasStop(ctx.meter, 10 * size).None?)
              && (!end.AntePassed? ==> end.AntePanicked? && GasStop(ctx.meter, 10 * size) == Some(Panicked(end.code)))
  {
  }

  /** What the refund is handed: the result so far, with the gas used. */
  ghost function HandedOver(end: Ending): Result
  {
    var used := end.ctx.meter.consumed;
    match end.stop
    case None => Result(0, end.wanted, used)
    case Some(Panicked(_)) => Result(0, 0, used)
    case Some(Refused(code, wanted)) => Result(code, wanted, used)
  }

  /** A body of runTx ends like this. */
  ghost predicate EndsAs(mode: Mode, body: Body<Stores>, end: Ending)
  {
    && body.state == end.state && body.ctx == end.ctx && body.wanted == end.wanted
    && body.panic == (if end.stop.Some? && end.stop.value.Panicked? then Some(end.stop.value.code) else None)
    && body.result.code == HandedOver(end).code
    && (!mode.Check? ==> body.result.(gasUsed := end.ctx.meter.consumed) == HandedOver(end))
  }

  lemma BodyEnds(mode: Mode, tx: Tx, start: Meter, m: Stores)
    ensures EndsAs(mode, BodyEffect(mode, tx, start, m), EndingOf(mode, tx, start, m))
  {
    var ctx := Ctx(PreStage(tx, m, start).meter, None);
    if PreStage(tx, m, start).verdict.PreOk? {
      AnteStageEnds(tx, m, ctx);
      var ante := AnteStage(tx, m, ctx);
      assert AnteEnding(tx, m, ctx).stop.None? <==> ante.AntePassed?;
      if ante.AntePassed? && !mode.Check? {
        MsgLoopStops(tx.msgs, ante.state, ante.ctx.meter, ante.wanted);
      }
    }
  }

  /** When the ante handlers pass, the messages run from where they leave it. */
  lemma PassedEnds(tx: Tx, start: Meter, m: Stores)
    requires PreStage(tx, m, start).verdict.PreOk? && AnteEndOf(tx, start, m).AntePassed?
    ensures var ante, end := AnteEndOf(tx, start, m), EndingOf(Deliver, tx, start, m);
            end.wanted == ante.wanted && end.ctx.meter == MsgsDone(tx.msgs, ante.state, ante.ctx.meter).1
  {
    AnteStageEnds(tx, m, Ctx(PreStage(tx, m, start).meter, None));
  }

  /** The meter's gas up to its limit, which is what the block is charged. */
  function Capped(meter: Meter): nat
  {
    if meter.limited && meter.limit < meter.consumed then meter.limit else meter.consumed
  }

  /** A block with a limit takes no more when its meter is at it. */
  predicate Full(blockGas: Meter)
  {
    blockGas.limited && blockGas.consumed >= blockGas.limit
  }

  /** The refund runs without a gas limit, on what the transaction keeps. A failed one is an internal
      error, and leaves nothing. */
  ghost function RefundOf(tx: Tx, end: Ending): (Stores, Option<Stop>)
  {
    var program := tx.refund(end.ctx.info, HandedOver(end));
    if program.None? then (end.state, None)
    else
      var (m', _, halt) := Exec(program.value, [], end.state, Meter(0, false, 0));
      match halt
      case Crashed => (end.state, Some(Panicked(1)))
      case RanOutOfGas => (end.state, Some(Panicked(12)))
      case Finished(v) => if v.code == 0 then (m', None) else (end.state, Some(Refused(1, 0)))
  }

  /** What is left: what the transaction keeps, and, but for a check, what the refund makes of it. */
  ghost function Left(mode: Mode, tx: Tx, end: Ending): Stores
  {
    if mode.Check? then end.state else RefundOf(tx, end).0
  }

  /** The code: that of a panic in the refund, else of one at the block's gas meter, else of one in a
      handler; without a panic that of a failed refund, else of the handler that stopped it, and OK if
      none did. */
  ghost function CodeOf(mode: Mode, tx: Tx, end: Ending, blockGas: Meter): nat
  {
    var refund := if mode.Check? then None else RefundOf(tx, end).1;
    var charge := if mode.Deliver? then GasStop(blockGas, Capped(end.ctx.meter)) else None;
    if refund.Some? && refund.value.Panicked? then refund.value.code
    else if charge.Some? then charge.value.code
    else if end.stop.Some? && end.stop.value.Panicked? then end.stop.value.code
    else if refund.Some? then refund.value.code
    else if end.stop.Some? then end.stop.value.code
    else 0
  }

  /** A delivery is refused by a full block, and a transaction by the stateless checks. Otherwise the
      gas wanted is what the ante handlers that passed want together, as a uint64, the gas used is what
      the context's last meter shows, and a delivery adds to the block's gas what is up to the limit. */
  ghost function TxOutcome(mode: Mode, tx: Tx, start: Meter, m: Stores, blockGas: Meter): TxEnd<Stores>
  {
    if mode.Deliver? && Full(blockGas) then TxEnd(m, blockGas, Result(12, 0, 0))
    else if tx.rejected.Some? then TxEnd(m, blockGas, Result(tx.rejected.value, 0, 0))
    else
      var end := EndingOf(mode, tx, start, m);
      TxEnd(Left(mode, tx, end),
            if mode.Deliver? then Added(blockGas, Capped(end.ctx.meter)) else blockGas,
            Result(CodeOf(mode, tx, end, blockGas), end.wanted, end.ctx.meter.consumed))
  }

  lemma SettleEnds(mode: Mode, tx: Tx, body: Body<Stores>, end: Ending, blockGas: Meter)
    requires EndsAs(mode, body, end)
    ensures Settle(mode, body, blockGas, (x, c, r) => RefundStage(tx, x, c, r)) ==
            TxEnd(Left(mode, tx, end),
                  if mode.Deliver? then Added(blockGas, Capped(end.ctx.meter)) else blockGas,
                  Result(CodeOf(mode, tx, end, blockGas), end.wanted, end.ctx.meter.consumed))
  {
  }

  /** This is what a transaction does, in every mode and whatever its handlers do. */
  lemma TxIs(mode: Mode, tx: Tx, start: Meter, m: Stores, blockGas: Meter)
    ensures TxEffect(mode, tx, start, m, blockGas) == TxOutcome(mode, tx, start, m, blockGas)
  {
    if !(mode.Deliver? && IsOutOfGas(blockGas)) && tx.rejected.None? {
      BodyEnds(mode, tx, start, m);
      TxEffectSettles(mode, tx, start, m, blockGas);
      SettleEnds(mode, tx, BodyEffect(mode, tx, start, m), EndingOf(mode, tx, start, m), blockGas);
    }
  }

  /** What the block is charged for a delivery that gets past the stateless checks. */
  ghost function ChargeFor(tx: Tx, start: Meter, m: Stores, blockGas: Meter): nat
  {
    if Full(blockGas) || tx.rejected.Some? then 0 else Capped(EndingOf(Deliver, tx, start, m).ctx.meter)
  }
}
