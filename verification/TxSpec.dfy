/** Gas meters. Gas is a Go uint64: a sum that does not fit stores zero and panics. */
module Gas {
  import opened Chain

  const BLOCK_STORE_COST_PER_BYTE := 10

  /** A meter without a limit is the source's infinite gas meter. */
  datatype Meter = Meter(consumed: nat, limited: bool, limit: nat)

  datatype Charge = Charged | OutOfGas | Overflow

  function Consume(m: Meter, amount: nat): (r: (Meter, Charge))
  {
    if m.consumed + amount >= UINT64_BOUND then (m.(consumed := 0), Overflow)
    else
      var m' := m.(consumed := m.consumed + amount);
      (m', if m.limited && m'.consumed > m.limit then OutOfGas else Charged)
  }

  function ConsumedToLimit(m: Meter): nat
  {
    if m.limited && m.consumed > m.limit then m.limit else m.consumed
  }

  predicate IsOutOfGas(m: Meter)
  {
    m.limited && m.consumed >= m.limit
  }

  const INFINITE := Meter(0, false, 0)
}

/** What running one transaction does, over any type S of states: the control flow of runTx
    with its panics as values and its three deferred functions as trailing steps. */
module TxSpec {
  import opened Bytes
  import opened Gas

  datatype Mode = Check | Simulate | Deliver

  const CODE_OK := 0
  const CODE_INTERNAL := 1
  const CODE_UNKNOWN_REQUEST := 6
  const CODE_OUT_OF_GAS := 12

  datatype Result = Result(code: nat, gasWanted: nat, gasUsed: nat)

  /** The context that later stages see: its gas meter, and what the ante handlers left in it. */
  datatype Ctx = Ctx(meter: Meter, info: Option<Bytes>)

  datatype PreEnd = PreEnd(meter: Meter, verdict: PreVerdict)
  datatype PreVerdict = PreOk | PreFails(code: nat) | PrePanics(code: nat)

  /** How the ante stage ends; `wanted` is the gas wanted that it has summed up so far. */
  datatype AnteEnd<S> =
    | AntePassed(state: S, ctx: Ctx, wanted: nat)
    | AnteAborted(ctx: Ctx, result: Result, wanted: nat)
    | AntePanicked(ctx: Ctx, code: nat, wanted: nat)

  datatype MsgsEnd<S> =
    | MsgsReturned(state: S, meter: Meter, code: nat)
    | MsgsPanicked(meter: Meter, code: nat)

  datatype RefundEnd<S> = Refunded(state: S) | RefundFailed | RefundPanicked(code: nat)

  /** The body of runTx before its deferred functions: the state it leaves, the context and the
      named result at that point, and the panic that is under way, if any. */
  datatype Body<S> = Body(state: S, ctx: Ctx, result: Result, panic: Option<nat>, wanted: nat)

  datatype TxEnd<S> = TxEnd(state: S, blockGas: Meter, result: Result)

  const NO_RESULT := Result(0, 0, 0)

  ghost function RunBody<S(!new)>(mode: Mode, s: S, preprocess: S -> PreEnd, ante: (S, Ctx) -> AnteEnd<S>,
                            msgs: (S, Ctx) -> MsgsEnd<S>): Body<S>
  {
    var pre := preprocess(s);
    var ctx0 := Ctx(pre.meter, None);
    match pre.verdict
    case PreFails(code) => Body(s, ctx0, Result(code, 0, 0), None, 0)
    case PrePanics(code) => Body(s, ctx0, NO_RESULT, Some(code), 0)
    case PreOk =>
      match ante(s, ctx0)
      case AnteAborted(ctx, result, wanted) => Body(s, ctx, result, None, wanted)
      case AntePanicked(ctx, code, wanted) => Body(s, ctx, NO_RESULT, Some(code), wanted)
      case AntePassed(s1, ctx, wanted) =>
        if mode.Check? then Body(s1, ctx, NO_RESULT, None, wanted)
        else
          match msgs(s1, ctx)
          case MsgsPanicked(meter, code) => Body(s1, ctx.(meter := meter), NO_RESULT, Some(code), wanted)
          case MsgsReturned(s2, meter, code) =>
            Body(if code == CODE_OK && mode.Deliver? then s2 else s1,
                 ctx.(meter := meter), Result(code, wanted, meter.consumed), None, wanted)
  }

  function GasCode(charge: Charge): nat
  {
    if charge.OutOfGas? then CODE_OUT_OF_GAS else CODE_INTERNAL
  }

  /** The deferred functions, in the order in which they run: block gas, refund, recovery. */
  ghost function Settle<S(!new)>(mode: Mode, body: Body<S>, blockGas: Meter,
                           refund: (S, Ctx, Result) -> RefundEnd<S>): TxEnd<S>
  {
    var (blockGas', charge) :=
      if mode.Deliver? then Consume(blockGas, ConsumedToLimit(body.ctx.meter)) else (blockGas, Charged);
    var panic1 := if charge.Charged? then body.panic else Some(GasCode(charge));
    var result1 := body.result.(gasUsed := body.ctx.meter.consumed);
    if mode.Check? then
      Recovered(body, body.state, blockGas', result1, panic1)
    else
      match refund(body.state, body.ctx, result1)
      case Refunded(s) => Recovered(body, s, blockGas', result1, panic1)
      case RefundFailed => Recovered(body, body.state, blockGas', Result(CODE_INTERNAL, 0, 0), panic1)
      case RefundPanicked(code) => Recovered(body, body.state, blockGas', result1, Some(code))
  }

  ghost function Recovered<S(!new)>(body: Body<S>, s: S, blockGas: Meter, result: Result, panic: Option<nat>): TxEnd<S>
  {
    TxEnd(s, blockGas, Result(if panic.Some? then panic.value else result.code,
                              body.wanted, body.ctx.meter.consumed))
  }

  ghost function RunTx<S(!new)>(mode: Mode, s: S, blockGas: Meter, rejected: Option<nat>, preprocess: S -> PreEnd,
                          ante: (S, Ctx) -> AnteEnd<S>, msgs: (S, Ctx) -> MsgsEnd<S>,
                          refund: (S, Ctx, Result) -> RefundEnd<S>): TxEnd<S>
  {
    if mode.Deliver? && IsOutOfGas(blockGas) then TxEnd(s, blockGas, Result(CODE_OUT_OF_GAS, 0, 0))
    else if rejected.Some? then TxEnd(s, blockGas, Result(rejected.value, 0, 0))
    else Settle(mode, RunBody(mode, s, preprocess, ante, msgs), blockGas, refund)
  }

  /** How much of a transaction's work is kept before the refund. */
  datatype Landing = Nothing | AnteOnly | AnteAndMessages

  ghost function Landed<S(!new)>(s: S, blockGas: Meter, rejected: Option<nat>, preprocess: S -> PreEnd,
                           ante: (S, Ctx) -> AnteEnd<S>, msgs: (S, Ctx) -> MsgsEnd<S>): Landing
  {
    var ctx0 := Ctx(preprocess(s).meter, None);
    if IsOutOfGas(blockGas) || rejected.Some? || !preprocess(s).verdict.PreOk? || !ante(s, ctx0).AntePassed? then
      Nothing
    else
      var passed := ante(s, ctx0);
      var end := msgs(passed.state, passed.ctx);
      if end.MsgsReturned? && end.code == CODE_OK then AnteAndMessages else AnteOnly
  }

  // ---- the same transaction on what a state stands for ----

  ghost function MapAnte<S(!new), T(!new)>(abs: S -> T, end: AnteEnd<S>): AnteEnd<T>
  {
    match end
    case AntePassed(s, ctx, wanted) => AntePassed(abs(s), ctx, wanted)
    case AnteAborted(ctx, result, wanted) => AnteAborted(ctx, result, wanted)
    case AntePanicked(ctx, code, wanted) => AntePanicked(ctx, code, wanted)
  }

  ghost function MapMsgs<S(!new), T(!new)>(abs: S -> T, end: MsgsEnd<S>): MsgsEnd<T>
  {
    match end
    case MsgsReturned(s, meter, code) => MsgsReturned(abs(s), meter, code)
    case MsgsPanicked(meter, code) => MsgsPanicked(meter, code)
  }

  ghost function MapRefund<S(!new), T(!new)>(abs: S -> T, end: RefundEnd<S>): RefundEnd<T>
  {
    match end
    case Refunded(s) => Refunded(abs(s))
    case RefundFailed => RefundFailed
    case RefundPanicked(code) => RefundPanicked(code)
  }

  /** When every stage does to what a state stands for what another one does, where the transaction
      comes to it, so does the whole transaction, in every mode and whatever panics. */
  lemma RunTxMaps<S(!new), T(!new)>(
    abs: S -> T, mode: Mode, s: S, blockGas: Meter, rejected: Option<nat>,
    preprocess: S -> PreEnd, ante: (S, Ctx) -> AnteEnd<S>, msgs: (S, Ctx) -> MsgsEnd<S>,
    refund: (S, Ctx, Result) -> RefundEnd<S>,
    preprocess': T -> PreEnd, ante': (T, Ctx) -> AnteEnd<T>, msgs': (T, Ctx) -> MsgsEnd<T>,
    refund': (T, Ctx, Result) -> RefundEnd<T>)
    requires preprocess'(abs(s)) == preprocess(s)
    requires ante'(abs(s), Ctx(preprocess(s).meter, None)) == MapAnte(abs, ante(s, Ctx(preprocess(s).meter, None)))
    requires var p := ante(s, Ctx(preprocess(s).meter, None));
             p.AntePassed? ==> msgs'(abs(p.state), p.ctx) == MapMsgs(abs, msgs(p.state, p.ctx))
    requires var body := RunBody(mode, s, preprocess, ante, msgs);
             var r := body.result.(gasUsed := body.ctx.meter.consumed);
             refund'(abs(body.state), body.ctx, r) == MapRefund(abs, refund(body.state, body.ctx, r))
    ensures var end := RunTx(mode, s, blockGas, rejected, preprocess, ante, msgs, refund);
            RunTx(mode, abs(s), blockGas, rejected, preprocess', ante', msgs', refund') ==
            TxEnd(abs(end.state), end.blockGas, end.result)
  {
    var body := RunBody(mode, s, preprocess, ante, msgs);
    assert RunBody(mode, abs(s), preprocess', ante', msgs') ==
           Body(abs(body.state), body.ctx, body.result, body.panic, body.wanted);
  }
}
