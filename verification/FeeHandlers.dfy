/** A delivered transaction of the auth module, as programs on the stores: the fee pre-processing,
    the ante handler, any messages, and the fee refund. What is proved of fees holds of them. */
module FeeHandlers {
  import opened Bytes
  import opened Chain
  import opened KVStores
  import opened MultiStores
  import opened Gas
  import opened TxSpec
  import opened Handlers
  import opened Machines
  import opened Transactions
  import opened TxReports
  import opened BaseApps
  import opened Auth
  import opened AuthPrograms
  import opened FeePrograms
  import opened FeesOnStores
  import opened Arith
  import Fees

  // ---- the transaction ----

  /** The ante handler over gas-charging stores. */
  function AnteProgram(f: Formats, tx: StdTx, height: nat): Program
  {
    Compiled(Charging(AnteMachine(f, tx, height)), Idle(AnteStart(tx)), AnteSteps(tx))
  }

  function AnteSteps(tx: StdTx): nat
  {
    4 * AnteRank(tx, AnteStart(tx)) + 4
  }

  /** More steps make no difference to it. */
  lemma {:induction false} AnteEndsInTime(f: Formats, tx: StdTx, height: nat, more: nat, m: Stores, meter: Meter)
    requires AnteSteps(tx) <= more
    ensures Exec(AnteProgram(f, tx, height).(steps := more), [], m, meter)
         == Exec(AnteProgram(f, tx, height), [], m, meter)
  {
    var k, start := AnteMachine(f, tx, height), Idle(AnteStart(tx));
    AnteEnds(f, tx, height);
    ChargingEnds(k, x => AnteRank(tx, x));
    EndsInTime(Charging(k), x => ChargingRank(k, y => AnteRank(tx, y), x), start, AnteSteps(tx), more, m, meter);
    CompiledGoes(Charging(k), start, [], AnteSteps(tx), m, meter);
    CompiledGoes(Charging(k), start, [], more, m, meter);
  }

  /** The gas that the ante handler needs. */
  ghost function AnteCost(f: Formats, tx: StdTx, height: nat, m: Stores): nat
  {
    Free(Charging(AnteMachine(f, tx, height)), Idle(AnteStart(tx)), AnteSteps(tx), m).1
  }

  lemma {:induction false} ChargedAnteRun(f: Formats, tx: StdTx, height: nat, m: Stores)
    requires Sound(f) && |m| >= STORES
    ensures var end := Free(Charging(AnteMachine(f, tx, height)), Idle(AnteStart(tx)), AnteSteps(tx), m);
            AnteOutcome(f, tx, AnteVerdict(AuthOf(f, m), tx, height), AuthOf(f, m), HasFeeAuth(m), end.0, end.2)
  {
    var k, start, need := AnteMachine(f, tx, height), AnteStart(tx), AnteRank(tx, AnteStart(tx)) + 1;
    AnteEnds(f, tx, height);
    ChargingIsFaithful(k, x => AnteRank(tx, x), start, need, AnteSteps(tx), m);
    AnteRun(f, tx, height, need, m);
  }

  /** What the ante handler does, with gas for it or without. */
  lemma {:induction false} AnteRuns(f: Formats, tx: StdTx, height: nat, m: Stores, meter: Meter)
    requires Sound(f) && |m| >= STORES && WithinLimit(meter)
    ensures var end, cost := Exec(AnteProgram(f, tx, height), [], m, meter), AnteCost(f, tx, height, m);
            if HasRoom(meter, cost) then
              && AnteOutcome(f, tx, AnteVerdict(AuthOf(f, m), tx, height), AuthOf(f, m), HasFeeAuth(m), end.0, end.2)
              && end.1 == Spend(meter, cost)
            else !end.2.Finished? && (end.2.RanOutOfGas? ==> RanOut(meter, end.1))
  {
    var c, x := Charging(AnteMachine(f, tx, height)), Idle(AnteStart(tx));
    CompiledGoes(c, x, [], AnteSteps(tx), m, meter);
    GasDecides(c, x, AnteSteps(tx), m, meter);
    ChargedAnteRun(f, tx, height, m);
  }

  /** A signed transaction as it is offered to a block: the block's height, its size, the code with
      which the stateless checks reject it, if they do, and the handlers of its messages. */
  datatype Offer = Offer(tx: StdTx, height: nat, size: nat, rejected: Option<nat>, msgs: seq<Message>)

  function AnteOf(f: Formats, o: Offer): AnteHandler
  {
    AnteHandler(Some(Guard(Fees.AnteMeter(o.tx, o.height), o.tx.gas)), AnteProgram(f, o.tx, o.height))
  }

  function RefundOf(f: Formats, tx: StdTx, info: Option<Bytes>, result: Result): Option<Program>
  {
    if info.None? then None
    else Some(RefundProgram(f, Claim(tx, f.account.decode(info.value), result.gasWanted, result.gasUsed)))
  }

  /** The transaction with the auth module's handlers. */
  function TxOf(f: Formats, o: Offer): Tx
  {
    Tx(o.size, o.rejected, if o.height == 0 then None else Some(PreProgram(f, o.tx)), [AnteOf(f, o)], o.msgs,
       (info, result) => RefundOf(f, o.tx, info, result))
  }

  // ---- its delivery ----

  ghost function AnteRunOf(f: Formats, o: Offer, m: Stores): (Stores, Meter, Halt)
  {
    Exec(AnteProgram(f, o.tx, o.height), [], m, Fees.AnteMeter(o.tx, o.height))
  }

  /** The gas that the ante handler consumed when it ended, or more than there is if it panicked. */
  ghost function AnteGas(f: Formats, o: Offer, m: Stores): nat
  {
    var end := AnteRunOf(f, o, m);
    if end.2.Crashed? then UINT64_BOUND else end.1.consumed
  }

  ghost function SignersOf(f: Formats, o: Offer, s: AuthState): Bytes
  {
    if AnteVerdict(s, o.tx, o.height).Done? then f.account.encode(Fees.FirstAccount(s, o.tx)) else []
  }

  ghost function ReadBy(f: Formats): Reading
  {
    x => AuthOf(f, x)
  }

  /** The context's meter when the fee was pre-processed. */
  ghost function ReadyMeter(f: Formats, o: Offer, m: Stores, start: Meter): Meter
  {
    if o.height == 0 then start else Spend(start, PreCost(f, o.tx, m))
  }

  /** The fee settings are stored, the gas is a uint64, and the context's meter has room for the
      pre-processing. */
  ghost predicate Deliverable(f: Formats, o: Offer, m: Stores, start: Meter)
  {
    Settled(f, m) && o.tx.gas < UINT64_BOUND && (o.height > 0 ==> HasRoom(start, PreCost(f, o.tx, m)))
  }

  /** The delivery that is described: what the messages do is what their programs do, from where
      the ante stage leaves the stores. */
  ghost function DeliveryOf(f: Formats, o: Offer, m: Stores, start: Meter, blockGas: Meter): Fees.Delivery
    requires Settled(f, m)
  {
    var end := MapMsgs(ReadBy(f), MessagesOf(f, o, ReadyMeter(f, o, m, start), m));
    Fees.Delivery(o.tx, o.height, ThresholdOf(f, m), o.size, o.rejected, ReadyMeter(f, o, m, start), blockGas,
                  AnteGas(f, o, m), SignersOf(f, o, AuthOf(f, m)), (x: AuthState, c: Ctx) => end)
  }

  /** How the messages end, from where the ante stage leaves the stores. */
  ghost function MessagesOf(f: Formats, o: Offer, ready: Meter, m: Stores): MsgsEnd<Stores>
  {
    var ante := AnteStage(TxOf(f, o), m, Ctx(ready, None));
    if ante.AntePassed? then MsgLoop(o.msgs, ante.state, ante.ctx.meter) else MsgsPanicked(ready, CODE_INTERNAL)
  }

  lemma PreIs(f: Formats, o: Offer, m: Stores, start: Meter, blockGas: Meter)
    requires Deliverable(f, o, m, start)
    ensures PreStage(TxOf(f, o), m, start) == Fees.Preprocess(DeliveryOf(f, o, m, start, blockGas))
  {
    if o.height > 0 {
      PreRuns(f, o.tx, m, start);
    }
  }

  /** How the one ante handler's end becomes the end of the ante stage. */
  function EndVerdict(o: Offer, ctx: Ctx, h: AnteHandler, meter: Meter, halt: Halt): AnteEnd<()>
  {
    ChargeTxSize(AnteVerdictOf(h, ctx, meter, halt, 0), o.size)
  }

  ghost function StageEnd(f: Formats, o: Offer, ctx: Ctx, end: (Stores, Meter, Halt)): AnteEnd<Stores>
  {
    WithState(EndVerdict(o, ctx, AnteOf(f, o), end.1, end.2), end.0)
  }

  lemma StageIs(f: Formats, o: Offer, m: Stores, ctx: Ctx)
    ensures AnteStage(TxOf(f, o), m, ctx) == StageEnd(f, o, ctx, AnteRunOf(f, o, m))
  {
    var tx, h := TxOf(f, o), AnteOf(f, o);
    assert tx.antes[0] == h && tx.antes[1..] == [];
    var end := AnteRunOf(f, o, m);
    var verdict := AnteVerdictOf(h, ctx, end.1, end.2, 0);
    if verdict.AntePassed? {
      assert AnteLoop([], end.0, verdict.ctx, verdict.wanted) == AntePassed(end.0, verdict.ctx, verdict.wanted);
    }
  }

  /** How the ante handler can end. */
  ghost predicate AnteEnded(f: Formats, o: Offer, s: AuthState, hasFeeAuth: bool, end: (Stores, Meter, Halt))
  {
    var meter := Fees.AnteMeter(o.tx, o.height);
    && (end.2.Finished? ==>
          && AnteOutcome(f, o.tx, AnteVerdict(s, o.tx, o.height), s, hasFeeAuth, end.0, end.2)
          && WithinLimit(end.1) && end.1 == Spend(meter, end.1.consumed))
    && (end.2.RanOutOfGas? ==> RanOut(meter, end.1))
  }

  /** A delivery that agrees with an offer on what its ante stage depends on. */
  ghost predicate Describes(f: Formats, o: Offer, s: AuthState, end: (Stores, Meter, Halt), d: Fees.Delivery)
  {
    && d.tx == o.tx && d.height == o.height && d.size == o.size
    && d.anteCost == (if end.2.Crashed? then UINT64_BOUND else end.1.consumed)
    && d.signers == SignersOf(f, o, s)
  }

  ghost function Blank(end: AnteEnd<AuthState>): AnteEnd<()>
  {
    MapAnte(s => (), end)
  }

  lemma StoppedIs(o: Offer, s: AuthState, start: Meter, h: AnteHandler, meter: Meter, halt: Halt, d: Fees.Delivery)
    requires h.guard == Some(Guard(Fees.AnteMeter(o.tx, o.height), o.tx.gas)) && !halt.Finished?
    requires d.tx == o.tx && d.height == o.height
    requires d.anteCost == if halt.Crashed? then UINT64_BOUND else meter.consumed
    requires halt.RanOutOfGas? ==> RanOut(Fees.AnteMeter(o.tx, o.height), meter)
    ensures EndVerdict(o, Ctx(start, None), h, meter, halt) == Blank(Fees.Ante(d, s, Ctx(start, None)))
    ensures !Fees.Ante(d, s, Ctx(start, None)).AntePassed? && Fees.Ante(d, s, Ctx(start, None)).ctx.info.None?
  {
  }

  lemma RefusedIs(o: Offer, s: AuthState, start: Meter, h: AnteHandler, meter: Meter, halt: Halt, d: Fees.Delivery)
    requires h.guard == Some(Guard(Fees.AnteMeter(o.tx, o.height), o.tx.gas)) && halt == Finished(REFUSING)
    requires d.tx == o.tx && d.height == o.height && d.anteCost == meter.consumed
    requires WithinLimit(meter) && meter == Spend(Fees.AnteMeter(o.tx, o.height), meter.consumed)
    requires AnteVerdict(s, o.tx, o.height).Fails?
    ensures EndVerdict(o, Ctx(start, None), h, meter, halt) == Blank(Fees.Ante(d, s, Ctx(start, None)))
    ensures !Fees.Ante(d, s, Ctx(start, None)).AntePassed? && Fees.Ante(d, s, Ctx(start, None)).ctx.info.None?
  {
    assert Consume(Fees.AnteMeter(o.tx, o.height), d.anteCost) == (meter, Charged);
  }

  lemma PassedIs(f: Formats, o: Offer, s: AuthState, start: Meter, h: AnteHandler, meter: Meter, halt: Halt,
                 first: Account, d: Fees.Delivery)
    requires h.guard == Some(Guard(Fees.AnteMeter(o.tx, o.height), o.tx.gas)) && o.tx.gas < UINT64_BOUND
    requires halt == Finished(Accepting(f, o.tx, first))
    requires d.tx == o.tx && d.height == o.height && d.size == o.size && d.anteCost == meter.consumed
    requires d.signers == f.account.encode(first)
    requires WithinLimit(meter) && meter == Spend(Fees.AnteMeter(o.tx, o.height), meter.consumed)
    requires AnteVerdict(s, o.tx, o.height).Done?
    ensures EndVerdict(o, Ctx(start, None), h, meter, halt) == Blank(Fees.Ante(d, s, Ctx(start, None)))
    ensures var ante := Fees.Ante(d, s, Ctx(start, None));
            ante.ctx.info == Some(d.signers) && (ante.AntePassed? ==> ante.state == AnteState(s, o.tx))
  {
    assert Consume(Fees.AnteMeter(o.tx, o.height), d.anteCost) == (meter, Charged);
  }

  lemma EndIs(f: Formats, o: Offer, s: AuthState, hasFeeAuth: bool, start: Meter, end: (Stores, Meter, Halt),
              d: Fees.Delivery)
    requires o.tx.gas < UINT64_BOUND && Describes(f, o, s, end, d)
    requires AnteEnded(f, o, s, hasFeeAuth, end)
    ensures var ante := Fees.Ante(d, s, Ctx(start, None));
            && EndVerdict(o, Ctx(start, None), AnteOf(f, o), end.1, end.2) == Blank(ante)
            && (ante.AntePassed? ==> ante.state == AuthOf(f, end.0) && (hasFeeAuth ==> HasFeeAuth(end.0)))
            && (ante.ctx.info.Some? ==> AnteVerdict(s, o.tx, o.height).Done? && ante.ctx.info == Some(d.signers))
  {
    if !end.2.Finished? {
      StoppedIs(o, s, start, AnteOf(f, o), end.1, end.2, d);
    } else if AnteVerdict(s, o.tx, o.height).Done? {
      PassedIs(f, o, s, start, AnteOf(f, o), end.1, end.2, Fees.FirstAccount(s, o.tx), d);
    } else {
      RefusedIs(o, s, start, AnteOf(f, o), end.1, end.2, d);
    }
  }

  lemma AnteIs(f: Formats, o: Offer, m: Stores, start: Meter, blockGas: Meter)
    requires Sound(f) && Deliverable(f, o, m, start)
    ensures var d := DeliveryOf(f, o, m, start, blockGas);
            var ante := AnteStage(TxOf(f, o), m, Ctx(d.start, None));
            && MapAnte(ReadBy(f), ante) == Fees.Ante(d, AuthOf(f, m), Ctx(d.start, None))
            && (ante.AntePassed? ==> HasFeeAuth(ante.state))
            && (ante.ctx.info.Some? ==>
                  AnteVerdict(AuthOf(f, m), o.tx, o.height).Done? && ante.ctx.info == Some(d.signers))
  {
    var d := DeliveryOf(f, o, m, start, blockGas);
    AnteRuns(f, o.tx, o.height, m, Fees.AnteMeter(o.tx, o.height));
    StageIs(f, o, m, Ctx(d.start, None));
    EndIs(f, o, AuthOf(f, m), HasFeeAuth(m), d.start, AnteRunOf(f, o, m), d);
  }

  /** The gas is within the transaction's limit, which does not count at height zero. */
  predicate Fits(o: Offer, gas: nat)
  {
    gas < 0x1_0000_0000_0000_0000 && (o.height > 0 ==> gas <= o.tx.gas)
  }

  /** The meter after a passing ante stage: what its handler cost, and ten for every byte of the
      transaction. */
  function PastMeter(o: Offer, cost: nat): Meter
  {
    if o.height == 0 then Meter(cost + 10 * o.size, false, 0) else Meter(cost + 10 * o.size, true, o.tx.gas)
  }

  lemma VerdictPasses(f: Formats, o: Offer, ctx: Ctx, h: AnteHandler, s: AuthState, cost: nat, after: Stores,
                      meter: Meter, halt: Halt)
    requires h.guard == Some(Guard(Fees.AnteMeter(o.tx, o.height), o.tx.gas)) && o.tx.gas < UINT64_BOUND
    requires if HasRoom(Fees.AnteMeter(o.tx, o.height), cost)
             then AnteEndsAs(f, o.tx, o.height, s, after, halt) && meter == Spend(Fees.AnteMeter(o.tx, o.height), cost)
             else !halt.Finished?
    ensures var v := EndVerdict(o, ctx, h, meter, halt);
            && (v.AntePassed? <==> Authorized(s, o.tx, o.height) && Fits(o, cost + 10 * o.size))
            && (v.AntePassed? ==>
                  && v.wanted == o.tx.gas && v.ctx.meter == PastMeter(o, cost)
                  && Authenticated(s, o.tx, AuthOf(f, after)))
  {
  }

  /** The ante stage passes exactly when the transaction is authorized and its gas covers the stage.
      The messages then find the accounts authenticated, and the rest of the gas. */
  lemma AntePassesIff(f: Formats, o: Offer, m: Stores, ctx: Ctx)
    requires Sound(f) && |m| >= STORES && o.tx.gas < UINT64_BOUND
    ensures var ante, s, cost := AnteStage(TxOf(f, o), m, ctx), AuthOf(f, m), AnteCost(f, o.tx, o.height, m);
            && (ante.AntePassed? <==> Authorized(s, o.tx, o.height) && Fits(o, cost + 10 * o.size))
            && (ante.AntePassed? ==>
                  && ante.wanted == o.tx.gas && ante.ctx.meter == PastMeter(o, cost)
                  && ante.state == AnteRunOf(f, o, m).0 && Authenticated(s, o.tx, AuthOf(f, ante.state)))
  {
    var s, end := AuthOf(f, m), AnteRunOf(f, o, m);
    var meter, cost := Fees.AnteMeter(o.tx, o.height), AnteCost(f, o.tx, o.height, m);
    AnteRuns(f, o.tx, o.height, m, meter);
    StageIs(f, o, m, ctx);
    if HasRoom(meter, cost) {
      OutcomeIs(f, o.tx, o.height, s, HasFeeAuth(m), end.0, end.2);
    }
    VerdictPasses(f, o, ctx, AnteOf(f, o), s, cost, end.0, end.1, end.2);
  }

  ghost function RefundResult(c: Claim, x: AuthState): RefundEnd<AuthState>
    requires Claimable(c)
  {
    if c.wanted <= c.used then Refunded(x)
    else if MulFits(NativeFee(c.tx), c.wanted - c.used) && Payable(c, x.accounts, x.pool) then Refunded(Payment(c, x))
    else RefundPanicked(CODE_INTERNAL)
  }

  lemma RefundSays(d: Fees.Delivery, s: AuthState, x: AuthState, ctx: Ctx, r: Result, c: Claim)
    requires AnteVerdict(s, d.tx, d.height).Done? && ctx.info.Some?
    requires c == Claim(d.tx, Fees.FirstAccount(s, d.tx), r.gasWanted, r.gasUsed)
    ensures Fees.Refund(d, s, x, ctx, r) == RefundResult(c, x)
  {
    if c.used < c.wanted {
      RefundIs(c, x);
    }
  }

  ghost function RefundEndWith(end: (Stores, Meter, Halt)): RefundEnd<Stores>
  {
    match RefundVerdictOf(end.2)
    case Refunded(_) => Refunded(end.0)
    case RefundFailed => RefundFailed
    case RefundPanicked(code) => RefundPanicked(code)
  }

  lemma RefundDoes(f: Formats, c: Claim, x: Stores, end: (Stores, Meter, Halt))
    requires Claimable(c) && RefundOutcome(f, c, x, end.0, end.2)
    ensures MapRefund(ReadBy(f), RefundEndWith(end)) == RefundResult(c, AuthOf(f, x))
  {
  }

  lemma RefundStageIs(f: Formats, o: Offer, d: Fees.Delivery, s: AuthState, x: Stores, ctx: Ctx, r: Result)
    requires Sound(f) && d.tx == o.tx && d.height == o.height
    requires ctx.info.Some? ==>
      AnteVerdict(s, o.tx, o.height).Done? && ctx.info == Some(SignersOf(f, o, s)) && HasFeeAuth(x)
    ensures Fees.Refund(d, s, AuthOf(f, x), ctx, r) == MapRefund(ReadBy(f), RefundStage(TxOf(f, o), x, ctx, r))
  {
    if ctx.info.Some? {
      var c := Claim(o.tx, Fees.FirstAccount(s, o.tx), r.gasWanted, r.gasUsed);
      assert TxOf(f, o).refund(ctx.info, r) == Some(RefundProgram(f, c));
      var end := Exec(RefundProgram(f, c), [], x, INFINITE);
      assert RefundStage(TxOf(f, o), x, ctx, r) == RefundEndWith(end);
      RefundRuns(f, c, x);
      RefundDoes(f, c, x, end);
      RefundSays(d, s, AuthOf(f, x), ctx, r, c);
    }
  }

  // ---- the whole of it ----

  /** Where the refund starts: at the start, after the ante stage or after the messages, with what
      the ante stage left in the context. */
  lemma BodyIs(tx: Tx, start: Meter, m: Stores, blockGas: Meter)
    requires Admitted(tx, blockGas)
    ensures var ante, body := AnteEndOf(tx, start, m), BodyEffect(Deliver, tx, start, m);
            && body.state == Kept(tx, start, m, blockGas)
            && (body.ctx.info.Some? ==> body.ctx.info == ante.ctx.info)
            && (TxLanding(tx, start, m, blockGas).AnteOnly? ==> body.state == ante.state)
            && (TxLanding(tx, start, m, blockGas).Nothing? ==> body.state == m)
  {
    BodyKeeps(tx, start, m, blockGas);
  }

  /** Messages that land leave the fee setting in its store. */
  ghost predicate FeeAuthKept(f: Formats, o: Offer, start: Meter, m: Stores, blockGas: Meter)
  {
    TxLanding(TxOf(f, o), start, m, blockGas).AnteAndMessages? ==> HasFeeAuth(Kept(TxOf(f, o), start, m, blockGas))
  }

  /** The auth module's handlers implement the delivery that is described, whatever the messages do. */
  lemma HandlersImplement(f: Formats, o: Offer, m: Stores, start: Meter, blockGas: Meter)
    requires Sound(f) && Deliverable(f, o, m, start) && Admitted(TxOf(f, o), blockGas)
    requires FeeAuthKept(f, o, start, m, blockGas)
    ensures Implements(ReadBy(f), TxOf(f, o), DeliveryOf(f, o, m, start, blockGas), start, m)
  {
    var tx, d := TxOf(f, o), DeliveryOf(f, o, m, start, blockGas);
    PreIs(f, o, m, start, blockGas);
    AnteIs(f, o, m, start, blockGas);
    BodyIs(tx, start, m, blockGas);
    var body := BodyEffect(Deliver, tx, start, m);
    RefundStageIs(f, o, d, AuthOf(f, m), body.state, body.ctx, body.result.(gasUsed := body.ctx.meter.consumed));
  }

  lemma DeliveryIs(f: Formats, o: Offer, m: Stores, start: Meter, blockGas: Meter)
    requires Sound(f) && Deliverable(f, o, m, start) && FeeAuthKept(f, o, start, m, blockGas)
    ensures var end := TxEffect(Deliver, TxOf(f, o), start, m, blockGas);
            Fees.Deliver(AuthOf(f, m), DeliveryOf(f, o, m, start, blockGas))
              == TxEnd(AuthOf(f, end.state), end.blockGas, end.result)
  {
    if Admitted(TxOf(f, o), blockGas) {
      HandlersImplement(f, o, m, start, blockGas);
      DeliverImplements(ReadBy(f), TxOf(f, o), DeliveryOf(f, o, m, start, blockGas), start, m);
    }
  }

  /** How far it comes, and what there is before the refund. */
  lemma LandingIs(f: Formats, o: Offer, m: Stores, start: Meter, blockGas: Meter)
    requires Sound(f) && Deliverable(f, o, m, start)
    ensures var tx, s, d := TxOf(f, o), AuthOf(f, m), DeliveryOf(f, o, m, start, blockGas);
            && Fees.LandedOf(s, d) == TxLanding(tx, start, m, blockGas)
            && (!Fees.LandedOf(s, d).Nothing? ==>
                  && Fees.BeforeRefund(s, d) == AuthOf(f, Kept(tx, start, m, blockGas))
                  && Fees.MsgsEndOf(s, d) == MapMsgs(ReadBy(f), MessagesOf(f, o, ReadyMeter(f, o, m, start), m)))
  {
    PreIs(f, o, m, start, blockGas);
    AnteIs(f, o, m, start, blockGas);
    var ante := AnteEndOf(TxOf(f, o), start, m);
    if ante.AntePassed? {
      MsgLoopIs(o.msgs, ante.state, ante.ctx.meter);
    }
  }

  /** What a delivered transaction costs and conserves, whatever fails or panics in it: a failed ante
      stage is free, and otherwise the unused share of the fee is paid back; if the messages that land
      add nothing to the money and take nothing from it, nor does the whole; and if they leave the pool
      alone, it has grown by exactly the price. `kept` is the state before the refund and `t` the one
      after it. */
  ghost predicate Taken(d: Fees.Delivery, landing: Landing, s: AuthState, end: MsgsEnd<AuthState>, kept: AuthState,
                        t: AuthState)
  {
    && (landing.Nothing? ==> t == s)
    && (!landing.Nothing? ==> ValidBasic(d.tx) && AllKnown(s.accounts, Signers(d.tx))
                              && t == Fees.PaidBack(d, end, kept, Fees.FirstAccount(s, d.tx)))
    && ((landing.AnteAndMessages? ==> Fees.Total(kept) == Fees.Total(s)) ==> Fees.Total(t) == Fees.Total(s))
    && (!landing.Nothing? && d.height > 0 && (landing.AnteAndMessages? ==> kept.pool == s.pool + NativeFee(d.tx)) ==>
          ValidBasic(d.tx) && d.tx.gas > 0 && t.pool == s.pool + Fees.Price(d, end, kept))
  }

  lemma TakenIs(s: AuthState, d: Fees.Delivery, end: MsgsEnd<AuthState>, kept: AuthState)
    requires !Fees.LandedOf(s, d).Nothing? ==> end == Fees.MsgsEndOf(s, d) && kept == Fees.BeforeRefund(s, d)
    ensures Taken(d, Fees.LandedOf(s, d), s, end, kept, Fees.Deliver(s, d).state)
  {
    FeesOf(s, d);
    if !Fees.LandedOf(s, d).Nothing? {
      Fees.LandedMeans(s, d);
      Fees.DeliverPaysBack(s, d);
      Fees.AnteConserves(s, d.tx, d.height);
    }
  }

  ghost predicate FeesTaken(f: Formats, o: Offer, start: Meter, blockGas: Meter, m: Stores, after: Stores)
    requires Settled(f, m)
  {
    Taken(DeliveryOf(f, o, m, start, blockGas), TxLanding(TxOf(f, o), start, m, blockGas), AuthOf(f, m),
          MapMsgs(ReadBy(f), MessagesOf(f, o, ReadyMeter(f, o, m, start), m)),
          AuthOf(f, Kept(TxOf(f, o), start, m, blockGas)), AuthOf(f, after))
  }

  lemma OfferFees(f: Formats, o: Offer, m: Stores, start: Meter, blockGas: Meter)
    requires Sound(f) && Deliverable(f, o, m, start) && FeeAuthKept(f, o, start, m, blockGas)
    ensures FeesTaken(f, o, start, blockGas, m, TxEffect(Deliver, TxOf(f, o), start, m, blockGas).state)
  {
    DeliveryIs(f, o, m, start, blockGas);
    LandingIs(f, o, m, start, blockGas);
    TakenIs(AuthOf(f, m), DeliveryOf(f, o, m, start, blockGas),
            MapMsgs(ReadBy(f), MessagesOf(f, o, ReadyMeter(f, o, m, start), m)),
            AuthOf(f, Kept(TxOf(f, o), start, m, blockGas)));
  }

  // ---- when it takes effect, written out ----

  /** The fee pre-processing, which height zero is spared: the gas is positive and an int64, and the
      fee is the gas price threshold for every unit of it, or more. */
  ghost function PriceVerdict(o: Offer, threshold: nat): PreVerdict
  {
    var fee := if o.tx.fee.Some? then o.tx.fee.value else 0;
    if o.height == 0 then PreOk
    else if fee < 0 then PrePanics(1)
    else if o.tx.gas == 0 || o.tx.gas >= 0x8000_0000_0000_0000 then PreFails(18)
    else if fee < threshold * o.tx.gas then PreFails(17)
    else PreOk
  }

  lemma PriceVerdictIs(f: Formats, o: Offer, m: Stores, start: Meter)
    requires Deliverable(f, o, m, start)
    ensures PreStage(TxOf(f, o), m, start) == PreEnd(ReadyMeter(f, o, m, start), PriceVerdict(o, ThresholdOf(f, m)))
  {
    PreIs(f, o, m, start, INFINITE);
    if o.tx.gas > 0 && NativeFee(o.tx) >= 0 {
      QuotientAtLeast(NativeFee(o.tx), o.tx.gas, ThresholdOf(f, m));
    }
  }

  /** The block has gas left, and the transaction is well-formed, pays the price, is authorized and
      has the gas for its ante stage. */
  ghost predicate TakesEffect(f: Formats, o: Offer, m: Stores, blockGas: Meter)
    requires Settled(f, m)
  {
    && !Full(blockGas) && o.rejected.None? && PriceVerdict(o, ThresholdOf(f, m)).PreOk?
    && Authorized(AuthOf(f, m), o.tx, o.height) && Fits(o, AnteCost(f, o.tx, o.height, m) + 10 * o.size)
  }

  lemma LandsIff(f: Formats, o: Offer, m: Stores, start: Meter, blockGas: Meter)
    requires Sound(f) && Deliverable(f, o, m, start)
    ensures !TxLanding(TxOf(f, o), start, m, blockGas).Nothing? <==> TakesEffect(f, o, m, blockGas)
  {
    PriceVerdictIs(f, o, m, start);
    AntePassesIff(f, o, m, Ctx(ReadyMeter(f, o, m, start), None));
  }

  lemma NothingRefunded(f: Formats, o: Offer, m: Stores, ctx: Ctx, r: Result)
    requires Sound(f) && HasFeeAuth(m)
    requires ctx.info.Some? ==> AnteVerdict(AuthOf(f, m), o.tx, o.height).Done? && r.gasWanted == 0
    ensures RefundStage(TxOf(f, o), m, ctx, r) == Refunded(m)
  {
    if ctx.info.Some? {
      RefundRuns(f, Claim(o.tx, f.account.decode(ctx.info.value), 0, r.gasUsed), m);
    }
  }

  /** Where the refund of one that does not take effect starts: at the start. The result says that no
      gas is wanted, or that an ante handler aborted. */
  lemma BodyOfNothing(tx: Tx, start: Meter, m: Stores, blockGas: Meter)
    requires Admitted(tx, blockGas) && TxLanding(tx, start, m, blockGas).Nothing?
    ensures var ante, body := AnteEndOf(tx, start, m), BodyEffect(Deliver, tx, start, m);
            && (body.ctx.info.Some? ==> body.ctx.info == ante.ctx.info)
            && (body.ctx.info.Some? && !ante.AnteAborted? ==> body.result.gasWanted == 0)
  {
  }

  /** Otherwise nothing is left in any store. */
  lemma NothingLeft(f: Formats, o: Offer, m: Stores, start: Meter, blockGas: Meter)
    requires Sound(f) && Deliverable(f, o, m, start) && !TakesEffect(f, o, m, blockGas)
    ensures TxEffect(Deliver, TxOf(f, o), start, m, blockGas).state == m
  {
    var tx := TxOf(f, o);
    LandsIff(f, o, m, start, blockGas);
    TxIsAtomic(tx, start, m, blockGas);
    if Admitted(tx, blockGas) {
      var body := BodyEffect(Deliver, tx, start, m);
      BodyOfNothing(tx, start, m, blockGas);
      PriceVerdictIs(f, o, m, start);
      AnteIs(f, o, m, start, blockGas);
      NothingRefunded(f, o, m, body.ctx, body.result.(gasUsed := body.ctx.meter.consumed));
    }
  }

  /** The gas on the meter when the messages end, which run from where the ante handler leaves it. */
  ghost function UsedBy(f: Formats, o: Offer, m: Stores): nat
  {
    MsgsDone(o.msgs, AnteRunOf(f, o, m).0, PastMeter(o, AnteCost(f, o.tx, o.height, m))).1.consumed
  }

  /** The gas that is reported for one that takes effect. */
  lemma GasIsReported(f: Formats, o: Offer, m: Stores, start: Meter, blockGas: Meter)
    requires Sound(f) && Deliverable(f, o, m, start) && TakesEffect(f, o, m, blockGas)
    ensures var r := TxEffect(Deliver, TxOf(f, o), start, m, blockGas).result;
            r.gasWanted == o.tx.gas && r.gasUsed == UsedBy(f, o, m)
  {
    var tx, ctx := TxOf(f, o), Ctx(ReadyMeter(f, o, m, start), None);
    PriceVerdictIs(f, o, m, start);
    AntePassesIff(f, o, m, ctx);
    PassedEnds(tx, start, m);
    TxIs(Deliver, tx, start, m, blockGas);
  }

  /** A signature is not one of its signer's key. */
  ghost predicate Forged(s: AuthState, tx: StdTx)
  {
    exists i, k :: 0 <= i < |tx.sigs| && i < |Signers(tx)| && Signers(tx)[i] in s.accounts
                   && KeyFor(k, Signers(tx)[i], s.accounts[Signers(tx)[i]], tx.sigs[i]) && !tx.sigs[i].accepts(k)
  }

  lemma ForgedIsRefused(s: AuthState, tx: StdTx, height: nat)
    requires Forged(s, tx)
    ensures !Authorized(s, tx, height)
  {
    var i, k :| 0 <= i < |tx.sigs| && i < |Signers(tx)| && Signers(tx)[i] in s.accounts
                && KeyFor(k, Signers(tx)[i], s.accounts[Signers(tx)[i]], tx.sigs[i]) && !tx.sigs[i].accepts(k);
    if WellFormed(s, tx, height) {
      assert !VouchedAt(s, tx, i);
    }
  }

  /** The delivery on real stores with their caches. */
  method DeliverOffer(f: Formats, o: Offer, ms: seq<KVStore>, start: Meter, blockGas: Meter)
    returns (blockGas': Meter, result: Result)
    requires Sound(f) && Usable(ms) && Deliverable(f, o, Views(ms), start)
    requires FeeAuthKept(f, o, start, Views(ms), blockGas)
    modifies AllOf(ms)`cache, Own(ms)
    ensures Usable(ms)
    ensures TxEnd(Views(ms), blockGas', result) == TxEffect(Deliver, TxOf(f, o), start, old(Views(ms)), blockGas)
    ensures FeesTaken(f, o, start, blockGas, old(Views(ms)), Views(ms))
    ensures !TakesEffect(f, o, old(Views(ms)), blockGas) ==> Views(ms) == old(Views(ms))
    ensures Forged(AuthOf(f, old(Views(ms))), o.tx) ==> Views(ms) == old(Views(ms))
    ensures TakesEffect(f, o, old(Views(ms)), blockGas) ==>
      && result.gasWanted == o.tx.gas
      && result.gasUsed == UsedBy(f, o, old(Views(ms)))
  {
    PreOnlyReads(f, o.tx);
    OfferFees(f, o, Views(ms), start, blockGas);
    if Forged(AuthOf(f, Views(ms)), o.tx) {
      ForgedIsRefused(AuthOf(f, Views(ms)), o.tx, o.height);
    }
    if TakesEffect(f, o, Views(ms), blockGas) {
      GasIsReported(f, o, Views(ms), start, blockGas);
    } else {
      NothingLeft(f, o, Views(ms), start, blockGas);
    }
    blockGas', result := RunTxOn(Deliver, TxOf(f, o), ms, start, blockGas);
  }
}
