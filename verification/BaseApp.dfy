/** The application runner: runTx over a real multistore with its nested caches, and the block
    cycle around it. */
module BaseApps {
  import opened Bytes
  import opened KVStores
  import opened MultiStores
  import opened Gas
  import opened TxSpec
  import opened Handlers
  import opened Transactions
  import opened TxReports
  import opened Blocks

  // ---- the stages on stores ----

  /** A cache of a multistore is written, or dropped. */
  method Land(cache: seq<KVStore>, ms: seq<KVStore>, write: bool)
    requires Layer(cache, ms) && Separate(ms) && forall i :: 0 <= i < |ms| ==> ms[i].kind.Cached?
    modifies Own(cache), Own(ms)
    ensures Usable(ms) && Views(ms) == if write then old(Views(cache)) else old(Views(ms))
  {
    if write {
      WriteAll(cache, ms);
    }
    LayerIs(cache, ms);
  }

  /** Fee preprocessing works on the state itself, without a cache. */
  method Preprocess(tx: Tx, ms: seq<KVStore>, start: Meter) returns (end: PreEnd)
    requires Usable(ms)
    requires tx.preprocess.Some? ==> ReadOnly(tx.preprocess.value)
    modifies AllOf(ms)`cache, Own(ms)
    ensures Usable(ms) && Views(ms) == old(Views(ms))
    ensures end == PreStage(tx, Views(ms), start)
  {
    if tx.preprocess.None? {
      return PreEnd(start, PreOk);
    }
    ReadOnlyKeepsStores(tx.preprocess.value, [], Views(ms), start);
    var meter, halt := Execute(tx.preprocess.value, [], ms, start);
    return PreEnd(meter, PreVerdictOf(halt));
  }

  /** The ante handlers share one cache; it is written only if all of them pass. */
  method RunAnte(tx: Tx, ms: seq<KVStore>, ctx: Ctx) returns (end: AnteEnd<()>)
    requires Usable(ms)
    modifies AllOf(ms)`cache, Own(ms)
    ensures Usable(ms)
    ensures WithState(end, Views(ms)) == AnteStage(tx, old(Views(ms)), ctx)
    ensures !end.AntePassed? ==> Views(ms) == old(Views(ms))
  {
    if tx.antes == [] {
      return AntePassed((), ctx, 0);
    }
    end := RunAntesCached(tx, ms, ctx);
  }

  method RunAntesCached(tx: Tx, ms: seq<KVStore>, ctx: Ctx) returns (end: AnteEnd<()>)
    requires Usable(ms)
    modifies AllOf(ms)`cache, Own(ms)
    ensures Usable(ms)
    ensures var loop := AnteLoop(tx.antes, old(Views(ms)), ctx, 0);
            && end == ChargeTxSize(Forget(loop), tx.size)
            && Views(ms) == if end.AntePassed? then loop.state else old(Views(ms))
  {
    var msCache := CacheAll(ms);
    end := RunAntesOver(tx.antes, msCache, ms, ctx);
    end := ChargeTxSize(end, tx.size);
    Land(msCache, ms, end.AntePassed?);
  }

  method RunAntesOver(antes: seq<AnteHandler>, cache: seq<KVStore>, ghost ms: seq<KVStore>, ctx: Ctx)
    returns (end: AnteEnd<()>)
    requires Layer(cache, ms) && Own(cache) !! AllOf(ms) && Separate(ms)
    modifies AllOf(ms)`cache, Own(cache)
    ensures Layer(cache, ms) && Views(ms) == old(Views(ms))
    ensures var loop := AnteLoop(antes, old(Views(cache)), ctx, 0);
            end == Forget(loop) && (end.AntePassed? ==> loop.state == Views(cache))
  {
    LayerIs(cache, ms);
    end := RunAnteLoop(antes, cache, ctx, 0);
  }

  method RunAnteLoop(antes: seq<AnteHandler>, ms: seq<KVStore>, ctx: Ctx, wanted: nat) returns (end: AnteEnd<()>)
    requires Usable(ms)
    modifies AllOf(ms)`cache, Own(ms)
    ensures Usable(ms)
    ensures end == Forget(AnteLoop(antes, old(Views(ms)), ctx, wanted))
    ensures end.AntePassed? ==> AnteLoop(antes, old(Views(ms)), ctx, wanted).state == Views(ms)
  {
    end := AntePassed((), ctx, wanted);
    ghost var all := AnteLoop(antes, Views(ms), ctx, wanted);
    var i := 0;
    while i < |antes| && end.AntePassed?
      invariant i <= |antes| && Usable(ms)
      invariant if end.AntePassed?
                then end == AntePassed((), end.ctx, end.wanted)
                     && AnteLoop(antes[i..], Views(ms), end.ctx, end.wanted) == all
                else end == Forget(all)
      decreases |antes| - i
    {
      assert antes[i..][1..] == antes[i + 1..];
      var meter, halt := Execute(antes[i].program, [], ms, MeterFor(antes[i], end.ctx));
      end := AnteVerdictOf(antes[i], end.ctx, meter, halt, end.wanted);
      i := i + 1;
    }
  }

  datatype MsgsVerdict = MsgsVerdict(meter: Meter, code: nat, panicked: bool)

  ghost function MsgsWith(v: MsgsVerdict, m: Stores): MsgsEnd<Stores>
  {
    if v.panicked then MsgsPanicked(v.meter, v.code) else MsgsReturned(m, v.meter, v.code)
  }

  method RunMsgs(msgs: seq<Message>, ms: seq<KVStore>, meter: Meter) returns (end: MsgsVerdict)
    requires Usable(ms)
    modifies AllOf(ms)`cache, Own(ms)
    ensures Usable(ms)
    ensures MsgsWith(end, Views(ms)) == MsgLoop(msgs, old(Views(ms)), meter)
  {
    end := MsgsVerdict(meter, CODE_OK, false);
    ghost var all := MsgLoop(msgs, Views(ms), meter);
    for i := 0 to |msgs|
      invariant Usable(ms) && end.code == CODE_OK && !end.panicked
      invariant MsgLoop(msgs[i..], Views(ms), end.meter) == all
    {
      assert msgs[i..][1..] == msgs[i + 1..];
      if msgs[i].Unrouted? {
        return MsgsVerdict(end.meter, CODE_UNKNOWN_REQUEST, false);
      }
      var after, halt := Execute(msgs[i].handler, [], ms, end.meter);
      match halt
      case Crashed => return MsgsVerdict(after, CODE_INTERNAL, true);
      case RanOutOfGas => return MsgsVerdict(after, CODE_OUT_OF_GAS, true);
      case Finished(v) =>
        end := MsgsVerdict(after, v.code, false);
        if v.code != CODE_OK {
          return;
        }
    }
  }

  /** The messages run in a cache of their own, which is written in deliver mode if they are OK. */
  method RunMessages(mode: Mode, tx: Tx, ms: seq<KVStore>, meter: Meter) returns (end: MsgsVerdict)
    requires Usable(ms) && !mode.Check?
    modifies AllOf(ms)`cache, Own(ms)
    ensures Usable(ms)
    ensures end == MsgsVerdictOf(MsgLoop(tx.msgs, old(Views(ms)), meter))
    ensures Views(ms) == if mode.Deliver? && end.code == CODE_OK && !end.panicked
                       then MsgLoop(tx.msgs, old(Views(ms)), meter).state else old(Views(ms))
  {
    var msCache := CacheAll(ms);
    end := RunMsgsOver(tx.msgs, msCache, ms, meter);
    Land(msCache, ms, mode.Deliver? && !end.panicked && end.code == CODE_OK);
  }

  method RunMsgsOver(msgs: seq<Message>, cache: seq<KVStore>, ghost ms: seq<KVStore>, meter: Meter)
    returns (end: MsgsVerdict)
    requires Layer(cache, ms) && Own(cache) !! AllOf(ms) && Separate(ms)
    modifies AllOf(ms)`cache, Own(cache)
    ensures Layer(cache, ms) && Views(ms) == old(Views(ms))
    ensures MsgsWith(end, Views(cache)) == MsgLoop(msgs, old(Views(cache)), meter)
  {
    LayerIs(cache, ms);
    end := RunMsgs(msgs, cache, meter);
  }

  ghost function MsgsVerdictOf(end: MsgsEnd<Stores>): MsgsVerdict
  {
    MsgsVerdict(end.meter, end.code, end.MsgsPanicked?)
  }

  datatype BodyVerdict = BodyVerdict(ctx: Ctx, result: Result, panic: Option<nat>, wanted: nat)

  ghost function BodyWith(v: BodyVerdict, m: Stores): Body<Stores>
  {
    Body(m, v.ctx, v.result, v.panic, v.wanted)
  }

  method RunTxBody(mode: Mode, tx: Tx, ms: seq<KVStore>, start: Meter) returns (end: BodyVerdict)
    requires Usable(ms)
    requires tx.preprocess.Some? ==> ReadOnly(tx.preprocess.value)
    modifies AllOf(ms)`cache, Own(ms)
    ensures Usable(ms)
    ensures BodyWith(end, Views(ms)) == BodyEffect(mode, tx, start, old(Views(ms)))
  {
    var pre := Preprocess(tx, ms, start);
    var ctx0 := Ctx(pre.meter, None);
    if pre.verdict.PreFails? {
      return BodyVerdict(ctx0, Result(pre.verdict.code, 0, 0), None, 0);
    } else if pre.verdict.PrePanics? {
      return BodyVerdict(ctx0, NO_RESULT, Some(pre.verdict.code), 0);
    }
    var ante := RunAnte(tx, ms, ctx0);
    if ante.AnteAborted? {
      return BodyVerdict(ante.ctx, ante.result, None, ante.wanted);
    } else if ante.AntePanicked? {
      return BodyVerdict(ante.ctx, NO_RESULT, Some(ante.code), ante.wanted);
    }
    if mode.Check? {
      return BodyVerdict(ante.ctx, NO_RESULT, None, ante.wanted);
    }
    var msgs := RunMessages(mode, tx, ms, ante.ctx.meter);
    var ctx := ante.ctx.(meter := msgs.meter);
    if msgs.panicked {
      return BodyVerdict(ctx, NO_RESULT, Some(msgs.code), ante.wanted);
    }
    return BodyVerdict(ctx, Result(msgs.code, ante.wanted, msgs.meter.consumed), None, ante.wanted);
  }

  /** The refund runs in a cache of its own, which is written only if it succeeds. */
  method RunRefund(program: Program, ms: seq<KVStore>) returns (end: RefundEnd<()>)
    requires Usable(ms)
    modifies AllOf(ms)`cache, Own(ms)
    ensures Usable(ms)
    ensures var (m, _, halt) := Exec(program, [], old(Views(ms)), INFINITE);
            end == RefundVerdictOf(halt) && Views(ms) == if end.Refunded? then m else old(Views(ms))
  {
    var refundCache := CacheAll(ms);
    var halt := ExecuteOver(program, refundCache, ms);
    end := RefundVerdictOf(halt);
    Land(refundCache, ms, end.Refunded?);
  }

  method ExecuteOver(program: Program, cache: seq<KVStore>, ghost ms: seq<KVStore>) returns (halt: Halt)
    requires Layer(cache, ms) && Own(cache) !! AllOf(ms) && Separate(ms)
    modifies AllOf(ms)`cache, Own(cache)
    ensures Layer(cache, ms) && Views(ms) == old(Views(ms))
    ensures var (m, _, h) := Exec(program, [], old(Views(cache)), INFINITE);
            halt == h && Views(cache) == m
  {
    LayerIs(cache, ms);
    var meter;
    meter, halt := Execute(program, [], cache, INFINITE);
  }

  method Refund(tx: Tx, ms: seq<KVStore>, ctx: Ctx, result: Result) returns (end: RefundEnd<()>)
    requires Usable(ms)
    modifies AllOf(ms)`cache, Own(ms)
    ensures Usable(ms)
    ensures match RefundStage(tx, old(Views(ms)), ctx, result)
            case Refunded(m) => end == Refunded(()) && Views(ms) == m
            case RefundFailed => end == RefundFailed && Views(ms) == old(Views(ms))
            case RefundPanicked(code) => end == RefundPanicked(code) && Views(ms) == old(Views(ms))
  {
    var program := tx.refund(ctx.info, result);
    if program.None? {
      return Refunded(());
    }
    end := RunRefund(program.value, ms);
  }

  method RunDeferred(mode: Mode, tx: Tx, ms: seq<KVStore>, body: BodyVerdict, blockGas: Meter)
    returns (blockGas': Meter, result: Result)
    requires Usable(ms)
    modifies AllOf(ms)`cache, Own(ms)
    ensures Usable(ms)
    ensures TxEnd(Views(ms), blockGas', result)
         == Settle(mode, BodyWith(body, old(Views(ms))), blockGas, (x, c, r) => RefundStage(tx, x, c, r))
  {
    blockGas' := blockGas;
    var panic := body.panic;
    if mode.Deliver? {
      var (charged, charge) := Consume(blockGas, ConsumedToLimit(body.ctx.meter));
      blockGas' := charged;
      if !charge.Charged? {
        panic := Some(GasCode(charge));
      }
    }
    result := body.result.(gasUsed := body.ctx.meter.consumed);
    if !mode.Check? {
      var end := Refund(tx, ms, body.ctx, result);
      if end.RefundFailed? {
        result := Result(CODE_INTERNAL, 0, 0);
      } else if end.RefundPanicked? {
        panic := Some(end.code);
      }
    }
    result := Result(if panic.Some? then panic.value else result.code, body.wanted, body.ctx.meter.consumed);
  }

  /** runTx: whatever its handlers do, including panicking anywhere, the store is left holding
      exactly what the plain map semantics says. */
  method RunTxOn(mode: Mode, tx: Tx, ms: seq<KVStore>, start: Meter, blockGas: Meter)
    returns (blockGas': Meter, result: Result)
    requires Usable(ms)
    requires tx.preprocess.Some? ==> ReadOnly(tx.preprocess.value)
    modifies AllOf(ms)`cache, Own(ms)
    ensures Usable(ms)
    ensures TxEnd(Views(ms), blockGas', result) == TxEffect(mode, tx, start, old(Views(ms)), blockGas)
    ensures mode.Deliver? ==> Atomic(tx, start, old(Views(ms)), blockGas, Views(ms))
    ensures TxEnd(Views(ms), blockGas', result) == TxOutcome(mode, tx, start, old(Views(ms)), blockGas)
  {
    TxIs(mode, tx, start, Views(ms), blockGas);
    TxIsAtomic(tx, start, Views(ms), blockGas);
    if mode.Deliver? && IsOutOfGas(blockGas) {
      return blockGas, Result(CODE_OUT_OF_GAS, 0, 0);
    }
    if tx.rejected.Some? {
      return blockGas, Result(tx.rejected.value, 0, 0);
    }
    TxEffectSettles(mode, tx, start, Views(ms), blockGas);
    var body := RunTxBody(mode, tx, ms, start);
    blockGas', result := RunDeferred(mode, tx, ms, body, blockGas);
  }

  // ---- blocks ----

  /** A transaction in one layer over the committed trees leaves these and the other layer alone. */
  method RunTxOver(mode: Mode, tx: Tx, ms: seq<KVStore>, start: Meter, blockGas: Meter,
                   ghost cms: seq<KVStore>, ghost other: Option<seq<KVStore>>)
    returns (blockGas': Meter, result: Result)
    requires Trees(cms) && Layer(ms, cms) && Beside(other, ms, cms)
    requires tx.preprocess.Some? ==> ReadOnly(tx.preprocess.value)
    modifies Own(ms), Own(cms)
    ensures Trees(cms) && Layer(ms, cms) && Beside(other, ms, cms)
    ensures Views(cms) == old(Views(cms)) && ViewsOf(other) == old(ViewsOf(other))
    ensures var end := TxEffect(mode, tx, start, old(Views(ms)), blockGas);
            Views(ms) == end.state && blockGas' == end.blockGas && result == end.result
  {
    LayerIs(ms, cms);
    TreesOwn(cms);
    if other.Some? {
      LayerAgrees(other.value, cms);
      BesideIsApart(other.value, ms, cms);
    }
    blockGas', result := RunTxOn(mode, tx, ms, start, blockGas);
    LayerIs(ms, cms);
    if other.Some? {
      LayerAgrees(other.value, cms);
    }
  }

  /** So does a block hook. */
  method RunHookOver(blocker: Program, ms: seq<KVStore>, ghost cms: seq<KVStore>, ghost other: Option<seq<KVStore>>)
    requires Trees(cms) && Layer(ms, cms) && Beside(other, ms, cms)
    modifies Own(ms), Own(cms)
    ensures Trees(cms) && Layer(ms, cms) && Beside(other, ms, cms)
    ensures Views(cms) == old(Views(cms)) && ViewsOf(other) == old(ViewsOf(other))
    ensures Views(ms) == Exec(blocker, [], old(Views(ms)), INFINITE).0
  {
    LayerIs(ms, cms);
    TreesOwn(cms);
    if other.Some? {
      LayerAgrees(other.value, cms);
      BesideIsApart(other.value, ms, cms);
    }
    var _, _ := Execute(blocker, [], ms, INFINITE);
    LayerIs(ms, cms);
    if other.Some? {
      LayerAgrees(other.value, cms);
    }
  }

  /** A simulation runs in a cache of a layer, which is dropped. */
  method SimulateOver(tx: Tx, ms: seq<KVStore>, start: Meter, blockGas: Meter,
                      ghost cms: seq<KVStore>, ghost other: Option<seq<KVStore>>)
    returns (result: Result)
    requires Trees(cms) && Layer(ms, cms) && Beside(other, ms, cms)
    requires tx.preprocess.Some? ==> ReadOnly(tx.preprocess.value)
    modifies Own(ms), Own(cms)
    ensures Trees(cms) && Layer(ms, cms) && Beside(other, ms, cms)
    ensures Views(cms) == old(Views(cms)) && ViewsOf(other) == old(ViewsOf(other)) && Views(ms) == old(Views(ms))
    ensures result == TxEffect(Simulate, tx, start, Views(ms), blockGas).result
  {
    LayerIs(ms, cms);
    TreesOwn(cms);
    if other.Some? {
      LayerAgrees(other.value, cms);
      BesideIsApart(other.value, ms, cms);
    }
    result := SimulateOn(tx, ms, start, blockGas);
    LayerIs(ms, cms);
    if other.Some? {
      LayerAgrees(other.value, cms);
    }
  }

  method SimulateOn(tx: Tx, ms: seq<KVStore>, start: Meter, blockGas: Meter) returns (result: Result)
    requires Usable(ms)
    requires tx.preprocess.Some? ==> ReadOnly(tx.preprocess.value)
    modifies AllOf(ms)`cache
    ensures Usable(ms) && Views(ms) == old(Views(ms))
    ensures result == TxEffect(Simulate, tx, start, Views(ms), blockGas).result
  {
    var cache := CacheAll(ms);
    result := SimulateIn(tx, cache, ms, start, blockGas);
    LayerIs(cache, ms);
  }

  method SimulateIn(tx: Tx, cache: seq<KVStore>, ghost ms: seq<KVStore>, start: Meter, blockGas: Meter)
    returns (result: Result)
    requires Layer(cache, ms) && Own(cache) !! AllOf(ms) && Separate(ms)
    requires tx.preprocess.Some? ==> ReadOnly(tx.preprocess.value)
    modifies AllOf(ms)`cache, Own(cache)
    ensures Layer(cache, ms) && Views(ms) == old(Views(ms))
    ensures result == TxEffect(Simulate, tx, start, old(Views(cache)), blockGas).result
  {
    LayerIs(cache, ms);
    var gas;
    gas, result := RunTxOn(Simulate, tx, cache, start, blockGas);
  }

  /** The committed trees, with the layer of CheckTx and that of the block under way over them. */
  ghost predicate Layers(cms: seq<KVStore>, check: seq<KVStore>, deliver: Option<seq<KVStore>>)
    reads AllOf(cms), AllOf(check), if deliver.Some? then AllOf(deliver.value) else {}
  {
    Trees(cms) && Layer(check, cms) && Beside(deliver, check, cms)
  }

  ghost function StateOf(cms: seq<KVStore>, check: seq<KVStore>, deliver: Option<seq<KVStore>>,
                         blockGas: Meter): AppState
    reads cms, check, if deliver.Some? then Own(deliver.value) else {}
  {
    AppState(Views(cms), Views(check), ViewsOf(deliver), blockGas)
  }

  method OnCheck(tx: Tx, start: Meter, cms: seq<KVStore>, check: seq<KVStore>,
                 ghost deliver: Option<seq<KVStore>>, blockGas: Meter)
    returns (result: Result)
    requires Layers(cms, check, deliver) && EventOk(CheckTx(tx, start))
    modifies Own(cms), Own(check)
    ensures Layers(cms, check, deliver)
    ensures StateOf(cms, check, deliver, blockGas) ==
            Next(CheckTx(tx, start), old(StateOf(cms, check, deliver, blockGas)))
    ensures Some(result) == Report(CheckTx(tx, start), old(StateOf(cms, check, deliver, blockGas)))
  {
    var gas;
    gas, result := RunTxOver(Check, tx, check, start, blockGas, cms, deliver);
  }

  method OnDeliver(tx: Tx, start: Meter, cms: seq<KVStore>, ghost check: seq<KVStore>, deliver: seq<KVStore>,
                   blockGas: Meter)
    returns (blockGas': Meter, result: Result)
    requires Layers(cms, check, Some(deliver)) && EventOk(DeliverTx(tx, start))
    modifies Own(cms), Own(deliver)
    ensures Layers(cms, check, Some(deliver))
    ensures StateOf(cms, check, Some(deliver), blockGas') ==
            Next(DeliverTx(tx, start), old(StateOf(cms, check, Some(deliver), blockGas)))
    ensures Some(result) == Report(DeliverTx(tx, start), old(StateOf(cms, check, Some(deliver), blockGas)))
  {
    blockGas', result := RunTxOver(Deliver, tx, deliver, start, blockGas, cms, Some(check));
  }

  method OnHook(blocker: Program, cms: seq<KVStore>, ghost check: seq<KVStore>, deliver: seq<KVStore>,
                ghost blockGas: Meter)
    requires Layers(cms, check, Some(deliver))
    modifies Own(cms), Own(deliver)
    ensures Layers(cms, check, Some(deliver))
    ensures StateOf(cms, check, Some(deliver), blockGas) ==
            Next(Hook(blocker), old(StateOf(cms, check, Some(deliver), blockGas)))
  {
    RunHookOver(blocker, deliver, cms, Some(check));
  }

  method OnBeginBlock(maxGas: nat, cms: seq<KVStore>, ghost check: seq<KVStore>, ghost blockGas: Meter)
    returns (deliver: seq<KVStore>)
    requires Layers(cms, check, None)
    ensures Layers(cms, check, Some(deliver)) && fresh(Own(deliver))
    ensures StateOf(cms, check, Some(deliver), BlockMeter(maxGas)) ==
            Next(BeginBlock(maxGas), StateOf(cms, check, None, blockGas))
  {
    deliver := CacheAll(cms);
  }

  /** The layer of the block is written into the trees, and a new one opened over them. */
  method OnCommit(cms: seq<KVStore>, ghost check: seq<KVStore>, deliver: seq<KVStore>, ghost blockGas: Meter)
    returns (check': seq<KVStore>)
    requires Layers(cms, check, Some(deliver))
    modifies Own(cms), Own(deliver)
    ensures Layers(cms, check', None) && fresh(Own(check'))
    ensures StateOf(cms, check', None, blockGas) == Next(Commit, old(StateOf(cms, check, Some(deliver), blockGas)))
  {
    check' := CommitOver(deliver, cms);
  }

  method CommitOver(ms: seq<KVStore>, cms: seq<KVStore>) returns (check: seq<KVStore>)
    requires Trees(cms) && Layer(ms, cms)
    modifies Own(ms), Own(cms)
    ensures Trees(cms) && Layer(check, cms) && fresh(Own(check))
    ensures Views(cms) == old(Views(ms)) && Views(check) == old(Views(ms))
  {
    WriteAll(ms, cms);
    LayerIs(ms, cms);
    check := CacheAll(cms);
  }

  /** One ABCI call. */
  method Dispatch(e: Event, cms: seq<KVStore>, check: seq<KVStore>, deliver: Option<seq<KVStore>>, blockGas: Meter)
    returns (check': seq<KVStore>, deliver': Option<seq<KVStore>>, blockGas': Meter, result: Option<Result>)
    requires Layers(cms, check, deliver) && Legal(e, deliver.Some?) && EventOk(e)
    modifies Own(cms), Own(check), if deliver.Some? then Own(deliver.value) else {}
    ensures Layers(cms, check', deliver')
    ensures StateOf(cms, check', deliver', blockGas') == Next(e, old(StateOf(cms, check, deliver, blockGas)))
    ensures result == Report(e, old(StateOf(cms, check, deliver, blockGas)))
    ensures check' == check || fresh(Own(check'))
    ensures deliver' == deliver || deliver' == None || fresh(Own(deliver'.value))
  {
    check', deliver', blockGas', result := check, deliver, blockGas, None;
    match e
    case CheckTx(tx, start) =>
      var r := OnCheck(tx, start, cms, check, deliver, blockGas);
      result := Some(r);
    case SimulateTx(tx, start) =>
      var r := SimulateOver(tx, check, start, blockGas, cms, deliver);
      result := Some(r);
    case DeliverTx(tx, start) =>
      var r;
      blockGas', r := OnDeliver(tx, start, cms, check, deliver.value, blockGas);
      result := Some(r);
    case Hook(blocker) =>
      OnHook(blocker, cms, check, deliver.value, blockGas);
    case BeginBlock(maxGas) =>
      var ms := OnBeginBlock(maxGas, cms, check, blockGas);
      deliver', blockGas' := Some(ms), BlockMeter(maxGas);
    case Commit =>
      check' := OnCommit(cms, check, deliver.value, blockGas);
      deliver' := None;
  }

  class BaseApp {
    const cms: seq<KVStore>
    var checkState: seq<KVStore>
    var deliverState: Option<seq<KVStore>>
    var blockGas: Meter

    /** The stores of the block under way, if there is one. */
    function Delivering(): seq<KVStore>
      reads this
    {
      if deliverState.Some? then deliverState.value else []
    }

    ghost predicate Valid()
      reads this, AllOf(cms), AllOf(checkState), AllOf(Delivering())
    {
      Layers(cms, checkState, deliverState)
    }

    ghost function State(): AppState
      reads this, cms, checkState, Delivering()
    {
      StateOf(cms, checkState, deliverState, blockGas)
    }

    constructor (cms: seq<KVStore>)
      requires Trees(cms)
      ensures Valid() && this.cms == cms && fresh(Own(checkState)) && deliverState == None
      ensures State() == AppState(Views(cms), Views(cms), None, INFINITE)
    {
      var cache := CacheAll(cms);
      this.cms, checkState, deliverState, blockGas := cms, cache, None, INFINITE;
    }

    /** The check state, the state of the block and the committed state are kept apart: each ABCI
        call changes exactly what the plain description says. */
    method Handle(e: Event) returns (result: Option<Result>)
      requires Valid() && Legal(e, deliverState.Some?) && EventOk(e)
      modifies this, Own(cms), Own(checkState), Own(Delivering())
      ensures Valid() && State() == Next(e, old(State())) && result == Report(e, old(State()))
      ensures !e.Commit? ==> Views(cms) == old(Views(cms))
      ensures !e.CheckTx? && !e.Commit? ==> Views(checkState) == old(Views(checkState))
      ensures e.CheckTx? || e.SimulateTx? ==> Views(Delivering()) == old(Views(Delivering()))
      ensures e.BeginBlock? ==> deliverState.Some? && Views(Delivering()) == old(Views(cms))
      ensures e.Commit? ==> deliverState.None? && Views(cms) == Views(checkState) == old(Views(Delivering()))
      ensures e.BeginBlock? ==> blockGas.consumed == 0 && (blockGas.limited <==> e.maxGas > 0)
                                && (blockGas.limited ==> blockGas.limit == e.maxGas)
      ensures checkState == old(checkState) || fresh(Own(checkState))
      ensures deliverState == old(deliverState) || fresh(Own(Delivering()))
    {
      var check, deliver, gas;
      check, deliver, gas, result := Dispatch(e, cms, checkState, deliverState, blockGas);
      Store(check, deliver, gas);
    }

    method Store(check: seq<KVStore>, deliver: Option<seq<KVStore>>, gas: Meter)
      requires Layers(cms, check, deliver)
      modifies this`checkState, this`deliverState, this`blockGas
      ensures checkState == check && deliverState == deliver && blockGas == gas
      ensures Layers(cms, check, deliver) && StateOf(cms, check, deliver, gas) == old(StateOf(cms, check, deliver, gas))
    {
      checkState, deliverState, blockGas := check, deliver, gas;
    }
  }

  /** The whole life of an application over a loaded tree, with real stores throughout: whatever
      ABCI calls it gets, its three states are those of the plain description. */
  method Play(committed: Stores, events: seq<Event>) returns (app: BaseApp, results: seq<Option<Result>>)
    requires LegalRun(events, false) && forall i :: 0 <= i < |events| ==> EventOk(events[i])
    ensures fresh(app) && app.Valid()
    ensures app.State() == Run(events, AppState(committed, committed, None, INFINITE))
    ensures results == Reports(events, AppState(committed, committed, None, INFINITE))
  {
    var cms := LoadAll(committed);
    app := new BaseApp(cms);
    results := PlayOn(app, events);
  }

  method PlayOn(app: BaseApp, events: seq<Event>) returns (results: seq<Option<Result>>)
    requires app.Valid() && LegalRun(events, app.deliverState.Some?)
    requires forall i :: 0 <= i < |events| ==> EventOk(events[i])
    modifies app, Own(app.cms), Own(app.checkState), Own(app.Delivering())
    ensures app.Valid() && app.State() == Run(events, old(app.State()))
    ensures results == Reports(events, old(app.State()))
    decreases |events|
  {
    results := [];
    if events != [] {
      var first := app.Handle(events[0]);
      var rest := PlayOn(app, events[1..]);
      results := [first] + rest;
    }
  }
}
