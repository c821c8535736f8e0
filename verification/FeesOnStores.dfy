/** Fees on the real multistore: what is proved of deliveries over accounts and the fee pool holds
    of the stores that the application runner leaves. */
module FeesOnStores {
  import opened Bytes
  import opened KVStores
  import opened MultiStores
  import opened Gas
  import opened TxSpec
  import opened Handlers
  import opened Transactions
  import opened BaseApps
  import Auth
  import Fees

  /** How accounts and the pool are read from the stores. */
  type Reading = Stores -> Auth.AuthState

  /** The handler programs of a transaction do to accounts and pool what its delivery describes,
      from the stores `m` and wherever the delivery comes to from there. The refund handler gets the
      fee payer's account from the ante handler, so from the start. */
  ghost predicate Implements(read: Reading, tx: Tx, d: Fees.Delivery, start: Meter, m: Stores)
  {
    var ante := AnteStage(tx, m, Ctx(d.start, None));
    var body := BodyEffect(Deliver, tx, start, m);
    var result := body.result.(gasUsed := body.ctx.meter.consumed);
    && tx.rejected == d.rejected
    && PreStage(tx, m, start) == Fees.Preprocess(d)
    && MapAnte(read, ante) == Fees.Ante(d, read(m), Ctx(d.start, None))
    && (ante.AntePassed? ==>
          d.msgs(read(ante.state), ante.ctx) == MapMsgs(read, MsgLoop(tx.msgs, ante.state, ante.ctx.meter)))
    && Fees.Refund(d, read(m), read(body.state), body.ctx, result)
         == MapRefund(read, RefundStage(tx, body.state, body.ctx, result))
  }

  /** Then a delivery through the application runner is the delivery that is described. */
  lemma DeliverImplements(read: Reading, tx: Tx, d: Fees.Delivery, start: Meter, m: Stores)
    requires Implements(read, tx, d, start, m)
    ensures var end := TxEffect(Deliver, tx, start, m, d.blockGas);
            Fees.Deliver(read(m), d) == TxEnd(read(end.state), end.blockGas, end.result)
  {
    RunTxMaps(read, Deliver, m, d.blockGas, d.rejected,
              x => PreStage(tx, x, start), (x, c) => AnteStage(tx, x, c),
              (x, c: Ctx) => MsgLoop(tx.msgs, x, c.meter), (x, c, r) => RefundStage(tx, x, c, r),
              x => Fees.Preprocess(d), (x, c) => Fees.Ante(d, x, c), d.msgs,
              (x, c, r) => Fees.Refund(d, read(m), x, c, r));
  }

  /** A delivery on real stores with their caches: the money is conserved if the messages conserve
      it, a failed ante stage is free, and otherwise the pool has grown by exactly the price,
      whatever failed or panicked. */
  method DeliverOnStores(tx: Tx, ms: seq<KVStore>, start: Meter, blockGas: Meter,
                         ghost read: Reading, ghost d: Fees.Delivery)
    returns (blockGas': Meter, result: Result)
    requires Usable(ms) && (tx.preprocess.Some? ==> ReadOnly(tx.preprocess.value))
    requires d.blockGas == blockGas && Implements(read, tx, d, start, Views(ms))
    modifies AllOf(ms)`cache, Own(ms)
    ensures Usable(ms)
    ensures Fees.Deliver(old(read(Views(ms))), d) == TxEnd(read(Views(ms)), blockGas', result)
    ensures Fees.MoneyConserved(old(read(Views(ms))), d) ==>
      Fees.Total(read(Views(ms))) == Fees.Total(old(read(Views(ms))))
    ensures Fees.LandedOf(old(read(Views(ms))), d).Nothing? ==> read(Views(ms)) == old(read(Views(ms)))
    ensures var s := old(read(Views(ms)));
      d.height > 0 && Fees.PoolLeftAlone(s, d) && !Fees.LandedOf(s, d).Nothing? ==>
      Auth.ValidBasic(d.tx) && d.tx.gas > 0 &&
      read(Views(ms)).pool == s.pool + Fees.Price(d, Fees.MsgsEndOf(s, d), Fees.BeforeRefund(s, d))
  {
    ghost var m := Views(ms);
    DeliverImplements(read, tx, d, start, m);
    FeesOf(read(m), d);
    blockGas', result := RunTxOn(Deliver, tx, ms, start, blockGas);
  }

  lemma FeesOf(s: Auth.AuthState, d: Fees.Delivery)
    ensures Fees.MoneyConserved(s, d) ==> Fees.Total(Fees.Deliver(s, d).state) == Fees.Total(s)
    ensures Fees.LandedOf(s, d).Nothing? ==> Fees.Deliver(s, d).state == s
    ensures d.height > 0 && Fees.PoolLeftAlone(s, d) && !Fees.LandedOf(s, d).Nothing? ==>
      Auth.ValidBasic(d.tx) && d.tx.gas > 0 &&
      Fees.Deliver(s, d).state.pool == s.pool + Fees.Price(d, Fees.MsgsEndOf(s, d), Fees.BeforeRefund(s, d))
  {
    if Fees.MoneyConserved(s, d) {
      Fees.DeliverConserves(s, d);
    }
    if Fees.LandedOf(s, d).Nothing? {
      Fees.FailedAnteIsFree(s, d);
    } else if d.height > 0 && Fees.PoolLeftAlone(s, d) {
      Fees.PoolGrowth(s, d);
    }
  }
}
