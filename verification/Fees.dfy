/** Whole delivered transactions of protocol v0: what they cost, what they conserve, and that
    none of them can be delivered twice. */
module Fees {
  import opened Bytes
  import opened Chain
  import opened Gas
  import opened TxSpec
  import opened Sums
  import opened Auth
  import opened Arith

  const CODE_UNAUTHORIZED := 4
  const CODE_GAS_PRICE_TOO_LOW := 17
  const CODE_INVALID_GAS := 18

  /** One delivery of a transaction: the block it is in, the gas that the ante handler's own
      reads and writes cost, the signers' accounts as it leaves them in the context, and what the
      messages do. `start` is the context's meter when the fee was pre-processed. */
  datatype Delivery = Delivery(
    tx: StdTx, height: nat, threshold: nat, size: nat, rejected: Option<nat>, start: Meter, blockGas: Meter,
    anteCost: nat, signers: Bytes, msgs: (AuthState, Ctx) -> MsgsEnd<AuthState>)

  function Preprocess(d: Delivery): PreEnd
  {
    PreEnd(d.start,
           if d.height == 0 then PreOk
           else if NativeFee(d.tx) < 0 then PrePanics(CODE_INTERNAL)
           else if d.tx.gas == 0 || d.tx.gas >= INT64_BOUND then PreFails(CODE_INVALID_GAS)
           else if NativeFee(d.tx) / d.tx.gas < d.threshold then PreFails(CODE_GAS_PRICE_TOO_LOW)
           else PreOk)
  }

  /** The gas meter that the ante handler installs. */
  function AnteMeter(tx: StdTx, height: nat): Meter
  {
    if height == 0 then INFINITE else Meter(0, true, tx.gas)
  }

  ghost function Ante(d: Delivery, s: AuthState, ctx: Ctx): AnteEnd<AuthState>
  {
    var (meter, charge) := Consume(AnteMeter(d.tx, d.height), d.anteCost);
    if charge.OutOfGas? then
      AnteAborted(Ctx(meter, None), Result(CODE_OUT_OF_GAS, d.tx.gas, meter.consumed), 0)
    else if charge.Overflow? then AntePanicked(ctx, CODE_INTERNAL, 0)
    else
      match AnteVerdict(s, d.tx, d.height)
      case Fails => AnteAborted(Ctx(meter, None), Result(CODE_UNAUTHORIZED, 0, 0), 0)
      case Panic => AntePanicked(ctx, CODE_INTERNAL, 0)
      case Done =>
        var (meter', charge') := Consume(meter, BLOCK_STORE_COST_PER_BYTE * d.size);
        if charge'.Charged? then AntePassed(AnteState(s, d.tx), Ctx(meter', Some(d.signers)), d.tx.gas)
        else AntePanicked(Ctx(meter', Some(d.signers)), GasCode(charge'), d.tx.gas)
  }

  /** The fee payer's account as the ante handler leaves it. */
  ghost function FirstAccount(s: AuthState, tx: StdTx): Account
    requires ValidBasic(tx) && AllKnown(s.accounts, Signers(tx))
  {
    AnteState(s, tx).accounts[Signers(tx)[0]]
  }

  ghost function Refund(d: Delivery, s: AuthState, x: AuthState, ctx: Ctx, r: Result): RefundEnd<AuthState>
  {
    if ctx.info.None? || !ValidBasic(d.tx) || !AllKnown(s.accounts, Signers(d.tx)) then Refunded(x)
    else if !RefundVerdict(x, d.tx, r.gasWanted, r.gasUsed).Done? then RefundPanicked(CODE_INTERNAL)
    else Refunded(RefundState(x, d.tx, FirstAccount(s, d.tx), r.gasWanted, r.gasUsed))
  }

  ghost function Deliver(s: AuthState, d: Delivery): TxEnd<AuthState>
  {
    RunTx(Mode.Deliver, s, d.blockGas, d.rejected, x => Preprocess(d), (x, c) => Ante(d, x, c), d.msgs,
          (x, c, r) => Refund(d, s, x, c, r))
  }

  ghost function LandedOf(s: AuthState, d: Delivery): Landing
  {
    Landed(s, d.blockGas, d.rejected, x => Preprocess(d), (x, c) => Ante(d, x, c), d.msgs)
  }

  /** The context after a passing ante stage, and how the messages then end. */
  ghost function AnteCtx(s: AuthState, d: Delivery): Ctx
    requires !LandedOf(s, d).Nothing?
  {
    Ante(d, s, Ctx(d.start, None)).ctx
  }

  ghost function MsgsEndOf(s: AuthState, d: Delivery): MsgsEnd<AuthState>
    requires !LandedOf(s, d).Nothing?
  {
    d.msgs(Ante(d, s, Ctx(d.start, None)).state, AnteCtx(s, d))
  }

  lemma LandedMeans(s: AuthState, d: Delivery)
    requires !LandedOf(s, d).Nothing?
    ensures Ante(d, s, Ctx(d.start, None)).AntePassed? && Preprocess(d).verdict.PreOk?
    ensures AnteVerdict(s, d.tx, d.height).Done?
    ensures ValidBasic(d.tx) && AllKnown(s.accounts, Signers(d.tx))
    ensures Ante(d, s, Ctx(d.start, None)).state == AnteState(s, d.tx)
    ensures d.height > 0 ==> 0 < d.tx.gas < INT64_BOUND
  {
  }

  // ---- what a transaction costs ----

  function CeilDiv(a: nat, b: nat): nat
    requires b > 0
  {
    (a + b - 1) / b
  }

  /** What is kept of a fee is the used share of it, rounded up. */
  lemma KeptShare(fee: nat, wanted: nat, used: nat)
    requires used < wanted
    ensures RefundAmount(fee, wanted, used) <= fee
    ensures fee - RefundAmount(fee, wanted, used) == CeilDiv(fee * used, wanted)
  {
    var refund := RefundAmount(fee, wanted, used);
    assert fee * (wanted - used) == fee * wanted - fee * used;
    DivBounds(fee * (wanted - used), wanted);
    assert wanted * (fee + 1) == wanted * fee + wanted;
    MulCancel(wanted, refund, fee + 1);
    assert wanted * (fee - refund) == wanted * fee - wanted * refund;
    DivUnique(fee * used + wanted - 1, wanted, fee - refund);
  }

  /** What stands in the way of a refund: an amount that overflows, or a payer who is gone. */
  ghost predicate RefundFits(d: Delivery, x: AuthState, used: nat)
    requires ValidBasic(d.tx) && used < d.tx.gas
  {
    var payer := Signers(d.tx)[0];
    && MulFits(NativeFee(d.tx), d.tx.gas - used)
    && payer in x.accounts
    && x.accounts[payer].coins + RefundAmount(NativeFee(d.tx), d.tx.gas, used) < INT_BOUND
  }

  /** The state that the refund starts from: message writes count only if the messages were OK. */
  ghost function BeforeRefund(s: AuthState, d: Delivery): AuthState
    requires !LandedOf(s, d).Nothing?
  {
    LandedMeans(s, d);
    if LandedOf(s, d).AnteAndMessages? then MsgsEndOf(s, d).state else AnteState(s, d.tx)
  }

  /** Messages that land leave the pool as the ante stage left it. */
  ghost predicate PoolLeftAlone(s: AuthState, d: Delivery)
  {
    LandedOf(s, d).AnteAndMessages? ==> MsgsEndOf(s, d).state.pool == Ante(d, s, Ctx(d.start, None)).state.pool
  }

  /** Where a delivery that passed the ante stage ends: the refund, from the state before it,
      with no gas wanted if a message panicked. */
  lemma DeliverEnds(s: AuthState, d: Delivery)
    requires !LandedOf(s, d).Nothing?
    ensures var end := MsgsEndOf(s, d);
            var ctx := AnteCtx(s, d).(meter := end.meter);
            var wanted := if end.MsgsPanicked? then 0 else d.tx.gas;
            var code := if end.MsgsPanicked? then 0 else end.code;
            var last := Refund(d, s, BeforeRefund(s, d), ctx, Result(code, wanted, end.meter.consumed));
            Deliver(s, d).state == if last.Refunded? then last.state else BeforeRefund(s, d)
  {
    LandedMeans(s, d);
  }

  /** The state after a refund: if the messages returned and used less gas than the transaction wants,
      the fee payer gets the fee's share of the rest from the pool, in the account as the ante handler
      left it. A refund that does not fit, or that the pool does not have, is not paid. */
  ghost function PaidBack(d: Delivery, end: MsgsEnd<AuthState>, x: AuthState, first: Account): AuthState
    requires ValidBasic(d.tx)
  {
    var used, gas := end.meter.consumed, d.tx.gas;
    if end.MsgsPanicked? || used >= gas || !RefundFits(d, x, used) then x
    else
      var payer, share := Signers(d.tx)[0], NativeFee(d.tx) * (gas - used) / gas;
      if share > x.pool then x
      else AuthState(x.accounts[payer := first.(coins := x.accounts[payer].coins + share)], x.pool - share)
  }

  lemma DeliverPaysBack(s: AuthState, d: Delivery)
    requires !LandedOf(s, d).Nothing?
    ensures ValidBasic(d.tx) && AllKnown(s.accounts, Signers(d.tx))
    ensures Deliver(s, d).state == PaidBack(d, MsgsEndOf(s, d), BeforeRefund(s, d), FirstAccount(s, d.tx))
  {
    LandedMeans(s, d);
    DeliverEnds(s, d);
    RefundPaysBack(d, MsgsEndOf(s, d), s, BeforeRefund(s, d), AnteCtx(s, d));
  }

  lemma RefundPaysBack(d: Delivery, end: MsgsEnd<AuthState>, s: AuthState, x: AuthState, ctx: Ctx)
    requires ValidBasic(d.tx) && AllKnown(s.accounts, Signers(d.tx)) && ctx.info.Some?
    ensures var wanted := if end.MsgsPanicked? then 0 else d.tx.gas;
            var code := if end.MsgsPanicked? then 0 else end.code;
            var last := Refund(d, s, x, ctx.(meter := end.meter), Result(code, wanted, end.meter.consumed));
            PaidBack(d, end, x, FirstAccount(s, d.tx)) == if last.Refunded? then last.state else x
  {
    if end.MsgsReturned? && end.meter.consumed < d.tx.gas {
      assert RefundAmount(NativeFee(d.tx), d.tx.gas, end.meter.consumed) ==
             NativeFee(d.tx) * (d.tx.gas - end.meter.consumed) / d.tx.gas;
    }
  }

  /** What a transaction costs whose ante stage passed: the used share of the fee, rounded up,
      if its messages return, and the whole fee if one of them panics. */
  ghost function Price(d: Delivery, end: MsgsEnd<AuthState>, before: AuthState): nat
    requires ValidBasic(d.tx) && d.tx.gas > 0
  {
    if end.MsgsReturned? && end.meter.consumed < d.tx.gas && RefundFits(d, before, end.meter.consumed)
    then CeilDiv(NativeFee(d.tx) * end.meter.consumed, d.tx.gas)
    else NativeFee(d.tx)
  }

  /** A delivery whose ante stage fails changes nothing. */
  lemma FailedAnteIsFree(s: AuthState, d: Delivery)
    requires LandedOf(s, d).Nothing?
    ensures Deliver(s, d).state == s
  {
  }

  /** The collected-fees pool grows by exactly the price, whether the messages were OK or not
      and whatever the block gas meter does. */
  lemma PoolGrowth(s: AuthState, d: Delivery)
    requires d.height > 0 && PoolLeftAlone(s, d) && !LandedOf(s, d).Nothing?
    ensures ValidBasic(d.tx) && d.tx.gas > 0
    ensures Deliver(s, d).state.pool == s.pool + Price(d, MsgsEndOf(s, d), BeforeRefund(s, d))
  {
    LandedMeans(s, d);
    DeliverEnds(s, d);
    var end, before := MsgsEndOf(s, d), BeforeRefund(s, d);
    assert before.pool == s.pool + NativeFee(d.tx);
    if end.MsgsReturned? {
      RefundedPool(d, before, FirstAccount(s, d.tx), end.meter.consumed);
    }
  }

  /** The pool after the refund, from a pool that holds the fee. */
  lemma RefundedPool(d: Delivery, x: AuthState, first: Account, used: nat)
    requires ValidBasic(d.tx) && d.tx.gas > 0 && NativeFee(d.tx) <= x.pool
    ensures RefundVerdict(x, d.tx, d.tx.gas, used).Done? <==> d.tx.gas <= used || RefundFits(d, x, used)
    ensures RefundVerdict(x, d.tx, d.tx.gas, used).Done? ==>
              RefundState(x, d.tx, first, d.tx.gas, used).pool ==
                x.pool - NativeFee(d.tx)
                + (if used < d.tx.gas then CeilDiv(NativeFee(d.tx) * used, d.tx.gas) else NativeFee(d.tx))
  {
    if used < d.tx.gas {
      KeptShare(NativeFee(d.tx), d.tx.gas, used);
    }
  }

  // ---- amounts that always fit ----

  lemma {:induction false} BitLenBound(n: nat, k: nat)
    requires n < Pow2(k)
    ensures BitLen(n) <= k
  {
    if n > 0 { BitLenBound(n / 2, k - 1); }
  }

  lemma {:induction false} BitLenFits(n: nat)
    ensures n < Pow2(BitLen(n))
  {
    if n > 0 { BitLenFits(n / 2); }
  }

  /** A product fits exactly when it has at most 255 bits and its factors at most 256 together. */
  lemma MulFitsIff(a: nat, b: nat)
    ensures MulFits(a, b) <==>
      a * b < INT_BOUND && exists i: nat, j: nat :: a < Pow2(i) && b < Pow2(j) && i + j <= 256
  {
    BitLenFits(a);
    BitLenFits(b);
    if i: nat, j: nat :| a < Pow2(i) && b < Pow2(j) && i + j <= 256 {
      BitLenBound(a, i);
      BitLenBound(b, j);
    }
  }

  /** No refund of a fee below 2^192 overflows. */
  lemma OrdinaryFeesFit(fee: nat, gas: nat)
    requires fee < Pow2(192) && gas < INT64_BOUND
    ensures MulFits(fee, gas)
  {
    Pow2Values();
    Pow2Sum(192, 63);
    BitLenBound(fee, 192);
    BitLenBound(gas, 63);
    ProductBound(fee, gas, Pow2(192), Pow2(63));
  }

  // ---- what a transaction conserves ----

  ghost function Coins(accounts: map<Address, Account>): map<Address, int>
  {
    map a | a in accounts :: accounts[a].coins
  }

  /** All balances and the collected fees. */
  ghost function Total(s: AuthState): int
  {
    Sum(Coins(s.accounts)) + s.pool
  }

  lemma AnteCoins(s: AuthState, tx: StdTx)
    requires ValidBasic(tx) && AllKnown(s.accounts, Signers(tx))
    ensures Coins(AnteState(s, tx).accounts)
         == Coins(s.accounts)[Signers(tx)[0] := Paid(s.accounts[Signers(tx)[0]], NativeFee(tx)).coins]
  {
    var signers := Signers(tx);
    DedupIsDistinct(Flatten(tx.msgSigners));
    IndexOfDistinct(signers, 0);
    assert signers[..|tx.sigs|] == signers;
    var payer := signers[0];
    var after := AnteState(s, tx).accounts;
    forall a | a in s.accounts
      ensures after[a].coins == if a == payer then Paid(s.accounts[payer], NativeFee(tx)).coins else s.accounts[a].coins
    {
      if a in signers { assert IndexOf(signers, a) == 0 <==> a == payer; }
    }
  }

  lemma AnteConserves(s: AuthState, tx: StdTx, height: nat)
    requires AnteVerdict(s, tx, height).Done?
    ensures Total(AnteState(s, tx)) == Total(s)
  {
    AnteCoins(s, tx);
    var payer := Signers(tx)[0];
    SumUpdate(Coins(s.accounts), payer, Paid(s.accounts[payer], NativeFee(tx)).coins);
  }

  lemma RefundConserves(s: AuthState, tx: StdTx, first: Account, wanted: nat, used: nat)
    requires Signers(tx) != [] && NativeFee(tx) >= 0 && RefundVerdict(s, tx, wanted, used).Done?
    ensures Total(RefundState(s, tx, first, wanted, used)) == Total(s)
  {
    if wanted > used {
      var refund := RefundAmount(NativeFee(tx), wanted, used);
      var payer := Signers(tx)[0];
      var coins := s.accounts[payer].coins + refund;
      SumUpdate(Coins(s.accounts), payer, coins);
      assert Coins(s.accounts[payer := first.(coins := coins)]) == Coins(s.accounts)[payer := coins];
    }
  }

  /** Messages that land conserve money. */
  ghost predicate MoneyConserved(s: AuthState, d: Delivery)
  {
    LandedOf(s, d).AnteAndMessages? ==> Total(MsgsEndOf(s, d).state) == Total(Ante(d, s, Ctx(d.start, None)).state)
  }

  /** A delivered transaction whose messages conserve money conserves money. */
  lemma DeliverConserves(s: AuthState, d: Delivery)
    requires MoneyConserved(s, d)
    ensures Total(Deliver(s, d).state) == Total(s)
  {
    if LandedOf(s, d).Nothing? {
      FailedAnteIsFree(s, d);
    } else {
      LandedMeans(s, d);
      DeliverEnds(s, d);
      AnteConserves(s, d.tx, d.height);
      var end := MsgsEndOf(s, d);
      var before := BeforeRefund(s, d);
      assert Total(before) == Total(s);
      var wanted := if end.MsgsPanicked? then 0 else d.tx.gas;
      if RefundVerdict(before, d.tx, wanted, end.meter.consumed).Done? {
        RefundConserves(before, d.tx, FirstAccount(s, d.tx), wanted, end.meter.consumed);
      }
    }
  }

  // ---- sequences and replay ----

  /** A passing ante handler raises the sequence of every signer by exactly one, modulo 2^64,
      and of nobody else; no account comes or goes. */
  lemma AnteSequences(s: AuthState, tx: StdTx, a: Address)
    requires ValidBasic(tx) && AllKnown(s.accounts, Signers(tx)) && a in s.accounts
    ensures a in AnteState(s, tx).accounts
    ensures AnteState(s, tx).accounts[a].sequence
         == if a in Signers(tx) then (s.accounts[a].sequence + 1) % UINT64_BOUND else s.accounts[a].sequence
  {
    assert Signers(tx)[..|tx.sigs|] == Signers(tx);
  }

  /** Accounts stay, and none of their sequences goes down. */
  ghost predicate SequencesGrow(s: AuthState, t: AuthState)
  {
    forall a :: a in s.accounts ==> a in t.accounts && s.accounts[a].sequence <= t.accounts[a].sequence
  }

  /** Messages that land may create accounts but do not remove any and do not change sequences. */
  ghost predicate SequencesKept(s: AuthState, d: Delivery)
  {
    LandedOf(s, d).AnteAndMessages? ==>
      var x, y := Ante(d, s, Ctx(d.start, None)).state, MsgsEndOf(s, d).state;
      forall a :: a in x.accounts ==> a in y.accounts && y.accounts[a].sequence == x.accounts[a].sequence
  }

  ghost predicate NoWrap(s: AuthState)
  {
    forall a :: a in s.accounts ==> s.accounts[a].sequence < UINT64_BOUND - 1
  }

  lemma NextSequence(sequence: nat)
    requires sequence < UINT64_BOUND - 1
    ensures (sequence + 1) % UINT64_BOUND == sequence + 1
  {
  }

  lemma AnteGrows(s: AuthState, tx: StdTx)
    requires ValidBasic(tx) && AllKnown(s.accounts, Signers(tx)) && NoWrap(s)
    ensures SequencesGrow(s, AnteState(s, tx))
  {
    var t := AnteState(s, tx);
    forall a | a in s.accounts
      ensures a in t.accounts && s.accounts[a].sequence <= t.accounts[a].sequence
    {
      AnteSequences(s, tx, a);
      NextSequence(s.accounts[a].sequence);
    }
  }

  /** The refund writes back the account of the ante stage: its sequence is the same one. */
  lemma DeliverGrows(s: AuthState, d: Delivery)
    requires SequencesKept(s, d) && NoWrap(s)
    ensures SequencesGrow(s, Deliver(s, d).state)
    ensures !LandedOf(s, d).Nothing? ==>
              ValidBasic(d.tx) && AllKnown(s.accounts, Signers(d.tx))
              && SequencesGrow(AnteState(s, d.tx), Deliver(s, d).state)
  {
    if LandedOf(s, d).Nothing? {
      FailedAnteIsFree(s, d);
    } else {
      LandedMeans(s, d);
      AnteGrows(s, d.tx);
      DeliverEnds(s, d);
      var before := BeforeRefund(s, d);
      assert SequencesGrow(AnteState(s, d.tx), before);
      var payer := Signers(d.tx)[0];
      assert payer in AnteState(s, d.tx).accounts;
      assert before.accounts[payer].sequence == FirstAccount(s, d.tx).sequence;
    }
  }

  /** Any number of deliveries, none of which lets a sequence wrap around. */
  ghost predicate FairRun(s: AuthState, ds: seq<Delivery>)
    decreases |ds|
  {
    NoWrap(s) &&
    (ds == [] || (SequencesKept(s, ds[0]) && FairRun(Deliver(s, ds[0]).state, ds[1..])))
  }

  ghost function DeliverAll(s: AuthState, ds: seq<Delivery>): AuthState
    decreases |ds|
  {
    if ds == [] then s else DeliverAll(Deliver(s, ds[0]).state, ds[1..])
  }

  lemma {:induction false} RunGrows(s: AuthState, ds: seq<Delivery>)
    requires FairRun(s, ds)
    ensures SequencesGrow(s, DeliverAll(s, ds))
    decreases |ds|
  {
    if ds != [] {
      DeliverGrows(s, ds[0]);
      RunGrows(Deliver(s, ds[0]).state, ds[1..]);
    }
  }

  lemma StaleSequence(s: AuthState, tx: StdTx, height: nat)
    requires ValidBasic(tx) && Signers(tx)[0] in s.accounts
    requires tx.sigs[0].sequence != s.accounts[Signers(tx)[0]].sequence
    ensures !AnteVerdict(s, tx, height).Done?
  {
    if AllKnown(s.accounts, Signers(tx)) {
      assert !NumbersMatch(s.accounts[Signers(tx)[0]], tx.sigs[0], height);
    }
  }

  lemma SignatureMatches(s: AuthState, tx: StdTx, height: nat)
    requires AnteVerdict(s, tx, height).Done?
    ensures Signers(tx)[0] in s.accounts && tx.sigs[0].sequence == s.accounts[Signers(tx)[0]].sequence
  {
    assert NumbersMatch(s.accounts[Signers(tx)[0]], tx.sigs[0], height);
  }

  /** A transaction whose ante writes were applied never passes the ante handler again, in
      whatever block it is offered and whatever was delivered in between. */
  lemma NoReplay(s: AuthState, d: Delivery, between: seq<Delivery>, height: nat)
    requires !LandedOf(s, d).Nothing? && NoWrap(s) && SequencesKept(s, d)
    requires FairRun(Deliver(s, d).state, between)
    ensures !AnteVerdict(DeliverAll(Deliver(s, d).state, between), d.tx, height).Done?
  {
    LandedMeans(s, d);
    DeliverGrows(s, d);
    RunGrows(Deliver(s, d).state, between);
    PassedOnce(s, d.tx, d.height, Deliver(s, d).state, DeliverAll(Deliver(s, d).state, between), height);
  }

  lemma PassedOnce(s: AuthState, tx: StdTx, height: nat, t: AuthState, end: AuthState, later: nat)
    requires AnteVerdict(s, tx, height).Done? && NoWrap(s)
    requires SequencesGrow(AnteState(s, tx), t) && SequencesGrow(t, end)
    ensures !AnteVerdict(end, tx, later).Done?
  {
    SignatureMatches(s, tx, height);
    AnteSequences(s, tx, Signers(tx)[0]);
    StaleSequence(end, tx, later);
  }
}
