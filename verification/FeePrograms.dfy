/** The fee pre-processing and the fee refund of the auth module as programs on the stores. */
module FeePrograms {
  import opened Bytes
  import opened Chain
  import opened KVStores
  import opened MultiStores
  import opened Gas
  import opened TxSpec
  import opened Handlers
  import opened Machines
  import opened Auth
  import opened AuthPrograms
  import Fees

  // ---- the refund ----

  datatype RefundStep =
    | Authorizing
    | Fetching
    | Repaying(coins: nat)
    | Drawing
    | Settling(pool: nat)
    | Ended
    | Failing

  const RETURNING := Handlers.Verdict(CODE_OK, 0, false, false, None)

  /** What the refund handler knows: the transaction, the fee payer's account as the ante handler
      left it, and the gas. */
  datatype Claim = Claim(tx: StdTx, first: Account, wanted: nat, used: nat)

  predicate Claimable(c: Claim)
  {
    Signers(c.tx) != [] && NativeFee(c.tx) >= 0
  }

  function Refundable(c: Claim): nat
    requires Claimable(c)
  {
    if c.wanted <= c.used then 0 else RefundAmount(NativeFee(c.tx), c.wanted, c.used)
  }

  function RefundAct(f: Formats, c: Claim, x: RefundStep): Action
  {
    if !Claimable(c) then Action.Panic
    else
      match x
      case Authorizing => Read(FEE_STORE, FEE_AUTH)
      case Fetching => Read(ACCOUNT_STORE, AccountKey(Signers(c.tx)[0]))
      case Repaying(coins) =>
        Put(ACCOUNT_STORE, AccountKey(Signers(c.tx)[0]), f.account.encode(c.first.(coins := coins)))
      case Drawing => Read(FEE_STORE, COLLECTED_FEES)
      case Settling(pool) => Put(FEE_STORE, COLLECTED_FEES, f.amount.encode(pool))
      case Ended => Finish(RETURNING)
      case Failing => Action.Panic
  }

  function RefundNext(f: Formats, c: Claim, x: RefundStep, answer: Answer): RefundStep
  {
    if !Claimable(c) then Failing
    else
      match x
      case Authorizing =>
        if !answer.Got? || answer.value.None? then Failing
        else if c.wanted <= c.used then Ended
        else if !MulFits(NativeFee(c.tx), c.wanted - c.used) then Failing
        else Fetching
      case Fetching =>
        if !answer.Got? || answer.value.None? then Failing
        else
          var coins := f.account.decode(answer.value.value).coins + Refundable(c);
          if coins >= INT_BOUND then Failing else Repaying(coins)
      case Repaying(_) => Drawing
      case Drawing =>
        if !answer.Got? || AmountAt(f, answer.value) < Refundable(c) then Failing
        else Settling(AmountAt(f, answer.value) - Refundable(c))
      case Settling(_) => Ended
      case _ => x
  }

  function RefundMachine(f: Formats, c: Claim): Machine<RefundStep>
  {
    Machine((x: RefundStep) => RefundAct(f, c, x), (x: RefundStep, answer: Answer) => RefundNext(f, c, x, answer))
  }

  const REFUND_STEPS := 6

  function RefundProgram(f: Formats, c: Claim): Program
  {
    Compiled(RefundMachine(f, c), Authorizing, REFUND_STEPS)
  }

  lemma {:induction false} EndedGoes(f: Formats, c: Claim, steps: nat, m: Stores)
    requires Claimable(c) && steps > 0
    ensures Free(RefundMachine(f, c), Ended, steps, m) == (m, 0, Finished(RETURNING))
    ensures Free(RefundMachine(f, c), Failing, steps, m) == (m, 0, Crashed)
  {
  }

  /** What is paid back leaves the pool, if it is there. */
  lemma {:induction false} RefundDraws(f: Formats, c: Claim, pool: nat, steps: nat, m: Stores)
    requires |m| >= STORES && pool == AmountAt(f, Lookup(m[FEE_STORE], COLLECTED_FEES)) && Claimable(c) && steps >= 3
    ensures var end := Free(RefundMachine(f, c), Drawing, steps, m);
            if Refundable(c) <= pool
            then end == (WithPool(f, m, pool - Refundable(c)), 0, Finished(RETURNING))
            else end.2 == Crashed
  {
    var k, due := RefundMachine(f, c), Refundable(c);
    ReadGoes(k, Drawing, steps, m);
    if due <= pool {
      PutGoes(k, Settling(pool - due), steps - 1, m);
      EndedGoes(f, c, steps - 2, WithPool(f, m, pool - due));
    } else {
      EndedGoes(f, c, steps - 1, m);
    }
  }

  /** The payer gets it, if it fits. */
  lemma {:induction false} RefundPays(f: Formats, c: Claim, known: map<Address, Account>, steps: nat, m: Stores)
    requires |m| >= STORES && HoldsAccounts(f, m[ACCOUNT_STORE], known) && Claimable(c) && steps >= 5
    ensures var k, payer := RefundMachine(f, c), Signers(c.tx)[0];
            if payer in known && known[payer].coins + Refundable(c) < INT_BOUND then
              var acc := c.first.(coins := known[payer].coins + Refundable(c));
              Free(k, Fetching, steps, m) == Free(k, Drawing, steps - 2, WithAccount(f, m, payer, acc))
            else Free(k, Fetching, steps, m).2 == Crashed
  {
    var k, payer := RefundMachine(f, c), Signers(c.tx)[0];
    ReadGoes(k, Fetching, steps, m);
    if payer in known && known[payer].coins + Refundable(c) < INT_BOUND {
      PutGoes(k, Repaying(known[payer].coins + Refundable(c)), steps - 1, m);
    } else {
      EndedGoes(f, c, steps - 1, m);
    }
  }

  /** The payer's account is written, and the pool. */
  ghost function Repaid(f: Formats, c: Claim, m: Stores, coins: nat, pool: nat): Stores
    requires |m| >= STORES && Claimable(c)
  {
    WithPool(f, WithAccount(f, m, Signers(c.tx)[0], c.first.(coins := coins)), pool)
  }

  lemma RepaidIs(f: Formats, c: Claim, m: Stores, coins: nat, pool: nat)
    requires Sound(f) && |m| >= STORES && Claimable(c)
    ensures AuthOf(f, Repaid(f, c, m, coins, pool))
         == AuthState(AuthOf(f, m).accounts[Signers(c.tx)[0] := c.first.(coins := coins)], pool)
  {
    var payer, acc := Signers(c.tx)[0], c.first.(coins := coins);
    AuthWithAccount(f, m, payer, acc);
    AuthWithPool(f, WithAccount(f, m, payer, acc), pool);
  }

  /** Nothing stands in the way of paying the payer back from the pool. */
  predicate Payable(c: Claim, known: map<Address, Account>, pool: nat)
    requires Claimable(c)
  {
    var payer, due := Signers(c.tx)[0], Refundable(c);
    payer in known && known[payer].coins + due < INT_BOUND && due <= pool
  }

  ghost predicate PaidBack(f: Formats, c: Claim, known: map<Address, Account>, pool: nat, m: Stores,
                           end: (Stores, nat, Halt))
    requires |m| >= STORES && Claimable(c)
  {
    if Payable(c, known, pool)
    then && end.0 == Repaid(f, c, m, known[Signers(c.tx)[0]].coins + Refundable(c), pool - Refundable(c))
         && end.2 == Finished(RETURNING)
    else end.2 == Crashed
  }

  lemma {:induction false} FetchGoes(f: Formats, c: Claim, known: map<Address, Account>, pool: nat, steps: nat,
                                     m: Stores)
    requires |m| >= STORES && HoldsAccounts(f, m[ACCOUNT_STORE], known) && Claimable(c) && steps >= 5
    requires pool == AmountAt(f, Lookup(m[FEE_STORE], COLLECTED_FEES))
    ensures PaidBack(f, c, known, pool, m, Free(RefundMachine(f, c), Fetching, steps, m))
  {
    var payer := Signers(c.tx)[0];
    RefundPays(f, c, known, steps, m);
    if payer in known && known[payer].coins + Refundable(c) < INT_BOUND {
      var acc := c.first.(coins := known[payer].coins + Refundable(c));
      RefundDraws(f, c, pool, steps - 2, WithAccount(f, m, payer, acc));
    }
  }

  /** The accounts and the pool after it. */
  function Payment(c: Claim, s: AuthState): AuthState
    requires Claimable(c) && Payable(c, s.accounts, s.pool)
  {
    var payer, due := Signers(c.tx)[0], Refundable(c);
    AuthState(s.accounts[payer := c.first.(coins := s.accounts[payer].coins + due)], s.pool - due)
  }

  lemma PaidBackIs(f: Formats, c: Claim, m: Stores, end: (Stores, nat, Halt))
    requires Sound(f) && |m| >= STORES && Claimable(c)
    requires PaidBack(f, c, AuthOf(f, m).accounts, AuthOf(f, m).pool, m, end)
    ensures Payable(c, AuthOf(f, m).accounts, AuthOf(f, m).pool) ==> AuthOf(f, end.0) == Payment(c, AuthOf(f, m))
  {
    var s := AuthOf(f, m);
    if Payable(c, s.accounts, s.pool) {
      var coins, pool := s.accounts[Signers(c.tx)[0]].coins + Refundable(c), s.pool - Refundable(c);
      assert end.0 == Repaid(f, c, m, coins, pool);
      RepaidIs(f, c, m, coins, pool);
    }
  }

  /** How the refund handler ends. */
  ghost predicate RefundOutcome(f: Formats, c: Claim, m: Stores, after: Stores, halt: Halt)
    requires Claimable(c)
  {
    if c.wanted <= c.used then after == m && halt == Finished(RETURNING)
    else if !MulFits(NativeFee(c.tx), c.wanted - c.used) || !Payable(c, AuthOf(f, m).accounts, AuthOf(f, m).pool)
    then halt == Crashed
    else halt == Finished(RETURNING) && AuthOf(f, after) == Payment(c, AuthOf(f, m))
  }

  /** This is what its description says. */
  lemma RefundIs(c: Claim, s: AuthState)
    requires Claimable(c) && c.used < c.wanted
    ensures RefundVerdict(s, c.tx, c.wanted, c.used).Done? <==>
              MulFits(NativeFee(c.tx), c.wanted - c.used) && Payable(c, s.accounts, s.pool)
    ensures RefundVerdict(s, c.tx, c.wanted, c.used).Done? ==>
              RefundState(s, c.tx, c.first, c.wanted, c.used) == Payment(c, s)
  {
  }

  lemma {:induction false} RefundGoes(f: Formats, c: Claim, steps: nat, m: Stores)
    requires HasFeeAuth(m) && Claimable(c) && steps > 0
    ensures var k := RefundMachine(f, c);
            Free(k, Authorizing, steps, m) ==
            Free(k, if c.wanted <= c.used then Ended
                  else if MulFits(NativeFee(c.tx), c.wanted - c.used) then Fetching else Failing, steps - 1, m)
  {
    ReadGoes(RefundMachine(f, c), Authorizing, steps, m);
  }

  lemma {:induction false} RefundEnds(f: Formats, c: Claim, steps: nat, m: Stores)
    requires Sound(f) && HasFeeAuth(m) && Claimable(c) && steps >= REFUND_STEPS
    ensures var end := Free(RefundMachine(f, c), Authorizing, steps, m);
            RefundOutcome(f, c, m, end.0, end.2)
  {
    RefundGoes(f, c, steps, m);
    EndedGoes(f, c, steps - 1, m);
    if c.wanted > c.used && MulFits(NativeFee(c.tx), c.wanted - c.used) {
      AccountsHeld(f, m[ACCOUNT_STORE]);
      FetchGoes(f, c, AuthOf(f, m).accounts, AuthOf(f, m).pool, steps - 1, m);
      PaidBackIs(f, c, m, Free(RefundMachine(f, c), Fetching, steps - 1, m));
    }
  }

  /** The refund program does what is described, from stores with the fee setting. Its meter has no
      limit. */
  lemma {:induction false} RefundRuns(f: Formats, c: Claim, m: Stores)
    requires Sound(f) && HasFeeAuth(m) && Claimable(c)
    ensures var end := Exec(RefundProgram(f, c), [], m, INFINITE);
            RefundOutcome(f, c, m, end.0, end.2)
  {
    var k := RefundMachine(f, c);
    CompiledGoes(k, Authorizing, [], REFUND_STEPS, m, INFINITE);
    NeedsNoGas(k, Authorizing, REFUND_STEPS, m);
    GasDecides(k, Authorizing, REFUND_STEPS, m, INFINITE);
    RefundEnds(f, c, REFUND_STEPS, m);
  }

  // ---- the fee pre-processing ----

  datatype PreStep =
    | Checking
    | Pricing(native: bool)
    | Sizing(native: bool, threshold: nat)
    | Judging(native: bool, threshold: nat)
    | Missing

  const CODE_INVALID_TX_FEE := 19

  function PreAct(tx: StdTx, x: PreStep): Action
  {
    match x
    case Checking => Read(FEE_STORE, FEE_AUTH)
    case Pricing(_) => Read(PARAM_STORE, GAS_PRICE_THRESHOLD)
    case Sizing(_, _) => Read(PARAM_STORE, TX_SIZE_LIMIT)
    case Judging(native, threshold) =>
      if NativeFee(tx) < 0 then Action.Panic
      else if tx.gas == 0 || tx.gas >= INT64_BOUND then Finish(RETURNING.(code := Fees.CODE_INVALID_GAS))
      else if !native then Finish(RETURNING.(code := CODE_INVALID_TX_FEE))
      else if NativeFee(tx) / tx.gas < threshold then Finish(RETURNING.(code := Fees.CODE_GAS_PRICE_TOO_LOW))
      else Finish(RETURNING)
    case Missing => Action.Panic
  }

  function PreNext(f: Formats, x: PreStep, answer: Answer): PreStep
  {
    if !answer.Got? || answer.value.None? then Missing
    else
      match x
      case Checking => Pricing(f.isNative(answer.value.value))
      case Pricing(native) => Sizing(native, f.amount.decode(answer.value.value))
      case Sizing(native, threshold) => Judging(native, threshold)
      case _ => Missing
  }

  function PreMachine(f: Formats, tx: StdTx): Machine<PreStep>
  {
    Machine((x: PreStep) => PreAct(tx, x), (x: PreStep, answer: Answer) => PreNext(f, x, answer))
  }

  function PreRank(x: PreStep): nat
  {
    match x
    case Checking => 3
    case Pricing(_) => 2
    case Sizing(_, _) => 1
    case _ => 0
  }

  const PRE_STEPS := 16

  /** The pre-processing over gas-charging stores. */
  function PreProgram(f: Formats, tx: StdTx): Program
  {
    Compiled(Charging(PreMachine(f, tx)), Idle(Checking), PRE_STEPS)
  }

  lemma PreOnlyReads(f: Formats, tx: StdTx)
    ensures ReadOnly(PreProgram(f, tx))
  {
    var p, k := PreProgram(f, tx), PreMachine(f, tx);
    forall history
      ensures !p.next(history).Put? && !p.next(history).Remove?
    {
      var x := StateAfter(Charging(k), Idle(Checking), history);
      assert p.next(history) == ChargingAct(k, x) && k.act(x.s) == PreAct(tx, x.s);
    }
  }

  /** The fee setting and the fee parameters are stored. */
  ghost predicate Stocked(m: Stores)
  {
    HasFeeAuth(m) && GAS_PRICE_THRESHOLD in m[PARAM_STORE] && TX_SIZE_LIMIT in m[PARAM_STORE]
  }

  /** And the setting names the native token. */
  ghost predicate Settled(f: Formats, m: Stores)
  {
    Stocked(m) && f.isNative(m[FEE_STORE][FEE_AUTH])
  }

  ghost function ThresholdOf(f: Formats, m: Stores): nat
    requires Stocked(m)
  {
    f.amount.decode(m[PARAM_STORE][GAS_PRICE_THRESHOLD])
  }

  ghost function PreCost(f: Formats, tx: StdTx, m: Stores): nat
  {
    Free(Charging(PreMachine(f, tx)), Idle(Checking), PRE_STEPS, m).1
  }

  lemma {:induction false} PreEnds(f: Formats, tx: StdTx, native: bool, steps: nat, m: Stores)
    requires Stocked(m) && native == f.isNative(m[FEE_STORE][FEE_AUTH]) && steps >= 4
    ensures var end := Free(PreMachine(f, tx), Checking, steps, m);
            var last := PreAct(tx, Judging(native, ThresholdOf(f, m)));
            end.0 == m && end.2 == if last.Finish? then Finished(last.verdict) else Crashed
  {
    var k := PreMachine(f, tx);
    ReadGoes(k, Checking, steps, m);
    ReadGoes(k, Pricing(native), steps - 1, m);
    ReadGoes(k, Sizing(native, ThresholdOf(f, m)), steps - 2, m);
  }

  /** The pre-processing does what is described, on a meter with room for its reads. Fees in another
      token are refused with code 19. */
  lemma {:induction false} PreRuns(f: Formats, tx: StdTx, m: Stores, meter: Meter)
    requires Stocked(m) && WithinLimit(meter) && HasRoom(meter, PreCost(f, tx, m))
    ensures var end, native := Exec(PreProgram(f, tx), [], m, meter), f.isNative(m[FEE_STORE][FEE_AUTH]);
            var last := PreAct(tx, Judging(native, ThresholdOf(f, m)));
            && end.1 == Spend(meter, PreCost(f, tx, m))
            && end.2 == (if last.Finish? then Finished(last.verdict) else Crashed)
            && (!native && NativeFee(tx) >= 0 && 0 < tx.gas < INT64_BOUND ==>
                  end.2 == Finished(Handlers.Verdict(19, 0, false, false, None)))
  {
    var k := PreMachine(f, tx);
    CompiledGoes(Charging(k), Idle(Checking), [], PRE_STEPS, m, meter);
    GasDecides(Charging(k), Idle(Checking), PRE_STEPS, m, meter);
    ChargingIsFaithful(k, x => PreRank(x), Checking, 4, PRE_STEPS, m);
    PreEnds(f, tx, f.isNative(m[FEE_STORE][FEE_AUTH]), 4, m);
  }
}
