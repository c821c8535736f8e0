/** The accounts and the collected fees in the stores, and the ante handler as a machine that reads
    and writes them. */
module AuthPrograms {
  import opened Bytes
  import opened Chain
  import opened Iterators
  import opened KVStores
  import opened MultiStores
  import opened TxSpec
  import opened Handlers
  import opened Machines
  import opened Auth
  import Fees

  // ---- accounts and the pool in the stores ----

  const ACCOUNT_STORE := 0
  const FEE_STORE := 1
  const PARAM_STORE := 2
  const STORES := 3

  const ACCOUNT_PREFIX := Text("account:")
  const COLLECTED_FEES := Text("collectedFees")
  const FEE_AUTH := Text("feeAuth")
  const GAS_PRICE_THRESHOLD := Text("auth/gasPriceThreshold")
  const TX_SIZE_LIMIT := Text("auth/txSizeLimit")

  /** How accounts and amounts are stored, and whether a stored fee setting names the native token. */
  datatype Formats = Formats(account: Codec<Account>, amount: Codec<nat>, isNative: Bytes -> bool)

  ghost predicate Sound(f: Formats)
  {
    Faithful(f.account) && Faithful(f.amount)
  }

  function AccountKey(a: Address): Bytes
  {
    ACCOUNT_PREFIX + a.bytes
  }

  ghost function Holders(m: Store): set<Address>
  {
    set k | k in m && HasPrefix(k, ACCOUNT_PREFIX) :: Address(k[|ACCOUNT_PREFIX|..])
  }

  ghost function Accounts(f: Formats, m: Store): map<Address, Account>
  {
    map a | a in Holders(m) :: AccountOf(f, Lookup(m, AccountKey(a)))
  }

  function AccountOf(f: Formats, value: Option<Bytes>): Account
  {
    f.account.decode(if value.Some? then value.value else [])
  }

  function AmountAt(f: Formats, value: Option<Bytes>): nat
  {
    if value.Some? then f.amount.decode(value.value) else 0
  }

  ghost function AuthOf(f: Formats, m: Stores): AuthState
  {
    if |m| < STORES then AuthState(map[], 0)
    else AuthState(Accounts(f, m[ACCOUNT_STORE]), AmountAt(f, Lookup(m[FEE_STORE], COLLECTED_FEES)))
  }

  lemma AccountAt(f: Formats, m: Store, a: Address)
    ensures a in Accounts(f, m) <==> AccountKey(a) in m
    ensures a in Accounts(f, m) ==> Accounts(f, m)[a] == f.account.decode(m[AccountKey(a)])
  {
    var key := AccountKey(a);
    assert HasPrefix(key, ACCOUNT_PREFIX) && key[|ACCOUNT_PREFIX|..] == a.bytes;
    if a in Holders(m) {
      var k :| k in m && HasPrefix(k, ACCOUNT_PREFIX) && a == Address(k[|ACCOUNT_PREFIX|..]);
      assert k == key;
    }
  }

  lemma AccountPut(f: Formats, m: Store, a: Address, acc: Account)
    requires Sound(f)
    ensures Accounts(f, m[AccountKey(a) := f.account.encode(acc)]) == Accounts(f, m)[a := acc]
  {
    var m' := m[AccountKey(a) := f.account.encode(acc)];
    forall b: Address
      ensures b in Accounts(f, m') <==> b in Accounts(f, m)[a := acc]
      ensures b in Accounts(f, m') ==> Accounts(f, m')[b] == Accounts(f, m)[a := acc][b]
    {
      AccountAt(f, m, b);
      AccountAt(f, m', b);
      assert AccountKey(b) == AccountKey(a) <==> b == a by {
        assert AccountKey(b)[|ACCOUNT_PREFIX|..] == b.bytes && AccountKey(a)[|ACCOUNT_PREFIX|..] == a.bytes;
      }
    }
  }

  /** The stores with one account, or with the pool, written. */
  ghost function WithAccount(f: Formats, m: Stores, a: Address, acc: Account): Stores
    requires |m| >= STORES
  {
    m[ACCOUNT_STORE := m[ACCOUNT_STORE][AccountKey(a) := f.account.encode(acc)]]
  }

  ghost function WithPool(f: Formats, m: Stores, pool: nat): Stores
    requires |m| >= STORES
  {
    m[FEE_STORE := m[FEE_STORE][COLLECTED_FEES := f.amount.encode(pool)]]
  }

  lemma AuthWithAccount(f: Formats, m: Stores, a: Address, acc: Account)
    requires Sound(f) && |m| >= STORES
    ensures AuthOf(f, WithAccount(f, m, a, acc)) == AuthOf(f, m).(accounts := AuthOf(f, m).accounts[a := acc])
  {
    AccountPut(f, m[ACCOUNT_STORE], a, acc);
  }

  lemma AuthWithPool(f: Formats, m: Stores, pool: nat)
    requires Sound(f) && |m| >= STORES
    ensures AuthOf(f, WithPool(f, m, pool)) == AuthOf(f, m).(pool := pool)
  {
  }

  /** The fee setting is stored. */
  ghost predicate HasFeeAuth(m: Stores)
  {
    |m| >= STORES && FEE_AUTH in m[FEE_STORE]
  }

  lemma KeysDiffer()
    ensures FEE_AUTH != COLLECTED_FEES
  {
    assert |FEE_AUTH| != |COLLECTED_FEES|;
  }

  /** What reading an account answers. */
  ghost predicate HoldsAccounts(f: Formats, m: Store, known: map<Address, Account>)
  {
    forall a: Address ::
      var value := Lookup(m, AccountKey(a));
      if a in known then value.Some? && f.account.decode(value.value) == known[a] else value.None?
  }

  lemma AccountsHeld(f: Formats, m: Store)
    ensures HoldsAccounts(f, m, Accounts(f, m))
  {
    forall a: Address { AccountAt(f, m, a); }
  }

  // ---- the ante handler ----

  /** Where the ante handler is: reading the signers' accounts, reading or writing the pool,
      verifying a signature, writing its account, or at an end. */
  datatype AnteStep =
    | Loading(accs: seq<Account>)
    | Collecting(accs: seq<Account>)
    | Crediting(accs: seq<Account>, pool: nat)
    | Verifying(accs: seq<Account>, i: nat)
    | Saving(accs: seq<Account>, i: nat)
    | Passed(accs: seq<Account>)
    | Refused
    | Broken

  const ED25519_VERIFY_COST := 59
  const SECP256K1_VERIFY_COST := 100

  /** An account for every signer, and a signer for every signature. */
  predicate Lined(tx: StdTx, accs: seq<Account>)
  {
    |accs| == |tx.sigs| == |Signers(tx)| && |tx.sigs| > 0
  }

  function NextSig(tx: StdTx, accs: seq<Account>, i: nat): AnteStep
  {
    if !Lined(tx, accs) then Broken
    else if i >= |tx.sigs| then Passed(accs)
    else
      var key := KeyOf(accs[i], tx.sigs[i]);
      if key.None? || (accs[i].pubKey.None? && key.value.address != Signers(tx)[i]) then Refused
      else if key.value.kind.OtherKey? then Broken
      else Verifying(accs, i)
  }

  /** All accounts are read: their numbers are checked and the payer's copy pays. */
  function Loaded(tx: StdTx, height: nat, accs: seq<Account>): AnteStep
  {
    if !Lined(tx, accs) then Broken
    else if exists i :: 0 <= i < |accs| && !NumbersMatch(accs[i], tx.sigs[i], height) then Refused
    else if NativeFee(tx) <= 0 then NextSig(tx, accs, 0)
    else if accs[0].coins < NativeFee(tx) then Refused
    else Collecting(accs)
  }

  function AnteAct(f: Formats, tx: StdTx, x: AnteStep): Action
  {
    match x
    case Loading(accs) =>
      if |accs| < |Signers(tx)| then Read(ACCOUNT_STORE, AccountKey(Signers(tx)[|accs|])) else Action.Panic
    case Collecting(_) => Read(FEE_STORE, COLLECTED_FEES)
    case Crediting(_, pool) => Put(FEE_STORE, COLLECTED_FEES, f.amount.encode(pool))
    case Verifying(accs, i) =>
      if !Lined(tx, accs) || i >= |accs| || KeyOf(accs[i], tx.sigs[i]).None? then Action.Panic
      else Burn(if KeyOf(accs[i], tx.sigs[i]).value.kind.Ed25519? then ED25519_VERIFY_COST else SECP256K1_VERIFY_COST)
    case Saving(accs, i) =>
      if !Lined(tx, accs) || i >= |accs| then Action.Panic
      else Put(ACCOUNT_STORE, AccountKey(Signers(tx)[i]), f.account.encode(accs[i]))
    case Passed(accs) => if accs == [] then Action.Panic else Finish(Accepting(f, tx, accs[0]))
    case Refused => Finish(REFUSING)
    case Broken => Action.Panic
  }

  function AnteNext(f: Formats, tx: StdTx, height: nat, x: AnteStep, answer: Answer): AnteStep
  {
    match x
    case Loading(accs) =>
      if !answer.Got? || answer.value.None? then Refused
      else
        var accs' := accs + [f.account.decode(answer.value.value)];
        if |accs'| < |Signers(tx)| then Loading(accs') else Loaded(tx, height, accs')
    case Collecting(accs) =>
      if !answer.Got? || accs == [] || NativeFee(tx) < 0 then Broken
      else
        var pool := AmountAt(f, answer.value) + NativeFee(tx);
        if pool >= INT_BOUND then Broken else Crediting(accs[0 := Paid(accs[0], NativeFee(tx))], pool)
    case Crediting(accs, _) => NextSig(tx, accs, 0)
    case Verifying(accs, i) =>
      if !Lined(tx, accs) || i >= |accs| || KeyOf(accs[i], tx.sigs[i]).None? then Broken
      else if !tx.sigs[i].accepts(KeyOf(accs[i], tx.sigs[i]).value) then Refused
      else Saving(accs[i := Signed(accs[i], tx.sigs[i])], i)
    case Saving(accs, i) => NextSig(tx, accs, i + 1)
    case _ => x
  }

  /** The verdicts: passed, with the gas wanted and the fee payer's account, or not. */
  function Accepting(f: Formats, tx: StdTx, first: Account): Handlers.Verdict
  {
    Handlers.Verdict(CODE_OK, tx.gas, false, true, Some(f.account.encode(first)))
  }

  const REFUSING := Handlers.Verdict(Fees.CODE_UNAUTHORIZED, 0, true, true, None)

  function AnteMachine(f: Formats, tx: StdTx, height: nat): Machine<AnteStep>
  {
    Machine((x: AnteStep) => AnteAct(f, tx, x), (x: AnteStep, answer: Answer) => AnteNext(f, tx, height, x, answer))
  }

  function AnteStart(tx: StdTx): AnteStep
  {
    if ValidBasic(tx) then Loading([]) else Refused
  }

  /** How many more store actions and charges there can be. */
  function AnteRank(tx: StdTx, x: AnteStep): nat
  {
    var n := |tx.sigs|;
    match x
    case Loading(accs) => if |accs| < |Signers(tx)| then |Signers(tx)| - |accs| + 2 * n + 3 else 0
    case Collecting(_) => 2 * n + 3
    case Crediting(_, _) => 2 * n + 2
    case Verifying(_, i) => if i < n then 2 * (n - i) + 1 else 0
    case Saving(_, i) => if i < n then 2 * (n - i) else 0
    case _ => 0
  }

  lemma NextSigRank(tx: StdTx, accs: seq<Account>, i: nat)
    ensures AnteRank(tx, NextSig(tx, accs, i)) <= if i < |tx.sigs| then 2 * (|tx.sigs| - i) + 1 else 0
  {
  }

  lemma AnteEnds(f: Formats, tx: StdTx, height: nat)
    ensures Ends(AnteMachine(f, tx, height), x => AnteRank(tx, x))
  {
    var k := AnteMachine(f, tx, height);
    forall x, answer
      ensures k.act(x).Finish? || k.act(x).Panic? || AnteRank(tx, k.step(x, answer)) < AnteRank(tx, x)
    {
      match x
      case Loading(accs) =>
        if answer.Got? && answer.value.Some? {
          NextSigRank(tx, accs + [f.account.decode(answer.value.value)], 0);
        }
      case Crediting(accs, _) => NextSigRank(tx, accs, 0);
      case Saving(accs, i) => NextSigRank(tx, accs, i + 1);
      case _ =>
    }
  }

  /** A signer's account before its signature is processed. */
  function Payer(s: AuthState, tx: StdTx, j: nat): Account
    requires j < |Signers(tx)| && Signers(tx)[j] in s.accounts && NativeFee(tx) >= 0
  {
    Paid(s.accounts[Signers(tx)[j]], if j == 0 then NativeFee(tx) else 0)
  }

  /** The handler's copies of the accounts when i signatures are processed. */
  ghost predicate Copies(tx: StdTx, s: AuthState, accs: seq<Account>, i: nat)
    requires ValidBasic(tx) && Lined(tx, accs) && AllKnown(s.accounts, Signers(tx))
  {
    forall j :: 0 <= j < |accs| ==> accs[j] == if j < i then Signed(Payer(s, tx, j), tx.sigs[j]) else Payer(s, tx, j)
  }

  /** The fee is collected and the first i signatures are processed, from the state `s`. */
  ghost predicate SigPhase(tx: StdTx, s: AuthState, now: AuthState, accs: seq<Account>, i: nat)
  {
    && ValidBasic(tx) && Lined(tx, accs)
    && Signing(s.accounts, now.accounts, Signers(tx), tx.sigs, NativeFee(tx), i)
    && now.pool == s.pool + NativeFee(tx)
    && Copies(tx, s, accs, i)
  }

  /** How the ante handler ends, with all the gas it needs. */
  ghost predicate AnteOutcome(f: Formats, tx: StdTx, v: Chain.Verdict, s: AuthState, hasFeeAuth: bool, after: Stores,
                              halt: Halt)
  {
    match v
    case Done =>
      && ValidBasic(tx) && AllKnown(s.accounts, Signers(tx))
      && halt == Finished(Accepting(f, tx, Fees.FirstAccount(s, tx)))
      && AuthOf(f, after) == AnteState(s, tx) && |after| >= STORES
      && (hasFeeAuth ==> HasFeeAuth(after))
    case Fails => halt == Finished(REFUSING)
    case Panic => halt == Crashed
  }

  // the signatures

  lemma {:induction false} Halts(f: Formats, tx: StdTx, height: nat, accs: seq<Account>, steps: nat, m: Stores)
    requires steps > 0 && accs != []
    ensures var k := AnteMachine(f, tx, height);
            && Free(k, Passed(accs), steps, m) == (m, 0, Finished(Accepting(f, tx, accs[0])))
            && Free(k, Refused, steps, m) == (m, 0, Finished(REFUSING))
            && Free(k, Broken, steps, m) == (m, 0, Crashed)
  {
  }

  /** How the handler ends from its i-th signature on. */
  ghost function SigsEnd(f: Formats, tx: StdTx, height: nat, accs: seq<Account>, i: nat, steps: nat, m: Stores)
    : (Stores, nat, Halt)
  {
    Free(AnteMachine(f, tx, height), NextSig(tx, accs, i), steps, m)
  }

  /** A signature that does not pass ends the run. */
  lemma {:induction false} SigStops(f: Formats, tx: StdTx, height: nat, accs: seq<Account>, i: nat, steps: nat,
                                    m: Stores)
    requires Lined(tx, accs) && i < |accs| && steps >= 2 && !SigVerdict(Signers(tx)[i], accs[i], tx.sigs[i]).Done?
    ensures SigsEnd(f, tx, height, accs, i, steps, m).0 == m
    ensures SigsEnd(f, tx, height, accs, i, steps, m).2
         == if SigVerdict(Signers(tx)[i], accs[i], tx.sigs[i]).Fails? then Finished(REFUSING) else Crashed
  {
    Halts(f, tx, height, accs, steps, m);
    Halts(f, tx, height, accs, steps - 1, m);
    if NextSig(tx, accs, i).Verifying? {
      BurnGoes(AnteMachine(f, tx, height), Verifying(accs, i), steps, m);
    }
  }

  /** One that passes is charged for, and its account is written. */
  lemma {:induction false} SigPasses(f: Formats, tx: StdTx, height: nat, accs: seq<Account>, i: nat, signed: Account,
                                     steps: nat, m: Stores)
    requires Lined(tx, accs) && i < |accs| && |m| >= STORES && steps >= 2
    requires SigVerdict(Signers(tx)[i], accs[i], tx.sigs[i]).Done? && signed == Signed(accs[i], tx.sigs[i])
    ensures var end := SigsEnd(f, tx, height, accs, i, steps, m);
            var m' := WithAccount(f, m, Signers(tx)[i], signed);
            var rest := SigsEnd(f, tx, height, accs[i := signed], i + 1, steps - 2, m');
            end.0 == rest.0 && end.2 == rest.2
  {
    var k := AnteMachine(f, tx, height);
    BurnGoes(k, Verifying(accs, i), steps, m);
    PutGoes(k, Saving(accs[i := signed], i), steps - 1, m);
  }

  lemma {:induction false} SigPhaseNext(tx: StdTx, s: AuthState, now: AuthState, accs: seq<Account>, i: nat)
    requires SigPhase(tx, s, now, accs, i) && i < |tx.sigs|
    ensures var v, signed := SigVerdict(Signers(tx)[i], accs[i], tx.sigs[i]), Signed(accs[i], tx.sigs[i]);
            if v.Done? then
              SigPhase(tx, s, now.(accounts := now.accounts[Signers(tx)[i] := signed]), accs[i := signed], i + 1)
            else v == SigsVerdict(s.accounts, Signers(tx), tx.sigs, 0)
  {
    var v := SigVerdict(Signers(tx)[i], accs[i], tx.sigs[i]);
    DedupIsDistinct(Flatten(tx.msgSigners));
    SigningStep(s.accounts, now.accounts, Signers(tx), tx.sigs, NativeFee(tx), i, accs[i], v);
  }

  lemma {:induction false} SigsDone(tx: StdTx, s: AuthState, now: AuthState, accs: seq<Account>)
    requires SigPhase(tx, s, now, accs, |tx.sigs|)
    ensures SigsVerdict(s.accounts, Signers(tx), tx.sigs, 0) == Done
    ensures now == AnteState(s, tx) && accs[0] == Fees.FirstAccount(s, tx)
  {
    var signers := Signers(tx);
    SigningAll(s.accounts, now.accounts, signers, tx.sigs, NativeFee(tx));
    DedupIsDistinct(Flatten(tx.msgSigners));
    IndexOfDistinct(signers, 0);
    assert signers[..|tx.sigs|] == signers;
  }

  ghost predicate SigsOutcome(f: Formats, tx: StdTx, s: AuthState, hasFeeAuth: bool, after: Stores, halt: Halt)
    requires ValidBasic(tx) && AllKnown(s.accounts, Signers(tx))
  {
    AnteOutcome(f, tx, SigsVerdict(s.accounts, Signers(tx), tx.sigs, 0), s, hasFeeAuth, after, halt)
  }

  /** What the signatures from the i-th on lead to. */
  ghost function SigsResult(f: Formats, tx: StdTx, accs: seq<Account>, i: nat, m: Stores): (Stores, Halt)
    requires Lined(tx, accs) && i <= |accs| && |m| >= STORES
    decreases |accs| - i
  {
    if i == |accs| then (m, Finished(Accepting(f, tx, accs[0])))
    else
      match SigVerdict(Signers(tx)[i], accs[i], tx.sigs[i])
      case Fails => (m, Finished(REFUSING))
      case Panic => (m, Crashed)
      case Done =>
        var signed := Signed(accs[i], tx.sigs[i]);
        SigsResult(f, tx, accs[i := signed], i + 1, WithAccount(f, m, Signers(tx)[i], signed))
  }

  lemma {:induction false} SigsEndIs(f: Formats, tx: StdTx, height: nat, accs: seq<Account>, i: nat, steps: nat,
                                     m: Stores)
    requires Lined(tx, accs) && i <= |accs| && |m| >= STORES && steps > 2 * (|accs| - i)
    ensures var end, result := SigsEnd(f, tx, height, accs, i, steps, m), SigsResult(f, tx, accs, i, m);
            end.0 == result.0 && end.2 == result.1
    decreases |accs| - i
  {
    if i == |accs| {
      Halts(f, tx, height, accs, steps, m);
    } else if SigVerdict(Signers(tx)[i], accs[i], tx.sigs[i]).Done? {
      var signed := Signed(accs[i], tx.sigs[i]);
      SigPasses(f, tx, height, accs, i, signed, steps, m);
      SigsEndIs(f, tx, height, accs[i := signed], i + 1, steps - 2, WithAccount(f, m, Signers(tx)[i], signed));
    } else {
      SigStops(f, tx, height, accs, i, steps, m);
    }
  }

  lemma {:induction false} SigsResultIs(f: Formats, tx: StdTx, s: AuthState, now: AuthState, accs: seq<Account>, i: nat,
                                        m: Stores, hasFeeAuth: bool)
    requires Sound(f) && |m| >= STORES && now == AuthOf(f, m) && SigPhase(tx, s, now, accs, i)
    requires hasFeeAuth == HasFeeAuth(m)
    ensures SigsOutcome(f, tx, s, hasFeeAuth, SigsResult(f, tx, accs, i, m).0, SigsResult(f, tx, accs, i, m).1)
    decreases |accs| - i
  {
    if i == |accs| {
      SigsDone(tx, s, now, accs);
    } else {
      SigPhaseNext(tx, s, now, accs, i);
      if SigVerdict(Signers(tx)[i], accs[i], tx.sigs[i]).Done? {
        var signed := Signed(accs[i], tx.sigs[i]);
        var m' := WithAccount(f, m, Signers(tx)[i], signed);
        AuthWithAccount(f, m, Signers(tx)[i], signed);
        SigsResultIs(f, tx, s, now.(accounts := now.accounts[Signers(tx)[i] := signed]), accs[i := signed], i + 1, m',
                     hasFeeAuth);
      }
    }
  }

  // the fee

  /** What the accounts that were read lead to. */
  ghost function LoadedResult(f: Formats, tx: StdTx, height: nat, accs: seq<Account>, m: Stores): (Stores, Halt)
    requires Lined(tx, accs) && |m| >= STORES
  {
    var fee, pool := NativeFee(tx), AmountAt(f, Lookup(m[FEE_STORE], COLLECTED_FEES));
    if exists i :: 0 <= i < |accs| && !NumbersMatch(accs[i], tx.sigs[i], height) then (m, Finished(REFUSING))
    else if fee <= 0 then SigsResult(f, tx, accs, 0, m)
    else if accs[0].coins < fee then (m, Finished(REFUSING))
    else if pool + fee >= INT_BOUND then (m, Crashed)
    else SigsResult(f, tx, accs[0 := Paid(accs[0], fee)], 0, WithPool(f, m, pool + fee))
  }

  /** The case of a fee that fits. */
  lemma {:induction false} LoadedWithFee(f: Formats, tx: StdTx, height: nat, accs: seq<Account>, paid: seq<Account>,
                                         pool: nat, m: Stores, m': Stores)
    requires Lined(tx, accs) && |m| >= STORES && 0 < NativeFee(tx) <= accs[0].coins
    requires forall i :: 0 <= i < |accs| ==> NumbersMatch(accs[i], tx.sigs[i], height)
    requires pool == AmountAt(f, Lookup(m[FEE_STORE], COLLECTED_FEES)) + NativeFee(tx) && pool < INT_BOUND
    requires paid == accs[0 := Paid(accs[0], NativeFee(tx))] && m' == WithPool(f, m, pool)
    ensures LoadedResult(f, tx, height, accs, m) == SigsResult(f, tx, paid, 0, m')
    ensures Loaded(tx, height, accs) == Collecting(accs)
  {
  }

  /** The fee goes to the pool, if it fits. */
  lemma {:induction false} Collects(f: Formats, tx: StdTx, height: nat, accs: seq<Account>, paid: seq<Account>,
                                    pool: nat, steps: nat, m: Stores)
    requires |m| >= STORES && accs != [] && NativeFee(tx) >= 0 && steps >= 2
    requires pool == AmountAt(f, Lookup(m[FEE_STORE], COLLECTED_FEES)) + NativeFee(tx) && pool < INT_BOUND
    requires paid == accs[0 := Paid(accs[0], NativeFee(tx))]
    ensures Free(AnteMachine(f, tx, height), Collecting(accs), steps, m)
         == SigsEnd(f, tx, height, paid, 0, steps - 2, WithPool(f, m, pool))
  {
    var k := AnteMachine(f, tx, height);
    ReadGoes(k, Collecting(accs), steps, m);
    PutGoes(k, Crediting(paid, pool), steps - 1, m);
  }

  lemma {:induction false} Overflows(f: Formats, tx: StdTx, height: nat, accs: seq<Account>, steps: nat, m: Stores)
    requires |m| >= STORES && accs != [] && NativeFee(tx) >= 0 && steps >= 2
    requires AmountAt(f, Lookup(m[FEE_STORE], COLLECTED_FEES)) + NativeFee(tx) >= INT_BOUND
    ensures Free(AnteMachine(f, tx, height), Collecting(accs), steps, m) == (m, 0, Crashed)
  {
    ReadGoes(AnteMachine(f, tx, height), Collecting(accs), steps, m);
    Halts(f, tx, height, accs, steps - 1, m);
  }

  lemma {:induction false} CollectedEnds(f: Formats, tx: StdTx, height: nat, accs: seq<Account>, paid: seq<Account>,
                                         pool: nat, steps: nat, m: Stores, m': Stores)
    requires Lined(tx, accs) && |m| >= STORES && steps > 2 * |tx.sigs| + 2 && NativeFee(tx) >= 0
    requires pool == AmountAt(f, Lookup(m[FEE_STORE], COLLECTED_FEES)) + NativeFee(tx) && pool < INT_BOUND
    requires paid == accs[0 := Paid(accs[0], NativeFee(tx))] && m' == WithPool(f, m, pool)
    ensures var end := Free(AnteMachine(f, tx, height), Collecting(accs), steps, m);
            var result := SigsResult(f, tx, paid, 0, m');
            end.0 == result.0 && end.2 == result.1
  {
    Collects(f, tx, height, accs, paid, pool, steps, m);
    SigsEndIs(f, tx, height, paid, 0, steps - 2, m');
  }

  lemma {:induction false} LoadedEnds(f: Formats, tx: StdTx, height: nat, accs: seq<Account>, steps: nat, m: Stores)
    requires Lined(tx, accs) && |m| >= STORES && steps > 2 * |tx.sigs| + 2
    ensures var end := Free(AnteMachine(f, tx, height), Loaded(tx, height, accs), steps, m);
            var result := LoadedResult(f, tx, height, accs, m);
            end.0 == result.0 && end.2 == result.1
  {
    var fee, pool := NativeFee(tx), AmountAt(f, Lookup(m[FEE_STORE], COLLECTED_FEES));
    if Loaded(tx, height, accs).Collecting? {
      if pool + fee < INT_BOUND {
        var paid, m' := accs[0 := Paid(accs[0], fee)], WithPool(f, m, pool + fee);
        LoadedWithFee(f, tx, height, accs, paid, pool + fee, m, m');
        CollectedEnds(f, tx, height, accs, paid, pool + fee, steps, m, m');
      } else {
        Overflows(f, tx, height, accs, steps, m);
      }
    } else if fee <= 0 {
      SigsEndIs(f, tx, height, accs, 0, steps, m);
      RefusedHalts(f, tx, height, steps, m);
    } else {
      RefusedHalts(f, tx, height, steps, m);
    }
  }

  ghost predicate AccountsOf(tx: StdTx, known: map<Address, Account>, accs: seq<Account>)
  {
    && |accs| <= |Signers(tx)|
    && forall j :: 0 <= j < |accs| ==> Signers(tx)[j] in known && accs[j] == known[Signers(tx)[j]]
  }

  lemma SigPhaseStart(tx: StdTx, s: AuthState, accs: seq<Account>)
    requires ValidBasic(tx) && Lined(tx, accs) && AccountsOf(tx, s.accounts, accs)
    ensures var fee := NativeFee(tx);
            SigPhase(tx, s, s.(pool := s.pool + fee), accs[0 := Paid(accs[0], fee)], 0)
  {
    SigningNone(s.accounts, Signers(tx), tx.sigs, NativeFee(tx));
  }

  lemma {:induction false} CollectedResult(f: Formats, tx: StdTx, s: AuthState, accs: seq<Account>, paid: seq<Account>,
                                           m: Stores, m': Stores, result: (Stores, Halt))
    requires Sound(f) && |m| >= STORES && s == AuthOf(f, m)
    requires ValidBasic(tx) && Lined(tx, accs) && AccountsOf(tx, s.accounts, accs)
    requires paid == accs[0 := Paid(accs[0], NativeFee(tx))] && m' == WithPool(f, m, s.pool + NativeFee(tx))
    requires result == SigsResult(f, tx, paid, 0, m')
    ensures AllKnown(s.accounts, Signers(tx))
    ensures SigsOutcome(f, tx, s, HasFeeAuth(m), result.0, result.1)
  {
    var pool := s.pool + NativeFee(tx);
    SigPhaseStart(tx, s, accs);
    AuthWithPool(f, m, pool);
    KeysDiffer();
    SigsResultIs(f, tx, s, s.(pool := pool), paid, 0, m', HasFeeAuth(m));
  }

  lemma {:induction false} FreeResult(f: Formats, tx: StdTx, s: AuthState, accs: seq<Account>, m: Stores)
    requires Sound(f) && |m| >= STORES && s == AuthOf(f, m) && NativeFee(tx) == 0
    requires ValidBasic(tx) && Lined(tx, accs) && AccountsOf(tx, s.accounts, accs)
    ensures AllKnown(s.accounts, Signers(tx))
    ensures var result := SigsResult(f, tx, accs, 0, m);
            SigsOutcome(f, tx, s, HasFeeAuth(m), result.0, result.1)
  {
    SigPhaseStart(tx, s, accs);
    assert accs[0 := Paid(accs[0], 0)] == accs && s.(pool := s.pool + 0) == s;
    SigsResultIs(f, tx, s, s, accs, 0, m, HasFeeAuth(m));
  }

  /** What is decided once the accounts are read. */
  lemma {:induction false} LoadedVerdict(tx: StdTx, height: nat, s: AuthState, accs: seq<Account>)
    requires ValidBasic(tx) && Lined(tx, accs) && AccountsOf(tx, s.accounts, accs)
    ensures AllKnown(s.accounts, Signers(tx))
    ensures var v, sigs := AnteVerdict(s, tx, height), SigsVerdict(s.accounts, Signers(tx), tx.sigs, 0);
            if exists i :: 0 <= i < |accs| && !NumbersMatch(accs[i], tx.sigs[i], height) then v.Fails?
            else if NativeFee(tx) == 0 then v == sigs
            else if accs[0].coins < NativeFee(tx) then v.Fails?
            else v == if s.pool + NativeFee(tx) < INT_BOUND then sigs else Chain.Verdict.Panic
  {
  }

  /** Fees that fit, in terms of the state. */
  lemma {:induction false} LoadedPays(f: Formats, tx: StdTx, height: nat, s: AuthState, accs: seq<Account>,
                                      paid: seq<Account>, m: Stores, m': Stores)
    requires |m| >= STORES && s == AuthOf(f, m) && Lined(tx, accs) && 0 < NativeFee(tx) <= accs[0].coins
    requires forall i :: 0 <= i < |accs| ==> NumbersMatch(accs[i], tx.sigs[i], height)
    requires s.pool + NativeFee(tx) < INT_BOUND
    requires paid == accs[0 := Paid(accs[0], NativeFee(tx))] && m' == WithPool(f, m, s.pool + NativeFee(tx))
    ensures LoadedResult(f, tx, height, accs, m) == SigsResult(f, tx, paid, 0, m')
  {
    LoadedWithFee(f, tx, height, accs, paid, s.pool + NativeFee(tx), m, m');
  }

  lemma {:induction false} LoadedResultIs(f: Formats, tx: StdTx, height: nat, s: AuthState, accs: seq<Account>,
                                          m: Stores, result: (Stores, Halt))
    requires Sound(f) && |m| >= STORES && s == AuthOf(f, m)
    requires ValidBasic(tx) && Lined(tx, accs) && AccountsOf(tx, s.accounts, accs)
    requires result == LoadedResult(f, tx, height, accs, m)
    ensures AnteOutcome(f, tx, AnteVerdict(s, tx, height), s, HasFeeAuth(m), result.0, result.1)
  {
    var fee := NativeFee(tx);
    LoadedVerdict(tx, height, s, accs);
    if exists i :: 0 <= i < |accs| && !NumbersMatch(accs[i], tx.sigs[i], height) {
    } else if fee == 0 {
      FreeResult(f, tx, s, accs, m);
    } else if accs[0].coins >= fee && s.pool + fee < INT_BOUND {
      var paid, m' := accs[0 := Paid(accs[0], fee)], WithPool(f, m, s.pool + fee);
      LoadedPays(f, tx, height, s, accs, paid, m, m');
      CollectedResult(f, tx, s, accs, paid, m, m', result);
    }
  }

  /** One more account is read. */
  lemma {:induction false} Loads(f: Formats, tx: StdTx, height: nat, known: map<Address, Account>,
                                 accs: seq<Account>, steps: nat, m: Stores)
    requires |m| >= STORES && HoldsAccounts(f, m[ACCOUNT_STORE], known) && |accs| < |Signers(tx)| && steps > 0
    ensures var k := AnteMachine(f, tx, height);
            Free(k, Loading(accs), steps, m) == Free(k, LoadedNext(tx, height, known, accs), steps - 1, m)
  {
    ReadGoes(AnteMachine(f, tx, height), Loading(accs), steps, m);
  }

  function LoadedNext(tx: StdTx, height: nat, known: map<Address, Account>, accs: seq<Account>): AnteStep
    requires |accs| < |Signers(tx)|
  {
    var signer := Signers(tx)[|accs|];
    if signer !in known then Refused
    else if |accs| + 1 < |Signers(tx)| then Loading(accs + [known[signer]])
    else Loaded(tx, height, accs + [known[signer]])
  }

  /** All of them are, if they are there. */
  lemma {:induction false} LoadsAll(f: Formats, tx: StdTx, height: nat, known: map<Address, Account>,
                                    accs: seq<Account>, steps: nat, m: Stores)
    returns (all: seq<Account>, rest: nat)
    requires |m| >= STORES && HoldsAccounts(f, m[ACCOUNT_STORE], known)
    requires |accs| < |Signers(tx)| && AccountsOf(tx, known, accs) && steps >= |Signers(tx)| - |accs|
    ensures AllKnown(known, Signers(tx)) ==> |all| == |Signers(tx)| && AccountsOf(tx, known, all)
    ensures rest >= steps - (|Signers(tx)| - |accs|)
    ensures var k := AnteMachine(f, tx, height);
            var x := if AllKnown(known, Signers(tx)) then Loaded(tx, height, all) else Refused;
            Free(k, Loading(accs), steps, m) == Free(k, x, rest, m)
    decreases |Signers(tx)| - |accs|
  {
    var signer := Signers(tx)[|accs|];
    Loads(f, tx, height, known, accs, steps, m);
    rest := steps - 1;
    if signer !in known {
      assert !AllKnown(known, Signers(tx));
      all := [];
    } else {
      all := accs + [known[signer]];
      if |all| < |Signers(tx)| {
        all, rest := LoadsAll(f, tx, height, known, all, rest, m);
      }
    }
  }

  /** How the ante handler ends, written out: an authorized transaction is authenticated, and its gas
      wanted and the fee payer's new account go into the context; one that cannot be processed is a
      panic; any other is unauthorized. */
  ghost predicate AnteEndsAs(f: Formats, tx: StdTx, height: nat, s: AuthState, after: Stores, halt: Halt)
  {
    if Authorized(s, tx, height) then
      && Authenticated(s, tx, AuthOf(f, after))
      && var first := AuthOf(f, after).accounts[Signers(tx)[0]];
         halt == Finished(Handlers.Verdict(0, tx.gas, false, true, Some(f.account.encode(first))))
    else halt == if Unprocessable(s, tx, height) then Crashed else Finished(Handlers.Verdict(4, 0, true, true, None))
  }

  lemma OutcomeIs(f: Formats, tx: StdTx, height: nat, s: AuthState, hasFeeAuth: bool, after: Stores, halt: Halt)
    requires AnteOutcome(f, tx, AnteVerdict(s, tx, height), s, hasFeeAuth, after, halt)
    ensures AnteEndsAs(f, tx, height, s, after, halt)
  {
    AntePassesExactly(s, tx, height);
    if AnteVerdict(s, tx, height).Done? {
      AnteAuthenticates(s, tx, height);
    }
  }

  lemma {:induction false} AnteRunIs(f: Formats, tx: StdTx, height: nat, steps: nat, m: Stores)
    requires Sound(f) && |m| >= STORES && steps > AnteRank(tx, AnteStart(tx))
    ensures var end := Free(AnteMachine(f, tx, height), AnteStart(tx), steps, m);
            AnteOutcome(f, tx, AnteVerdict(AuthOf(f, m), tx, height), AuthOf(f, m), HasFeeAuth(m), end.0, end.2)
  {
    if ValidBasic(tx) {
      AccountsHeld(f, m[ACCOUNT_STORE]);
      var all, rest := LoadsAll(f, tx, height, AuthOf(f, m).accounts, [], steps, m);
      if AllKnown(AuthOf(f, m).accounts, Signers(tx)) {
        LoadedEnds(f, tx, height, all, rest, m);
        LoadedResultIs(f, tx, height, AuthOf(f, m), all, m, LoadedResult(f, tx, height, all, m));
      } else {
        RefusedHalts(f, tx, height, rest, m);
      }
    } else {
      RefusedHalts(f, tx, height, steps, m);
    }
  }

  /** So the ante handler does what is described. */
  lemma {:induction false} AnteRun(f: Formats, tx: StdTx, height: nat, steps: nat, m: Stores)
    requires Sound(f) && |m| >= STORES && steps > AnteRank(tx, AnteStart(tx))
    ensures var end := Free(AnteMachine(f, tx, height), AnteStart(tx), steps, m);
            && AnteOutcome(f, tx, AnteVerdict(AuthOf(f, m), tx, height), AuthOf(f, m), HasFeeAuth(m), end.0, end.2)
            && AnteEndsAs(f, tx, height, AuthOf(f, m), end.0, end.2)
  {
    AnteRunIs(f, tx, height, steps, m);
    var end := Free(AnteMachine(f, tx, height), AnteStart(tx), steps, m);
    OutcomeIs(f, tx, height, AuthOf(f, m), HasFeeAuth(m), end.0, end.2);
  }

  lemma {:induction false} RefusedHalts(f: Formats, tx: StdTx, height: nat, steps: nat, m: Stores)
    requires steps > 0
    ensures Free(AnteMachine(f, tx, height), Refused, steps, m) == (m, 0, Finished(REFUSING))
  {
  }
}
