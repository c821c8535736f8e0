/** A transaction, an encoding and stores of which all that is asked of a delivery holds. */
module FeeExample {
  import opened Bytes
  import opened Chain
  import opened KVStores
  import opened MultiStores
  import opened Gas
  import opened TxSpec
  import opened Machines
  import opened Transactions
  import opened TxReports
  import opened Auth
  import opened AuthPrograms
  import opened FeePrograms
  import opened FeesOnStores
  import opened FeeHandlers
  import opened AnteCosts

  // ---- an encoding ----

  /** Digits in base 255, the lowest first, and an end mark. */
  function EncodeNat(n: nat): Bytes
  {
    if n == 0 then [255] else [n % 255] + EncodeNat(n / 255)
  }

  /** A number and the bytes after it. */
  function DecodeNat(b: Bytes): (nat, Bytes)
  {
    if b == [] then (0, [])
    else if b[0] == 255 then (0, b[1..])
    else
      var (n, rest) := DecodeNat(b[1..]);
      (b[0] + 255 * n, rest)
  }

  lemma {:induction false} NatComesBack(n: nat, rest: Bytes)
    ensures DecodeNat(EncodeNat(n) + rest) == (n, rest)
  {
    if n == 0 {
      assert ([255] + rest)[1..] == rest;
    } else {
      NatComesBack(n / 255, rest);
      assert (EncodeNat(n) + rest)[1..] == EncodeNat(n / 255) + rest;
    }
  }

  function EncodeKey(key: Option<PubKey>): Bytes
  {
    if key.None? then [0]
    else [match key.value.kind case Ed25519 => 1 case Secp256k1 => 2 case OtherKey => 3]
         + EncodeNat(key.value.subKeys) + key.value.address.bytes
  }

  function DecodeKey(b: Bytes): Option<PubKey>
  {
    if b == [] || b[0] == 0 then None
    else
      var (subKeys, bytes) := DecodeNat(b[1..]);
      Some(PubKey(Address(bytes), if b[0] == 1 then Ed25519 else if b[0] == 2 then Secp256k1 else OtherKey, subKeys))
  }

  lemma KeyComesBack(key: Option<PubKey>)
    ensures DecodeKey(EncodeKey(key)) == key
  {
    if key.Some? {
      NatComesBack(key.value.subKeys, key.value.address.bytes);
      assert EncodeKey(key)[1..] == EncodeNat(key.value.subKeys) + key.value.address.bytes;
    }
  }

  function EncodeAccount(acc: Account): Bytes
  {
    EncodeNat(acc.coins) + (EncodeNat(acc.sequence) + (EncodeNat(acc.number) + EncodeKey(acc.pubKey)))
  }

  function DecodeAccount(b: Bytes): Account
  {
    var (coins, b1) := DecodeNat(b);
    var (sequence, b2) := DecodeNat(b1);
    var (number, b3) := DecodeNat(b2);
    Account(coins, sequence, number, DecodeKey(b3))
  }

  lemma AccountComesBack(acc: Account)
    ensures DecodeAccount(EncodeAccount(acc)) == acc
  {
    var b3 := EncodeKey(acc.pubKey);
    var b2 := EncodeNat(acc.number) + b3;
    NatComesBack(acc.coins, EncodeNat(acc.sequence) + b2);
    NatComesBack(acc.sequence, b2);
    NatComesBack(acc.number, b3);
    KeyComesBack(acc.pubKey);
  }

  const FORMATS := Formats(Codec((acc: Account) => EncodeAccount(acc), (b: Bytes) => DecodeAccount(b)),
                           Codec((n: nat) => EncodeNat(n), (b: Bytes) => DecodeNat(b).0),
                           (b: Bytes) => b == NATIVE)

  const NATIVE: Bytes := Text("iris-atto")

  lemma FormatsAreSound()
    ensures Sound(FORMATS)
  {
    forall acc: Account
      ensures FORMATS.account.decode(FORMATS.account.encode(acc)) == acc
    {
      AccountComesBack(acc);
    }
    forall n: nat
      ensures FORMATS.amount.decode(FORMATS.amount.encode(n)) == n
    {
      NatComesBack(n, []);
      assert EncodeNat(n) + [] == EncodeNat(n);
    }
  }

  // ---- a transaction ----

  const PAYER := Address([1])
  const KEY := PubKey(PAYER, Ed25519, 1)
  const ACCOUNT := Account(1000000, 0, 7, Some(KEY))
  const TX := StdTx([[PAYER]], Some(600000), 1000, [Signature(Some(KEY), (key: PubKey) => true, 7, 0)], 0)
  const OFFER := Offer(TX, 1, 1, None, [])

  /** Stores with the fee settings and nothing in the pool. */
  function Genesis(accounts: Store, native: Bytes, threshold: Bytes, size: Bytes): Stores
  {
    [accounts, map[FEE_AUTH := native], map[GAS_PRICE_THRESHOLD := threshold, TX_SIZE_LIMIT := size]]
  }

  lemma GenesisIs(accounts: Store, native: Bytes, threshold: Bytes, size: Bytes)
    ensures var m := Genesis(accounts, native, threshold, size);
            && m[ACCOUNT_STORE] == accounts
            && FEE_AUTH in m[FEE_STORE] && m[FEE_STORE][FEE_AUTH] == native && COLLECTED_FEES !in m[FEE_STORE]
            && GAS_PRICE_THRESHOLD in m[PARAM_STORE] && m[PARAM_STORE][GAS_PRICE_THRESHOLD] == threshold
            && TX_SIZE_LIMIT in m[PARAM_STORE] && m[PARAM_STORE][TX_SIZE_LIMIT] == size
  {
    KeysDiffer();
    assert |GAS_PRICE_THRESHOLD| != |TX_SIZE_LIMIT|;
  }

  const STATE := Genesis(map[AccountKey(PAYER) := EncodeAccount(ACCOUNT)], NATIVE, EncodeNat(600), [])

  lemma {:induction false} StateHolds()
    ensures STATE[ACCOUNT_STORE] == map[AccountKey(PAYER) := EncodeAccount(ACCOUNT)]
    ensures FEE_AUTH in STATE[FEE_STORE] && STATE[FEE_STORE][FEE_AUTH] == NATIVE && COLLECTED_FEES !in STATE[FEE_STORE]
    ensures GAS_PRICE_THRESHOLD in STATE[PARAM_STORE] && STATE[PARAM_STORE][GAS_PRICE_THRESHOLD] == EncodeNat(600)
    ensures TX_SIZE_LIMIT in STATE[PARAM_STORE] && STATE[PARAM_STORE][TX_SIZE_LIMIT] == []
  {
    GenesisIs(map[AccountKey(PAYER) := EncodeAccount(ACCOUNT)], NATIVE, EncodeNat(600), []);
  }

  lemma OneSigner()
    ensures Signers(TX) == [PAYER]
  {
    var lists := TX.msgSigners;
    assert lists[..0] == [] && Flatten(lists[..0]) == [];
    assert Flatten(lists) == [] + [PAYER] == [PAYER];
    assert [PAYER][..0] == [] && Dedup([PAYER][..0]) == [];
  }

  const BEFORE := AuthState(map[PAYER := ACCOUNT], 0)

  /** A store with one account. */
  lemma OneAccount(f: Formats, a: Address, acc: Account)
    requires Sound(f)
    ensures Accounts(f, map[AccountKey(a) := f.account.encode(acc)]) == map[a := acc]
  {
    AccountPut(f, map[], a, acc);
    assert map[][AccountKey(a) := f.account.encode(acc)] == map[AccountKey(a) := f.account.encode(acc)];
    assert Accounts(f, map[]) == map[];
  }

  lemma StateIs()
    ensures AuthOf(FORMATS, STATE) == BEFORE
  {
    FormatsAreSound();
    StateHolds();
    OneAccount(FORMATS, PAYER, ACCOUNT);
  }

  lemma {:induction false} SignatureIsGood()
    ensures SigsVerdict(BEFORE.accounts, [PAYER], TX.sigs, 0) == Done
  {
    assert SigVerdict(PAYER, ACCOUNT, TX.sigs[0]).Done?;
    assert SigsVerdict(BEFORE.accounts, [PAYER], TX.sigs, 1) == Done;
  }

  lemma Accepted()
    ensures AnteVerdict(BEFORE, TX, 1).Done?
  {
    OneSigner();
    SignatureIsGood();
    assert TX.sigs[..0] == [] && CountSubKeys(TX.sigs[..0]) == 0;
  }

  // ---- what it costs ----

  lemma PreCostIs(f: Formats, tx: StdTx, m: Stores)
    requires Settled(f, m)
    ensures PreCost(f, tx, m) == 30
      + |m[FEE_STORE][FEE_AUTH]| + |m[PARAM_STORE][GAS_PRICE_THRESHOLD]| + |m[PARAM_STORE][TX_SIZE_LIMIT]|
  {
    var k, threshold := PreMachine(f, tx), ThresholdOf(f, m);
    assert m[FEE_STORE := m[FEE_STORE]] == m && m[PARAM_STORE := m[PARAM_STORE]] == m;
    ChargedAction(k, Checking, PRE_STEPS, m);
    ChargedAction(k, Pricing(true), PRE_STEPS - 4, m);
    ChargedAction(k, Sizing(true, threshold), PRE_STEPS - 8, m);
    assert Free(Charging(k), Idle(Judging(true, threshold)), PRE_STEPS - 12, m).1 == 0;
  }

  function SignedAccount(tx: StdTx, acc: Account): Account
    requires tx.sigs != [] && NativeFee(tx) >= 0
  {
    Signed(Paid(acc, NativeFee(tx)), tx.sigs[0])
  }

  lemma {:induction false} Lengths()
    ensures |EncodeNat(600)| == 3 && |EncodeNat(600000)| == 4
    ensures |EncodeAccount(ACCOUNT)| == 11 && |EncodeAccount(SignedAccount(TX, ACCOUNT))| == 12
  {
    assert |EncodeNat(1000000)| == 4 && |EncodeNat(400000)| == 4;
    assert |EncodeNat(0)| == 1 && |EncodeNat(1)| == 2 && |EncodeNat(7)| == 2;
    assert |EncodeKey(Some(KEY))| == 4;
  }

  /** An offer without messages whose checks pass and whose gas suffices takes effect. */
  lemma EmptyOfferLands(f: Formats, o: Offer, m: Stores, start: Meter, blockGas: Meter)
    requires Sound(f) && Deliverable(f, o, m, start) && o.msgs == []
    requires TakesEffect(f, o, m, blockGas)
    ensures TxLanding(TxOf(f, o), start, m, blockGas) == AnteAndMessages
    ensures Implements(ReadBy(f), TxOf(f, o), DeliveryOf(f, o, m, start, blockGas), start, m)
  {
    LandsIff(f, o, m, start, blockGas);
    PriceVerdictIs(f, o, m, start);
    AnteIs(f, o, m, start, blockGas);
    HandlersImplement(f, o, m, start, blockGas);
  }

  lemma StateIsSettled()
    ensures Settled(FORMATS, STATE) && ThresholdOf(FORMATS, STATE) == 600
  {
    StateHolds();
    NatComesBack(600, []);
    assert EncodeNat(600) + [] == EncodeNat(600);
  }

  lemma OfferIsReady()
    ensures Deliverable(FORMATS, OFFER, STATE, INFINITE) && PriceVerdict(OFFER, ThresholdOf(FORMATS, STATE)).PreOk?
  {
    StateIsSettled();
    StateHolds();
    Lengths();
    PreCostIs(FORMATS, TX, STATE);
  }

  lemma OneReadGas(m: Store, a: Address)
    requires AccountKey(a) in m
    ensures ReadGas(m, [a]) == 10 + |m[AccountKey(a)]|
  {
    assert [a][1..] == [];
  }

  lemma OneSignGas(f: Formats, acc: Account)
    ensures SignGas(f, [acc]) == SignatureGas(f, acc)
  {
    assert [acc][1..] == [];
  }

  lemma OneSigned()
    requires Signers(TX) == [PAYER] && ValidBasic(TX)
    ensures AllKnown(BEFORE.accounts, [PAYER]) && AllKnown(AnteState(BEFORE, TX).accounts, [PAYER])
    ensures AccountsIn(AnteState(BEFORE, TX), [PAYER]) == [SignedAccount(TX, ACCOUNT)]
  {
    SignedAccounts(BEFORE, TX, AccountsIn(AnteState(BEFORE, TX), [PAYER]));
  }

  /** One signer and an empty pool. */
  lemma {:induction false} CostOfOne(f: Formats, tx: StdTx, height: nat, m: Stores, s: AuthState, payer: Address,
                                     signed: Account, fee: nat)
    requires |m| >= STORES && s == AuthOf(f, m) && Authorized(s, tx, height) && Signers(tx) == [payer]
    requires ValidBasic(tx) && AllKnown(s.accounts, [payer]) && AllKnown(AnteState(s, tx).accounts, [payer])
    requires AccountsIn(AnteState(s, tx), [payer]) == [signed]
    requires COLLECTED_FEES !in m[FEE_STORE] && tx.fee == Some(fee) && fee > 0
    ensures AccountKey(payer) in m[ACCOUNT_STORE]
    ensures AnteCost(f, tx, height, m) ==
            10 + |m[ACCOUNT_STORE][AccountKey(payer)]| + 20 + 10 * |f.amount.encode(fee)| + SignatureGas(f, signed)
  {
    AnteCostIs(f, tx, height, m);
    assert AccountKey([payer][0]) in m[ACCOUNT_STORE];
    OneReadGas(m[ACCOUNT_STORE], payer);
    OneSignGas(f, signed);
  }

  /** Reading the account costs 21, collecting the fee 60, and the signature 189. */
  lemma {:induction false} OfferCosts()
    ensures Authorized(BEFORE, TX, 1) && AnteCost(FORMATS, TX, 1, STATE) == 270
  {
    StateIs();
    Accepted();
    OneSigner();
    AntePassesExactly(BEFORE, TX, 1);
    OneSigned();
    StateHolds();
    CostOfOne(FORMATS, TX, 1, STATE, BEFORE, PAYER, SignedAccount(TX, ACCOUNT), 600000);
    Lengths();
  }

  /** So what is asked of a delivery can be had: this one takes effect. */
  lemma OfferLands(blockGas: Meter)
    requires !Full(blockGas)
    ensures Sound(FORMATS) && Deliverable(FORMATS, OFFER, STATE, INFINITE)
    ensures TxLanding(TxOf(FORMATS, OFFER), INFINITE, STATE, blockGas) == AnteAndMessages
    ensures Implements(ReadBy(FORMATS), TxOf(FORMATS, OFFER), DeliveryOf(FORMATS, OFFER, STATE, INFINITE, blockGas),
                       INFINITE, STATE)
  {
    FormatsAreSound();
    StateIs();
    OfferIsReady();
    OfferCosts();
    EmptyOfferLands(FORMATS, OFFER, STATE, INFINITE, blockGas);
  }
}
