/** The gas of the ante handler: what its reads, its signatures and its writes cost. */
module AnteCosts {
  import opened Bytes
  import opened Chain
  import opened KVStores
  import opened MultiStores
  import opened Handlers
  import opened Machines
  import opened Auth
  import opened AuthPrograms
  import opened FeeHandlers

  /** Every signer's account is read: ten, and one for every byte. */
  ghost function ReadGas(m: Store, signers: seq<Address>): nat
    requires forall i :: 0 <= i < |signers| ==> AccountKey(signers[i]) in m
  {
    if signers == [] then 0 else 10 + |m[AccountKey(signers[0])]| + ReadGas(m, signers[1..])
  }

  /** A fee is added to the pool, which is read and written; a byte that is written costs ten. */
  function FeeGas(f: Formats, tx: StdTx, pool: Option<Bytes>): nat
  {
    if tx.fee.None? || tx.fee.value <= 0 then 0
    else
      var before := if pool.Some? then f.amount.decode(pool.value) else 0;
      10 + (if pool.Some? then |pool.value| else 0) + 10 + 10 * |f.amount.encode(before + tx.fee.value)|
  }

  /** A signature is verified, by the kind of its key, and its account is written. */
  function SignatureGas(f: Formats, acc: Account): nat
  {
    (if acc.pubKey.Some? && acc.pubKey.value.kind.Ed25519? then 59 else 100) + 10 + 10 * |f.account.encode(acc)|
  }

  function SignGas(f: Formats, accs: seq<Account>): nat
  {
    if accs == [] then 0 else SignatureGas(f, accs[0]) + SignGas(f, accs[1..])
  }

  ghost function Costs<S>(k: Machine<S>, s: S, steps: nat, m: Stores): nat
  {
    Free(Charging(k), Idle(s), steps, m).1
  }

  // ---- the signatures ----

  lemma {:induction false} SavingCosts(f: Formats, tx: StdTx, height: nat, accs: seq<Account>, i: nat, steps: nat,
                                       m: Stores)
    requires Lined(tx, accs) && i < |accs| && |m| >= STORES && steps >= 4
    ensures var k := AnteMachine(f, tx, height);
            Costs(k, Saving(accs, i), steps, m) ==
            10 + 10 * |f.account.encode(accs[i])|
            + Costs(k, NextSig(tx, accs, i + 1), steps - 4, WithAccount(f, m, Signers(tx)[i], accs[i]))
  {
    var k := AnteMachine(f, tx, height);
    PutCharged(k, Saving(accs, i), steps, m, ACCOUNT_STORE, AccountKey(Signers(tx)[i]), f.account.encode(accs[i]));
  }

  lemma {:induction false} SignatureCosts(f: Formats, tx: StdTx, height: nat, accs: seq<Account>, i: nat,
                                          accs': seq<Account>, steps: nat, m: Stores)
    requires Lined(tx, accs) && i < |accs| && |m| >= STORES && steps >= 5
    requires SigVerdict(Signers(tx)[i], accs[i], tx.sigs[i]).Done?
    requires accs' == accs[i := Signed(accs[i], tx.sigs[i])]
    ensures var k := AnteMachine(f, tx, height);
            Costs(k, NextSig(tx, accs, i), steps, m) ==
            SignatureGas(f, accs'[i])
            + Costs(k, NextSig(tx, accs', i + 1), steps - 5, WithAccount(f, m, Signers(tx)[i], accs'[i]))
  {
    var k := AnteMachine(f, tx, height);
    assert NextSig(tx, accs, i) == Verifying(accs, i) && k.step(Verifying(accs, i), Ack) == Saving(accs', i);
    BurnGoes(Charging(k), Idle(Verifying(accs, i)), steps, m);
    SavingCosts(f, tx, height, accs', i, steps - 1, m);
  }

  /** From the i-th signature on; `signed` are the accounts as they are going to be written. */
  lemma {:induction false} SignaturesCost(f: Formats, tx: StdTx, height: nat, accs: seq<Account>, i: nat,
                                          signed: seq<Account>, steps: nat, m: Stores)
    requires Lined(tx, accs) && i <= |accs| == |signed| && |m| >= STORES && steps > 5 * (|accs| - i)
    requires forall j :: i <= j < |accs| ==>
      SigVerdict(Signers(tx)[j], accs[j], tx.sigs[j]).Done? && signed[j] == Signed(accs[j], tx.sigs[j])
    ensures Costs(AnteMachine(f, tx, height), NextSig(tx, accs, i), steps, m) == SignGas(f, signed[i..])
    decreases |accs| - i
  {
    if i < |accs| {
      SignatureCosts(f, tx, height, accs, i, accs[i := signed[i]], steps, m);
      SignaturesCost(f, tx, height, accs[i := signed[i]], i + 1, signed, steps - 5,
                     WithAccount(f, m, Signers(tx)[i], signed[i]));
      assert signed[i..][1..] == signed[i + 1..];
    }
  }

  // ---- the fee ----

  lemma {:induction false} CollectingCosts(f: Formats, tx: StdTx, height: nat, accs: seq<Account>, paid: seq<Account>,
                                           steps: nat, m: Stores, stored: Option<Bytes>, pool: nat)
    requires |m| >= STORES && Lined(tx, accs) && steps >= 8 && tx.fee.Some? && tx.fee.value > 0
    requires stored == Lookup(m[FEE_STORE], COLLECTED_FEES) && pool == AmountAt(f, stored) + tx.fee.value < INT_BOUND
    requires paid == accs[0 := Paid(accs[0], tx.fee.value)]
    ensures var k := AnteMachine(f, tx, height);
            Costs(k, Collecting(accs), steps, m) ==
            FeeGas(f, tx, stored) + Costs(k, NextSig(tx, paid, 0), steps - 8, WithPool(f, m, pool))
  {
    var k := AnteMachine(f, tx, height);
    ReadCharged(k, Collecting(accs), steps, m, stored);
    CreditingCosts(f, tx, height, paid, steps - 4, m, pool);
  }

  lemma {:induction false} CreditingCosts(f: Formats, tx: StdTx, height: nat, paid: seq<Account>, steps: nat, m: Stores,
                                          pool: nat)
    requires |m| >= STORES && steps >= 4
    ensures var k := AnteMachine(f, tx, height);
            Costs(k, Crediting(paid, pool), steps, m) ==
            10 + 10 * |f.amount.encode(pool)| + Costs(k, NextSig(tx, paid, 0), steps - 4, WithPool(f, m, pool))
  {
    var k := AnteMachine(f, tx, height);
    PutCharged(k, Crediting(paid, pool), steps, m, FEE_STORE, COLLECTED_FEES, f.amount.encode(pool));
  }

  // ---- the accounts ----

  /** The signers' accounts are in the store. */
  ghost predicate Stored(f: Formats, m: Store, signers: seq<Address>, all: seq<Account>)
  {
    |all| == |signers| &&
    forall i :: 0 <= i < |all| ==>
      AccountKey(signers[i]) in m && all[i] == f.account.decode(m[AccountKey(signers[i])])
  }

  lemma {:induction false} LoadingCostsOne(f: Formats, tx: StdTx, height: nat, accs: seq<Account>, accs': seq<Account>,
                                           bytes: Bytes, steps: nat, m: Stores)
    requires |m| >= STORES && |accs| < |Signers(tx)| && steps >= 4 && accs' == accs + [f.account.decode(bytes)]
    requires Lookup(m[ACCOUNT_STORE], AccountKey(Signers(tx)[|accs|])) == Some(bytes)
    ensures var k := AnteMachine(f, tx, height);
            Costs(k, Loading(accs), steps, m) ==
            10 + |bytes|
            + Costs(k, if |accs'| < |Signers(tx)| then Loading(accs') else Loaded(tx, height, accs'), steps - 4, m)
  {
    ReadCharged(AnteMachine(f, tx, height), Loading(accs), steps, m, Some(bytes));
  }

  lemma {:induction false} LoadingCosts(f: Formats, tx: StdTx, height: nat, all: seq<Account>, n: nat, steps: nat,
                                        m: Stores)
    requires |m| >= STORES && n < |all| == |Signers(tx)| && steps >= 4 * (|all| - n)
    requires Stored(f, m[ACCOUNT_STORE], Signers(tx), all)
    ensures var k := AnteMachine(f, tx, height);
            Costs(k, Loading(all[..n]), steps, m) ==
            ReadGas(m[ACCOUNT_STORE], Signers(tx)[n..])
            + Costs(k, Loaded(tx, height, all), steps - 4 * (|all| - n), m)
    decreases |all| - n
  {
    var signers := Signers(tx);
    assert all[..n] + [all[n]] == all[..n + 1];
    LoadingCostsOne(f, tx, height, all[..n], all[..n + 1], m[ACCOUNT_STORE][AccountKey(signers[n])], steps, m);
    assert signers[n..][1..] == signers[n + 1..];
    if n + 1 < |all| {
      LoadingCosts(f, tx, height, all, n + 1, steps - 4, m);
    } else {
      assert all[..n + 1] == all && signers[n + 1..] == [];
    }
  }

  // ---- the whole ----

  /** The accounts of the signers. */
  ghost function AccountsIn(s: AuthState, signers: seq<Address>): (accs: seq<Account>)
    requires AllKnown(s.accounts, signers)
    ensures |accs| == |signers| && forall i :: 0 <= i < |accs| ==> accs[i] == s.accounts[signers[i]]
  {
    seq(|signers|, i requires 0 <= i < |signers| => s.accounts[signers[i]])
  }

  /** What is left to be paid for when the accounts are read. */
  lemma {:induction false} LoadedCosts(f: Formats, tx: StdTx, height: nat, accs: seq<Account>, paid: seq<Account>,
                                       signed: seq<Account>, steps: nat, m: Stores, stored: Option<Bytes>)
    requires |m| >= STORES && stored == Lookup(m[FEE_STORE], COLLECTED_FEES) && steps > 8 + 5 * |accs|
    requires Lined(tx, accs) && forall i :: 0 <= i < |accs| ==> NumbersMatch(accs[i], tx.sigs[i], height)
    requires 0 <= NativeFee(tx) <= accs[0].coins || NativeFee(tx) == 0
    requires NativeFee(tx) > 0 ==> AmountAt(f, stored) + NativeFee(tx) < INT_BOUND
    requires paid == accs[0 := Paid(accs[0], NativeFee(tx))] && |signed| == |paid|
    requires forall i :: 0 <= i < |paid| ==>
      SigVerdict(Signers(tx)[i], paid[i], tx.sigs[i]).Done? && signed[i] == Signed(paid[i], tx.sigs[i])
    ensures Costs(AnteMachine(f, tx, height), Loaded(tx, height, accs), steps, m) ==
            FeeGas(f, tx, stored) + SignGas(f, signed)
  {
    var fee := NativeFee(tx);
    assert signed[0..] == signed;
    if fee > 0 {
      var pool := AmountAt(f, stored) + fee;
      CollectingCosts(f, tx, height, accs, paid, steps, m, stored, pool);
      SignaturesCost(f, tx, height, paid, 0, signed, steps - 8, WithPool(f, m, pool));
    } else {
      assert paid == accs;
      SignaturesCost(f, tx, height, accs, 0, signed, steps, m);
    }
  }

  /** What is known of an authorized transaction by then. */
  lemma {:induction false} LoadedPasses(tx: StdTx, height: nat, s: AuthState, accs: seq<Account>, paid: seq<Account>,
                                        signed: seq<Account>)
    requires AnteVerdict(s, tx, height).Done? && |signed| == |paid| == |accs| == |tx.sigs|
    requires forall i :: 0 <= i < |accs| ==> accs[i] == s.accounts[Signers(tx)[i]]
    requires forall i :: 0 <= i < |accs| ==> signed[i] == Signed(Payer(s, tx, i), tx.sigs[i])
    requires paid == accs[0 := Paid(accs[0], NativeFee(tx))]
    ensures forall i :: 0 <= i < |accs| ==> NumbersMatch(accs[i], tx.sigs[i], height)
    ensures 0 <= NativeFee(tx) <= accs[0].coins || NativeFee(tx) == 0
    ensures NativeFee(tx) > 0 ==> s.pool + NativeFee(tx) < INT_BOUND
    ensures forall i :: 0 <= i < |paid| ==>
      SigVerdict(Signers(tx)[i], paid[i], tx.sigs[i]).Done? && signed[i] == Signed(paid[i], tx.sigs[i])
  {
    SigsAllPass(s, tx, 0);
  }

  lemma {:induction false} SigsAllPass(s: AuthState, tx: StdTx, from: nat)
    requires from <= |tx.sigs| == |Signers(tx)| && AllKnown(s.accounts, Signers(tx))
    requires SigsVerdict(s.accounts, Signers(tx), tx.sigs, from).Done?
    ensures forall j :: from <= j < |tx.sigs| ==>
      SigVerdict(Signers(tx)[j], s.accounts[Signers(tx)[j]], tx.sigs[j]).Done?
    decreases |tx.sigs| - from
  {
    if from < |tx.sigs| {
      SigsAllPass(s, tx, from + 1);
    }
  }

  lemma SignedAccounts(s: AuthState, tx: StdTx, signed: seq<Account>)
    requires ValidBasic(tx) && AllKnown(s.accounts, Signers(tx))
    requires AllKnown(AnteState(s, tx).accounts, Signers(tx)) && signed == AccountsIn(AnteState(s, tx), Signers(tx))
    ensures forall i :: 0 <= i < |signed| ==> signed[i] == Signed(Payer(s, tx, i), tx.sigs[i])
  {
    DedupIsDistinct(Flatten(tx.msgSigners));
    assert Signers(tx)[..|tx.sigs|] == Signers(tx);
    forall i | 0 <= i < |signed|
      ensures signed[i] == Signed(Payer(s, tx, i), tx.sigs[i])
    {
      IndexOfDistinct(Signers(tx), i);
    }
  }

  lemma StoredAccounts(f: Formats, m: Stores, signers: seq<Address>)
    requires |m| >= STORES && AllKnown(AuthOf(f, m).accounts, signers)
    ensures Stored(f, m[ACCOUNT_STORE], signers, AccountsIn(AuthOf(f, m), signers))
  {
    forall i | 0 <= i < |signers|
      ensures AccountKey(signers[i]) in m[ACCOUNT_STORE]
      ensures AuthOf(f, m).accounts[signers[i]] == f.account.decode(m[ACCOUNT_STORE][AccountKey(signers[i])])
    {
      AccountAt(f, m[ACCOUNT_STORE], signers[i]);
    }
  }

  lemma {:induction false} AllCosts(f: Formats, tx: StdTx, height: nat, s: AuthState, m: Stores, all: seq<Account>,
                                    signed: seq<Account>, steps: nat, stored: Option<Bytes>)
    requires |m| >= STORES && stored == Lookup(m[FEE_STORE], COLLECTED_FEES) && s.pool == AmountAt(f, stored)
    requires AnteVerdict(s, tx, height).Done? && steps > 8 + 9 * |all|
    requires Stored(f, m[ACCOUNT_STORE], Signers(tx), all) && all == AccountsIn(s, Signers(tx))
    requires |signed| == |all| && forall i :: 0 <= i < |all| ==> signed[i] == Signed(Payer(s, tx, i), tx.sigs[i])
    ensures Costs(AnteMachine(f, tx, height), Loading([]), steps, m) ==
            ReadGas(m[ACCOUNT_STORE], Signers(tx)) + FeeGas(f, tx, stored) + SignGas(f, signed)
  {
    var paid := all[0 := Paid(all[0], NativeFee(tx))];
    LoadedPasses(tx, height, s, all, paid, signed);
    LoadedCosts(f, tx, height, all, paid, signed, steps - 4 * |all|, m, stored);
    assert all[..0] == [] && Signers(tx)[0..] == Signers(tx);
    LoadingCosts(f, tx, height, all, 0, steps, m);
  }

  /** The gas of an authorized transaction's ante handler: its signers' accounts are read, its fee is
      collected, its signatures are verified and the accounts written as they are afterwards. */
  lemma {:induction false} AnteCostIs(f: Formats, tx: StdTx, height: nat, m: Stores)
    requires |m| >= STORES && Authorized(AuthOf(f, m), tx, height)
    ensures forall i :: 0 <= i < |Signers(tx)| ==> AccountKey(Signers(tx)[i]) in m[ACCOUNT_STORE]
    ensures ValidBasic(tx) && AllKnown(AuthOf(f, m).accounts, Signers(tx))
            && AllKnown(AnteState(AuthOf(f, m), tx).accounts, Signers(tx))
    ensures AnteCost(f, tx, height, m) ==
            ReadGas(m[ACCOUNT_STORE], Signers(tx)) + FeeGas(f, tx, Lookup(m[FEE_STORE], COLLECTED_FEES))
            + SignGas(f, AccountsIn(AnteState(AuthOf(f, m), tx), Signers(tx)))
  {
    var s, signers := AuthOf(f, m), Signers(tx);
    AntePassesExactly(s, tx, height);
    StoredAccounts(f, m, signers);
    var signed := AccountsIn(AnteState(s, tx), signers);
    SignedAccounts(s, tx, signed);
    AllCosts(f, tx, height, s, m, AccountsIn(s, signers), signed, AnteSteps(tx), Lookup(m[FEE_STORE], COLLECTED_FEES));
  }
}
