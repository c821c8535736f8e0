/** The auth module of protocol v0 with fees in the one native denomination: the ante handler,
    the collected-fees pool and the fee refund. */
module Auth {
  import opened Bytes
  import opened Chain

  const MAX_MEMO_CHARACTERS := 100
  const TX_SIG_LIMIT := 7

  datatype KeyKind = Ed25519 | Secp256k1 | OtherKey

  datatype PubKey = PubKey(address: Address, kind: KeyKind, subKeys: nat)

  datatype Account = Account(coins: nat, sequence: nat, number: nat, pubKey: Option<PubKey>)

  /** `accepts` says for which keys the signature is one of this transaction's sign bytes. */
  datatype Signature = Signature(pubKey: Option<PubKey>, accepts: PubKey -> bool, accountNumber: nat, sequence: nat)

  /** `fee` is the native amount of the fee coins, missing when there are none. */
  datatype StdTx = StdTx(msgSigners: seq<seq<Address>>, fee: Option<int>, gas: nat, sigs: seq<Signature>, memo: nat)

  datatype AuthState = AuthState(accounts: map<Address, Account>, pool: nat)

  // ---- signers ----

  function Flatten(lists: seq<seq<Address>>): seq<Address>
  {
    if lists == [] then [] else Flatten(lists[..|lists| - 1]) + lists[|lists| - 1]
  }

  /** The first occurrences, in order. */
  function Dedup(s: seq<Address>): seq<Address>
  {
    if s == [] then []
    else
      var rest := Dedup(s[..|s| - 1]);
      if s[|s| - 1] in rest then rest else rest + [s[|s| - 1]]
  }

  lemma {:induction false} DedupIsDistinct(s: seq<Address>)
    ensures Distinct(Dedup(s))
    ensures forall a :: a in Dedup(s) <==> a in s
  {
    if s != [] {
      DedupIsDistinct(s[..|s| - 1]);
      assert s == s[..|s| - 1] + [s[|s| - 1]];
    }
  }

  lemma DedupAppend(s: seq<Address>, a: Address)
    ensures Dedup(s + [a]) == if a in Dedup(s) then Dedup(s) else Dedup(s) + [a]
  {
    assert (s + [a])[..|s|] == s;
  }

  function Signers(tx: StdTx): seq<Address>
  {
    Dedup(Flatten(tx.msgSigners))
  }

  lemma {:induction false} DedupGrows(s: seq<Address>, n: nat)
    requires n <= |s|
    ensures Dedup(s[..n]) <= Dedup(s)
    decreases |s|
  {
    if n < |s| {
      DedupGrows(s[..|s| - 1], n);
      assert s[..|s| - 1][..n] == s[..n];
    } else {
      assert s[..n] == s;
    }
  }

  lemma {:induction false} FlattenHolds(lists: seq<seq<Address>>, k: nat, j: nat) returns (n: nat)
    requires k < |lists| && j <= |lists[k]|
    ensures n <= |Flatten(lists)|
    ensures forall a :: a in Flatten(lists)[..n] <==> (exists i :: 0 <= i < k && a in lists[i]) || a in lists[k][..j]
  {
    var rest, last := lists[..|lists| - 1], lists[|lists| - 1];
    if k < |lists| - 1 {
      n := FlattenHolds(rest, k, j);
      assert Flatten(lists)[..n] == Flatten(rest)[..n];
    } else {
      n := |Flatten(rest)| + j;
      assert Flatten(lists)[..n] == Flatten(rest) + last[..j];
      forall a
        ensures a in Flatten(rest) <==> exists i :: 0 <= i < k && a in lists[i]
      {
        FlattenAll(rest, a);
        assert forall i :: 0 <= i < k ==> rest[i] == lists[i];
      }
    }
  }

  lemma {:induction false} FlattenAll(lists: seq<seq<Address>>, a: Address)
    ensures a in Flatten(lists) <==> exists i :: 0 <= i < |lists| && a in lists[i]
  {
    if lists != [] {
      var n := |lists| - 1;
      FlattenAll(lists[..n], a);
      assert forall i :: 0 <= i < n ==> lists[..n][i] == lists[i];
    }
  }

  /** The signers are distinct and in the order in which the messages name them: those met up to any
      point are the first ones. */
  lemma SignersByAppearance(tx: StdTx, k: nat, j: nat) returns (p: nat)
    requires k < |tx.msgSigners| && j <= |tx.msgSigners[k]|
    ensures Distinct(Signers(tx)) && p <= |Signers(tx)|
    ensures forall a :: a in Signers(tx)[..p] <==>
              (exists i :: 0 <= i < k && a in tx.msgSigners[i]) || a in tx.msgSigners[k][..j]
  {
    var all := Flatten(tx.msgSigners);
    var n := FlattenHolds(tx.msgSigners, k, j);
    DedupIsDistinct(all);
    DedupIsDistinct(all[..n]);
    DedupGrows(all, n);
    p := |Dedup(all[..n])|;
    assert Signers(tx)[..p] == Dedup(all[..n]);
  }

  /** The two loops of GetSigners over the messages and their signers, with a set of those seen. */
  method GetSigners(tx: StdTx) returns (signers: seq<Address>)
    ensures signers == Signers(tx)
    ensures Distinct(signers)
  {
    signers := [];
    var seen: set<Address> := {};
    for i := 0 to |tx.msgSigners|
      invariant signers == Dedup(Flatten(tx.msgSigners[..i])) && SameSigners(seen, signers)
    {
      ghost var before := Flatten(tx.msgSigners[..i]);
      assert tx.msgSigners[..i + 1][..i] == tx.msgSigners[..i];
      signers, seen := AddSigners(tx.msgSigners[i], signers, seen, before);
    }
    assert tx.msgSigners[..|tx.msgSigners|] == tx.msgSigners;
    DedupIsDistinct(Flatten(tx.msgSigners));
  }

  lemma NextSigner(before: seq<Address>, addrs: seq<Address>, j: nat)
    requires j < |addrs|
    ensures var known := Dedup(before + addrs[..j]);
            Dedup(before + addrs[..j + 1]) == if addrs[j] in known then known else known + [addrs[j]]
  {
    assert before + addrs[..j + 1] == (before + addrs[..j]) + [addrs[j]];
    DedupAppend(before + addrs[..j], addrs[j]);
  }

  ghost predicate SameSigners(seen: set<Address>, signers: seq<Address>)
  {
    forall a :: a in seen <==> a in signers
  }

  /** The signers of one message, after those of the messages before. */
  method AddSigners(addrs: seq<Address>, known: seq<Address>, marked: set<Address>, ghost before: seq<Address>)
    returns (signers: seq<Address>, seen: set<Address>)
    requires known == Dedup(before) && SameSigners(marked, known)
    ensures signers == Dedup(before + addrs) && SameSigners(seen, signers)
  {
    signers, seen := known, marked;
    assert before + addrs[..0] == before;
    for j := 0 to |addrs|
      invariant signers == Dedup(before + addrs[..j]) && SameSigners(seen, signers)
    {
      NextSigner(before, addrs, j);
      if addrs[j] !in seen {
        signers := signers + [addrs[j]];
        seen := seen + {addrs[j]};
      }
    }
    assert addrs[..|addrs|] == addrs;
  }

  // ---- the ante handler ----

  function NativeFee(tx: StdTx): int
  {
    if tx.fee.Some? then tx.fee.value else 0
  }

  function CountSubKeys(sigs: seq<Signature>): nat
  {
    if sigs == [] then 0
    else CountSubKeys(sigs[..|sigs| - 1])
         + (if sigs[|sigs| - 1].pubKey.Some? then sigs[|sigs| - 1].pubKey.value.subKeys else 1)
  }

  predicate ValidBasic(tx: StdTx)
  {
    && NativeFee(tx) >= 0
    && |tx.sigs| > 0
    && |tx.sigs| == |Signers(tx)|
    && tx.memo <= MAX_MEMO_CHARACTERS
    && CountSubKeys(tx.sigs) <= TX_SIG_LIMIT
  }

  method ValidateBasic(tx: StdTx) returns (ok: bool)
    ensures ok <==> ValidBasic(tx)
  {
    if NativeFee(tx) < 0 || |tx.sigs| == 0 {
      return false;
    }
    var signers := GetSigners(tx);
    if |tx.sigs| != |signers| || tx.memo > MAX_MEMO_CHARACTERS {
      return false;
    }
    var sigCount := 0;
    for i := 0 to |tx.sigs|
      invariant sigCount == CountSubKeys(tx.sigs[..i]) <= TX_SIG_LIMIT
    {
      assert tx.sigs[..i + 1][..i] == tx.sigs[..i];
      sigCount := sigCount + (if tx.sigs[i].pubKey.Some? then tx.sigs[i].pubKey.value.subKeys else 1);
      if sigCount > TX_SIG_LIMIT {
        CountGrows(tx.sigs, i + 1);
        return false;
      }
    }
    assert tx.sigs[..|tx.sigs|] == tx.sigs;
    return true;
  }

  lemma {:induction false} CountGrows(sigs: seq<Signature>, n: nat)
    requires n <= |sigs|
    ensures CountSubKeys(sigs[..n]) <= CountSubKeys(sigs)
    decreases |sigs| - n
  {
    if n == |sigs| {
      assert sigs[..n] == sigs;
    } else {
      assert sigs[..n + 1][..n] == sigs[..n];
      CountGrows(sigs, n + 1);
    }
  }

  /** The account number and the sequence in a signature are those of the account. */
  predicate NumbersMatch(acc: Account, sig: Signature, height: nat)
  {
    && (if height == 0 then sig.accountNumber == 0 else sig.accountNumber == acc.number)
    && sig.sequence == acc.sequence
  }

  function KeyOf(acc: Account, sig: Signature): Option<PubKey>
  {
    if acc.pubKey.Some? then acc.pubKey else sig.pubKey
  }

  function SigVerdict(address: Address, acc: Account, sig: Signature): Verdict
  {
    var key := KeyOf(acc, sig);
    if key.None? || (acc.pubKey.None? && key.value.address != address) then Fails
    else if key.value.kind.OtherKey? then Panic
    else if !sig.accepts(key.value) then Fails
    else Done
  }

  /** An account after its signature was processed. */
  function Signed(acc: Account, sig: Signature): Account
  {
    acc.(pubKey := KeyOf(acc, sig), sequence := (acc.sequence + 1) % UINT64_BOUND)
  }

  predicate AllKnown(accounts: map<Address, Account>, signers: seq<Address>)
  {
    forall i :: 0 <= i < |signers| ==> signers[i] in accounts
  }

  predicate AllMatch(accounts: map<Address, Account>, signers: seq<Address>, sigs: seq<Signature>, height: nat)
    requires |signers| == |sigs| && AllKnown(accounts, signers)
  {
    forall i :: 0 <= i < |signers| ==> NumbersMatch(accounts[signers[i]], sigs[i], height)
  }

  /** The verdict over the signatures from the first one that does not pass. */
  function SigsVerdict(accounts: map<Address, Account>, signers: seq<Address>, sigs: seq<Signature>, from: nat): Verdict
    requires |signers| == |sigs| && AllKnown(accounts, signers) && from <= |sigs|
    decreases |sigs| - from
  {
    if from == |sigs| then Done
    else
      var v := SigVerdict(signers[from], accounts[signers[from]], sigs[from]);
      if v.Done? then SigsVerdict(accounts, signers, sigs, from + 1) else v
  }

  /** A signature is judged alike before and after the fee was deducted. */
  lemma SigsVerdictAt(accounts: map<Address, Account>, signers: seq<Address>, sigs: seq<Signature>, i: nat, fee: nat)
    requires |signers| == |sigs| && AllKnown(accounts, signers) && i < |sigs|
    ensures SigsVerdict(accounts, signers, sigs, i)
         == if SigVerdict(signers[i], Paid(accounts[signers[i]], fee), sigs[i]).Done?
            then SigsVerdict(accounts, signers, sigs, i + 1)
            else SigVerdict(signers[i], Paid(accounts[signers[i]], fee), sigs[i])
  {
  }

  function FeeVerdict(s: AuthState, payer: Address, fee: nat): Verdict
    requires payer in s.accounts
  {
    if fee == 0 then Done
    else if s.accounts[payer].coins < fee then Fails
    else if s.pool + fee >= INT_BOUND then Panic
    else Done
  }

  function AnteVerdict(s: AuthState, tx: StdTx, height: nat): Verdict
  {
    var signers := Signers(tx);
    if !ValidBasic(tx) || !AllKnown(s.accounts, signers) || !AllMatch(s.accounts, signers, tx.sigs, height) then Fails
    else
      var fee := FeeVerdict(s, signers[0], NativeFee(tx));
      if !fee.Done? then fee else SigsVerdict(s.accounts, signers, tx.sigs, 0)
  }

  /** Every signer has signed, the first one has paid, and nobody else is touched. */
  ghost function AnteState(s: AuthState, tx: StdTx): AuthState
    requires ValidBasic(tx) && AllKnown(s.accounts, Signers(tx))
  {
    AuthState(SignedUpTo(s.accounts, Signers(tx), tx.sigs, NativeFee(tx), |tx.sigs|), s.pool + NativeFee(tx))
  }

  ghost function SignedUpTo(accounts: map<Address, Account>, signers: seq<Address>, sigs: seq<Signature>,
                            fee: nat, n: nat): map<Address, Account>
    requires |signers| == |sigs| && n <= |sigs|
  {
    map a | a in accounts ::
      if a in signers[..n] then
        var i := IndexOf(signers, a);
        Signed(Paid(accounts[a], if i == 0 then fee else 0), sigs[i])
      else accounts[a]
  }

  function Paid(acc: Account, fee: nat): Account
  {
    if acc.coins >= fee then acc.(coins := acc.coins - fee) else acc
  }

  function IndexOf(s: seq<Address>, a: Address): (i: nat)
    requires a in s
    ensures i < |s| && s[i] == a
  {
    if s[0] == a then 0 else 1 + IndexOf(s[1..], a)
  }

  lemma IndexOfDistinct(s: seq<Address>, i: nat)
    requires Distinct(s) && i < |s|
    ensures IndexOf(s, s[i]) == i
  {
  }

  lemma SignNone(accounts: map<Address, Account>, signers: seq<Address>, sigs: seq<Signature>, fee: nat)
    requires |signers| == |sigs|
    ensures SignedUpTo(accounts, signers, sigs, fee, 0) == accounts
  {
  }

  lemma SignNext(accounts: map<Address, Account>, signers: seq<Address>, sigs: seq<Signature>, fee: nat, n: nat)
    requires |signers| == |sigs| && n < |sigs| && Distinct(signers) && signers[n] in accounts
    ensures SignedUpTo(accounts, signers, sigs, fee, n + 1)
         == SignedUpTo(accounts, signers, sigs, fee, n)
              [signers[n] := Signed(Paid(accounts[signers[n]], if n == 0 then fee else 0), sigs[n])]
  {
    IndexOfDistinct(signers, n);
    assert signers[..n + 1] == signers[..n] + [signers[n]];
  }

  /** The first i signatures are verified, and their accounts written. */
  ghost predicate Signing(before: map<Address, Account>, now: map<Address, Account>, signers: seq<Address>,
                          sigs: seq<Signature>, fee: nat, i: nat)
  {
    && |signers| == |sigs| && i <= |sigs| && AllKnown(before, signers)
    && now == SignedUpTo(before, signers, sigs, fee, i)
    && SigsVerdict(before, signers, sigs, 0) == SigsVerdict(before, signers, sigs, i)
  }

  lemma SigningNone(accounts: map<Address, Account>, signers: seq<Address>, sigs: seq<Signature>, fee: nat)
    requires |signers| == |sigs| && AllKnown(accounts, signers)
    ensures Signing(accounts, accounts, signers, sigs, fee, 0)
  {
    SignNone(accounts, signers, sigs, fee);
  }

  lemma SigningAll(before: map<Address, Account>, now: map<Address, Account>, signers: seq<Address>,
                   sigs: seq<Signature>, fee: nat)
    requires Signing(before, now, signers, sigs, fee, |sigs|)
    ensures SigsVerdict(before, signers, sigs, 0) == Done
    ensures now == SignedUpTo(before, signers, sigs, fee, |sigs|)
  {
  }

  lemma SigningStep(before: map<Address, Account>, now: map<Address, Account>, signers: seq<Address>,
                    sigs: seq<Signature>, fee: nat, i: nat, acc: Account, v: Verdict)
    requires Signing(before, now, signers, sigs, fee, i) && i < |sigs| && Distinct(signers)
    requires acc == Paid(before[signers[i]], if i == 0 then fee else 0) && v == SigVerdict(signers[i], acc, sigs[i])
    ensures v.Done? ==> Signing(before, now[signers[i] := Signed(acc, sigs[i])], signers, sigs, fee, i + 1)
    ensures !v.Done? ==> v == SigsVerdict(before, signers, sigs, 0)
  {
    SigsVerdictAt(before, signers, sigs, i, if i == 0 then fee else 0);
    SignNext(before, signers, sigs, fee, i);
  }

  // ---- what the ante handler lets pass, written out ----

  /** The key that a signature has to be one of: the account's, or, while it has none, the one that
      comes with the signature, if it is that of the signer's address. */
  ghost predicate KeyFor(k: PubKey, address: Address, acc: Account, sig: Signature)
  {
    if acc.pubKey.Some? then acc.pubKey.value == k else sig.pubKey == Some(k) && k.address == address
  }

  ghost predicate Vouched(k: PubKey, address: Address, acc: Account, sig: Signature)
  {
    KeyFor(k, address, acc, sig) && (k.kind.Ed25519? || k.kind.Secp256k1?) && sig.accepts(k)
  }

  /** A key with which nothing is verified. */
  ghost predicate Unsupported(k: PubKey, address: Address, acc: Account, sig: Signature)
  {
    KeyFor(k, address, acc, sig) && k.kind.OtherKey?
  }

  function Keys(sig: Signature): nat
  {
    match sig.pubKey
    case None => 1
    case Some(k) => k.subKeys
  }

  function AllKeys(sigs: seq<Signature>): nat
  {
    if sigs == [] then 0 else Keys(sigs[0]) + AllKeys(sigs[1..])
  }

  /** Every signer has an account, and signed with its number and sequence. */
  ghost predicate Numbered(s: AuthState, tx: StdTx, height: nat)
    requires |tx.sigs| == |Signers(tx)|
  {
    forall i :: 0 <= i < |tx.sigs| ==>
      var a, sig := Signers(tx)[i], tx.sigs[i];
      && a in s.accounts && sig.sequence == s.accounts[a].sequence
      && sig.accountNumber == if height == 0 then 0 else s.accounts[a].number
  }

  /** The checks before the fee is taken. */
  ghost predicate WellFormed(s: AuthState, tx: StdTx, height: nat)
  {
    && (tx.fee.Some? ==> tx.fee.value >= 0)
    && 0 < |tx.sigs| == |Signers(tx)| && AllKeys(tx.sigs) <= 7 && tx.memo <= 100
    && Numbered(s, tx, height)
  }

  /** The i-th signature is one of its signer's key. */
  ghost predicate VouchedAt(s: AuthState, tx: StdTx, i: nat)
    requires i < |tx.sigs| == |Signers(tx)| && Signers(tx)[i] in s.accounts
  {
    exists k :: Vouched(k, Signers(tx)[i], s.accounts[Signers(tx)[i]], tx.sigs[i])
  }

  ghost predicate UnsupportedAt(s: AuthState, tx: StdTx, i: nat)
    requires i < |tx.sigs| == |Signers(tx)| && Signers(tx)[i] in s.accounts
  {
    exists k :: Unsupported(k, Signers(tx)[i], s.accounts[Signers(tx)[i]], tx.sigs[i])
  }

  ghost predicate VouchedUpTo(s: AuthState, tx: StdTx, n: nat)
    requires n <= |tx.sigs| == |Signers(tx)| && forall i :: 0 <= i < |tx.sigs| ==> Signers(tx)[i] in s.accounts
  {
    forall i :: 0 <= i < n ==> VouchedAt(s, tx, i)
  }

  /** The first signer has the fee, and the pool has room for it. */
  ghost predicate Affordable(s: AuthState, tx: StdTx)
    requires tx.sigs != [] && |tx.sigs| == |Signers(tx)| && Signers(tx)[0] in s.accounts
  {
    tx.fee.None? || tx.fee.value == 0 ||
    (tx.fee.value <= s.accounts[Signers(tx)[0]].coins && s.pool + tx.fee.value < INT_BOUND)
  }

  ghost predicate Authorized(s: AuthState, tx: StdTx, height: nat)
  {
    WellFormed(s, tx, height) && Affordable(s, tx) && VouchedUpTo(s, tx, |tx.sigs|)
  }

  /** The pool is full, or a signature comes with an unsupported key and those before it are right. */
  ghost predicate Unprocessable(s: AuthState, tx: StdTx, height: nat)
  {
    && WellFormed(s, tx, height)
    && if !Affordable(s, tx) then tx.fee.value <= s.accounts[Signers(tx)[0]].coins
       else exists i :: 0 <= i < |tx.sigs| && VouchedUpTo(s, tx, i) && UnsupportedAt(s, tx, i)
  }

  lemma SigVerdictIs(address: Address, acc: Account, sig: Signature)
    ensures SigVerdict(address, acc, sig).Done? <==> exists k :: Vouched(k, address, acc, sig)
    ensures SigVerdict(address, acc, sig).Panic? <==> exists k :: Unsupported(k, address, acc, sig)
  {
    var key := KeyOf(acc, sig);
    if key.Some? {
      assert Vouched(key.value, address, acc, sig) || !SigVerdict(address, acc, sig).Done?;
      assert Unsupported(key.value, address, acc, sig) || !SigVerdict(address, acc, sig).Panic?;
    }
  }

  lemma {:induction false} KeysAdd(sigs: seq<Signature>, sig: Signature)
    ensures AllKeys(sigs + [sig]) == AllKeys(sigs) + Keys(sig)
  {
    if sigs != [] {
      assert (sigs + [sig])[1..] == sigs[1..] + [sig];
      KeysAdd(sigs[1..], sig);
    } else {
      assert [sig][1..] == [];
      assert sigs + [sig] == [sig];
    }
  }

  lemma {:induction false} CountIsAllKeys(sigs: seq<Signature>)
    ensures CountSubKeys(sigs) == AllKeys(sigs)
  {
    if sigs != [] {
      var n := |sigs| - 1;
      CountIsAllKeys(sigs[..n]);
      KeysAdd(sigs[..n], sigs[n]);
      assert sigs[..n] + [sigs[n]] == sigs;
    }
  }

  lemma WellFormedIs(s: AuthState, tx: StdTx, height: nat)
    ensures WellFormed(s, tx, height) <==>
      ValidBasic(tx) && AllKnown(s.accounts, Signers(tx)) && AllMatch(s.accounts, Signers(tx), tx.sigs, height)
  {
    CountIsAllKeys(tx.sigs);
    if ValidBasic(tx) && AllKnown(s.accounts, Signers(tx)) && AllMatch(s.accounts, Signers(tx), tx.sigs, height) {
      forall i | 0 <= i < |tx.sigs|
        ensures Signers(tx)[i] in s.accounts && NumbersMatch(s.accounts[Signers(tx)[i]], tx.sigs[i], height)
      {
      }
    }
  }

  lemma {:induction false} SigsVerdictIs(s: AuthState, tx: StdTx, from: nat)
    requires from <= |tx.sigs| == |Signers(tx)| && AllKnown(s.accounts, Signers(tx)) && VouchedUpTo(s, tx, from)
    ensures var v := SigsVerdict(s.accounts, Signers(tx), tx.sigs, from);
            && (v.Done? <==> VouchedUpTo(s, tx, |tx.sigs|))
            && (v.Panic? <==> exists i :: 0 <= i < |tx.sigs| && VouchedUpTo(s, tx, i) && UnsupportedAt(s, tx, i))
    decreases |tx.sigs| - from
  {
    if from == |tx.sigs| {
      forall i | 0 <= i < from
        ensures !UnsupportedAt(s, tx, i)
      {
        assert VouchedAt(s, tx, i);
      }
    } else {
      var a := Signers(tx)[from];
      SigVerdictIs(a, s.accounts[a], tx.sigs[from]);
      if SigVerdict(a, s.accounts[a], tx.sigs[from]).Done? {
        assert VouchedAt(s, tx, from);
        SigsVerdictIs(s, tx, from + 1);
      } else {
        assert !VouchedAt(s, tx, from);
        assert forall i :: from < i < |tx.sigs| ==> !VouchedUpTo(s, tx, i);
        forall i | 0 <= i < from
          ensures !UnsupportedAt(s, tx, i)
        {
          assert VouchedAt(s, tx, i);
        }
        assert UnsupportedAt(s, tx, from) <==> SigVerdict(a, s.accounts[a], tx.sigs[from]).Panic?;
      }
    }
  }

  /** Exactly what the ante handler lets pass, and on what it panics. */
  lemma AntePassesExactly(s: AuthState, tx: StdTx, height: nat)
    ensures AnteVerdict(s, tx, height).Done? <==> Authorized(s, tx, height)
    ensures AnteVerdict(s, tx, height).Panic? <==> Unprocessable(s, tx, height)
  {
    WellFormedIs(s, tx, height);
    if WellFormed(s, tx, height) {
      SigsVerdictIs(s, tx, 0);
    }
  }

  /** A state after a passing ante handler: the first signer has paid the fee into the pool, every
      signer's sequence is the next uint64, its key is the one it signed with, and nothing else is
      changed. */
  ghost predicate Authenticated(s: AuthState, tx: StdTx, t: AuthState)
  {
    var fee := if tx.fee.Some? then tx.fee.value else 0;
    && t.pool == s.pool + fee && t.accounts.Keys == s.accounts.Keys
    && (forall a :: a in s.accounts && a !in Signers(tx) ==> t.accounts[a] == s.accounts[a])
    && |tx.sigs| == |Signers(tx)|
    && (forall i :: 0 <= i < |tx.sigs| ==>
          && Signers(tx)[i] in s.accounts
          && SignedWith(Signers(tx)[i], s.accounts[Signers(tx)[i]], tx.sigs[i], if i == 0 then fee else 0,
                        t.accounts[Signers(tx)[i]]))
  }

  ghost predicate SignedWith(a: Address, acc: Account, sig: Signature, fee: int, acc': Account)
  {
    && acc'.coins == acc.coins - fee && acc'.number == acc.number
    && acc'.sequence == (acc.sequence + 1) % 0x1_0000_0000_0000_0000
    && acc'.pubKey.Some? && Vouched(acc'.pubKey.value, a, acc, sig)
  }

  lemma SignedIs(s: AuthState, tx: StdTx, height: nat, i: nat)
    requires AnteVerdict(s, tx, height).Done? && i < |tx.sigs|
    ensures Signers(tx)[i] in AnteState(s, tx).accounts
    ensures SignedWith(Signers(tx)[i], s.accounts[Signers(tx)[i]], tx.sigs[i], if i == 0 then NativeFee(tx) else 0,
                       AnteState(s, tx).accounts[Signers(tx)[i]])
  {
    AntePassesExactly(s, tx, height);
    assert VouchedAt(s, tx, i);
    DedupIsDistinct(Flatten(tx.msgSigners));
    IndexOfDistinct(Signers(tx), i);
    assert Signers(tx)[..|tx.sigs|] == Signers(tx);
  }

  lemma AnteAuthenticates(s: AuthState, tx: StdTx, height: nat)
    requires AnteVerdict(s, tx, height).Done?
    ensures Authenticated(s, tx, AnteState(s, tx))
  {
    forall i | 0 <= i < |tx.sigs|
      ensures SignedWith(Signers(tx)[i], s.accounts[Signers(tx)[i]], tx.sigs[i], if i == 0 then NativeFee(tx) else 0,
                         AnteState(s, tx).accounts[Signers(tx)[i]])
    {
      SignedIs(s, tx, height, i);
    }
    assert Signers(tx)[..|tx.sigs|] == Signers(tx);
  }

  // ---- the refund ----

  function BitLen(n: nat): nat
  {
    if n == 0 then 0 else 1 + BitLen(n / 2)
  }

  /** The two overflow checks of Int.Mul. */
  predicate MulFits(a: nat, b: nat)
  {
    BitLen(a) + BitLen(b) <= 256 && a * b < INT_BOUND
  }

  function Product(a: nat, b: nat): nat
  {
    a * b
  }

  function RefundAmount(fee: nat, wanted: nat, used: nat): nat
    requires used < wanted
  {
    Product(fee, wanted - used) / wanted
  }

  function RefundVerdict(s: AuthState, tx: StdTx, wanted: nat, used: nat): Verdict
    requires Signers(tx) != [] && NativeFee(tx) >= 0
  {
    if wanted <= used then Done
    else if !MulFits(NativeFee(tx), wanted - used) then Panic
    else
      var refund := RefundAmount(NativeFee(tx), wanted, used);
      var payer := Signers(tx)[0];
      if payer !in s.accounts || s.accounts[payer].coins + refund >= INT_BOUND || s.pool < refund then Panic
      else Done
  }

  function RefundState(s: AuthState, tx: StdTx, first: Account, wanted: nat, used: nat): AuthState
    requires Signers(tx) != [] && NativeFee(tx) >= 0
    requires RefundVerdict(s, tx, wanted, used).Done?
  {
    if wanted <= used then s
    else
      var refund := RefundAmount(NativeFee(tx), wanted, used);
      var payer := Signers(tx)[0];
      AuthState(s.accounts[payer := first.(coins := s.accounts[payer].coins + refund)], s.pool - refund)
  }

  /** The account keeper and the fee keeper, as the ante handler and the refund use them. */
  class AuthKeepers {
    var accounts: map<Address, Account>
    var pool: nat

    ghost function State(): AuthState
      reads this
    {
      AuthState(accounts, pool)
    }

    constructor (accounts: map<Address, Account>, pool: nat)
      ensures State() == AuthState(accounts, pool)
    {
      this.accounts, this.pool := accounts, pool;
    }

    method GetSignerAccs(addrs: seq<Address>) returns (accs: seq<Account>, ok: bool)
      ensures ok <==> AllKnown(accounts, addrs)
      ensures ok ==> |accs| == |addrs| && forall i :: 0 <= i < |addrs| ==> accs[i] == accounts[addrs[i]]
    {
      accs := [];
      for i := 0 to |addrs|
        invariant |accs| == i
        invariant forall k :: 0 <= k < i ==> addrs[k] in accounts && accs[k] == accounts[addrs[k]]
      {
        if addrs[i] !in accounts {
          return accs, false;
        }
        accs := accs + [accounts[addrs[i]]];
      }
      return accs, true;
    }

    method ValidateAccNumAndSequence(accs: seq<Account>, sigs: seq<Signature>, height: nat) returns (ok: bool)
      requires |accs| == |sigs|
      ensures ok <==> forall i :: 0 <= i < |accs| ==> NumbersMatch(accs[i], sigs[i], height)
    {
      for i := 0 to |accs|
        invariant forall k :: 0 <= k < i ==> NumbersMatch(accs[k], sigs[k], height)
      {
        if height == 0 && sigs[i].accountNumber != 0 {
          return false;
        }
        if height != 0 && accs[i].number != sigs[i].accountNumber {
          return false;
        }
        if accs[i].sequence != sigs[i].sequence {
          return false;
        }
      }
      return true;
    }

    /** Deducts the fee from the payer's copy and adds it to the pool. */
    method ChargeFee(acc: Account, fee: nat) returns (acc': Account, verdict: Verdict)
      modifies this`pool
      ensures verdict == if fee == 0 then Done else if acc.coins < fee then Fails
                         else if old(pool) + fee >= INT_BOUND then Panic else Done
      ensures verdict.Done? ==> acc' == acc.(coins := acc.coins - fee) && pool == old(pool) + fee
    {
      if fee == 0 {
        return acc, Done;
      }
      if acc.coins < fee {
        return acc, Fails;
      }
      if pool + fee >= INT_BOUND {
        return acc, Panic;
      }
      pool := pool + fee;
      return acc.(coins := acc.coins - fee), Done;
    }

    /** The ante handler. Whatever it wrote before it stopped early is dropped by the caller. */
    method AnteHandler(tx: StdTx, height: nat) returns (verdict: Verdict)
      modifies this
      ensures verdict == AnteVerdict(old(State()), tx, height)
      ensures verdict.Done? ==> State() == AnteState(old(State()), tx)
      ensures verdict.Done? <==> Authorized(old(State()), tx, height)
      ensures verdict.Panic? <==> Unprocessable(old(State()), tx, height)
      ensures verdict.Done? ==> Authenticated(old(State()), tx, State())
    {
      verdict := RunAnte(tx, height);
      AntePassesExactly(old(State()), tx, height);
      if verdict.Done? {
        AnteAuthenticates(old(State()), tx, height);
      }
    }

    method RunAnte(tx: StdTx, height: nat) returns (verdict: Verdict)
      modifies this
      ensures verdict == AnteVerdict(old(State()), tx, height)
      ensures verdict.Done? ==> State() == AnteState(old(State()), tx)
    {
      var basic := ValidateBasic(tx);
      if !basic {
        return Fails;
      }
      var signers := GetSigners(tx);
      var accs, known := GetSignerAccs(signers);
      if !known {
        return Fails;
      }
      var numbers := ValidateAccNumAndSequence(accs, tx.sigs, height);
      if !numbers {
        assert !AllMatch(accounts, signers, tx.sigs, height);
        return Fails;
      }
      assert AllMatch(accounts, signers, tx.sigs, height);
      var payer, charged := ChargeFee(accs[0], NativeFee(tx));
      if !charged.Done? {
        return charged;
      }
      verdict := ProcessSigs(signers, accs[0 := payer], tx.sigs, NativeFee(tx));
    }

    method ProcessSigs(signers: seq<Address>, accs: seq<Account>, sigs: seq<Signature>, ghost fee: nat)
      returns (verdict: Verdict)
      requires |signers| == |sigs| == |accs| && |sigs| > 0 && Distinct(signers)
      requires AllKnown(accounts, signers)
      requires forall i :: 0 <= i < |accs| ==> accs[i] == Paid(accounts[signers[i]], if i == 0 then fee else 0)
      modifies this`accounts
      ensures verdict == SigsVerdict(old(accounts), signers, sigs, 0)
      ensures verdict.Done? ==> accounts == SignedUpTo(old(accounts), signers, sigs, fee, |sigs|)
    {
      SigningNone(accounts, signers, sigs, fee);
      for i := 0 to |sigs|
        invariant Signing(old(accounts), accounts, signers, sigs, fee, i)
      {
        var v := SigVerdict(signers[i], accs[i], sigs[i]);
        SigningStep(old(accounts), accounts, signers, sigs, fee, i, accs[i], v);
        if !v.Done? {
          return v;
        }
        accounts := accounts[signers[i] := Signed(accs[i], sigs[i])];
      }
      SigningAll(old(accounts), accounts, signers, sigs, fee);
      return Done;
    }

    /** The fee refund. `first` is the fee payer's account as the ante handler left it in the
        context; only its coins are read again from the store. */
    method FeeRefund(tx: StdTx, first: Account, gasWanted: nat, gasUsed: nat) returns (verdict: Verdict)
      requires Signers(tx) != [] && NativeFee(tx) >= 0
      modifies this
      ensures verdict == RefundVerdict(old(State()), tx, gasWanted, gasUsed)
      ensures verdict.Done? ==> State() == RefundState(old(State()), tx, first, gasWanted, gasUsed)
      ensures !verdict.Fails? && (gasWanted <= gasUsed ==> verdict.Done? && State() == old(State()))
      ensures gasUsed < gasWanted ==>
        var fee, payer := if tx.fee.Some? then tx.fee.value else 0, Signers(tx)[0];
        var share := fee * (gasWanted - gasUsed) / gasWanted;
        && (verdict.Done? <==>
              && MulFits(fee, gasWanted - gasUsed) && payer in old(accounts)
              && old(accounts)[payer].coins + share < INT_BOUND && share <= old(pool))
        && (verdict.Done? ==>
              && pool == old(pool) - share
              && accounts == old(accounts)[payer := first.(coins := old(accounts)[payer].coins + share)])
    {
      if gasWanted <= gasUsed {
        return Done;
      }
      var unusedGas := gasWanted - gasUsed;
      var fee := NativeFee(tx);
      if !MulFits(fee, unusedGas) {
        return Panic;
      }
      var refund := RefundAmount(fee, gasWanted, gasUsed);
      var payer := Signers(tx)[0];
      if payer !in accounts {
        return Panic;
      }
      var coins := accounts[payer].coins + refund;
      if coins >= INT_BOUND {
        return Panic;
      }
      accounts := accounts[payer := first.(coins := coins)];
      if pool < refund {
        return Panic;
      }
      pool := pool - refund;
      return Done;
    }
  }
}
