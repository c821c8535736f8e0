/** The bank keeper over accounts that hold coin sets: transfers of several inputs and outputs,
    and burning. */
module Bank {
  import opened Bytes
  import opened Chain
  import opened Sums
  import opened Decimals
  import opened Coins

  type Accounts = map<Address, seq<Coin>>

  /** An input or an output of a transfer. */
  datatype Transfer = Transfer(address: Address, coins: seq<Coin>)

  predicate Proper(coins: seq<Coin>)
  {
    SortedCoins(coins) && NonNegative(coins) && InBounds(coins)
  }

  ghost predicate WellFormed(accounts: Accounts)
  {
    forall a :: a in accounts ==> Proper(accounts[a])
  }

  function CoinsOf(accounts: Accounts, a: Address): seq<Coin>
  {
    if a in accounts then accounts[a] else []
  }

  function Has(accounts: Accounts, a: Address, d: Bytes): int
  {
    Amount(CoinsOf(accounts, a), d)
  }

  function Amounts(accounts: Accounts, d: Bytes): map<Address, int>
  {
    map a | a in accounts :: Amount(accounts[a], d)
  }

  /** What all accounts hold of a denomination. */
  ghost function Holdings(accounts: Accounts, d: Bytes): int
  {
    Sum(Amounts(accounts, d))
  }

  lemma AmountsPut(accounts: Accounts, a: Address, coins: seq<Coin>, d: Bytes)
    ensures Amounts(accounts[a := coins], d) == Amounts(accounts, d)[a := Amount(coins, d)]
  {
  }

  lemma HoldingsPut(accounts: Accounts, a: Address, coins: seq<Coin>, d: Bytes)
    ensures Holdings(accounts[a := coins], d) == Holdings(accounts, d) - Has(accounts, a, d) + Amount(coins, d)
  {
    AmountsPut(accounts, a, coins, d);
    SumUpdate(Amounts(accounts, d), a, Amount(coins, d));
  }

  // ---- transfers ----

  /** What the transfers give one account. */
  function Given(transfers: seq<Transfer>, a: Address, d: Bytes): int
  {
    if transfers == [] then 0
    else
      var last := transfers[|transfers| - 1];
      Given(transfers[..|transfers| - 1], a, d) + (if last.address == a then Amount(last.coins, d) else 0)
  }

  /** What the transfers give all accounts together. */
  function Total(transfers: seq<Transfer>, d: Bytes): int
  {
    if transfers == [] then 0
    else Total(transfers[..|transfers| - 1], d) + Amount(transfers[|transfers| - 1].coins, d)
  }

  lemma GivenMore(transfers: seq<Transfer>, i: nat, a: Address, d: Bytes)
    requires i < |transfers|
    ensures Given(transfers[..i + 1], a, d) == Given(transfers[..i], a, d) +
            (if transfers[i].address == a then Amount(transfers[i].coins, d) else 0)
    ensures Total(transfers[..i + 1], d) == Total(transfers[..i], d) + Amount(transfers[i].coins, d)
  {
    assert transfers[..i + 1][..i] == transfers[..i];
  }

  predicate ValidTransfer(t: Transfer)
  {
    t.address.bytes != [] && t.coins != [] && Proper(t.coins) && ZeroFree(t.coins)
  }

  predicate AllValid(transfers: seq<Transfer>)
  {
    forall i :: 0 <= i < |transfers| ==> ValidTransfer(transfers[i])
  }

  // ---- ValidateBasic ----

  lemma MergedProper(x: seq<Coin>, y: seq<Coin>)
    requires Proper(x) && Proper(y) && Merged(x, y).Returns?
    ensures SortedCoins(Merged(x, y).value) && ZeroFree(Merged(x, y).value) && NonNegative(Merged(x, y).value)
    ensures forall d :: Amount(Merged(x, y).value, d) == Amount(x, d) + Amount(y, d)
  {
    var sum := Merged(x, y).value;
    MergedIsSorted(x, y);
    forall d
      ensures Amount(sum, d) == Amount(x, d) + Amount(y, d) && Amount(sum, d) >= 0
    {
      MergedAmount(x, y, d);
      AmountNonNegative(x, d);
      AmountNonNegative(y, d);
    }
    forall i | 0 <= i < |sum|
      ensures sum[i].amount >= 0
    {
      AmountAt(sum, i);
    }
  }

  /** A merge holds no amount that is not in one of the lists, or a sum that was found to fit. */
  lemma {:induction false} MergedInBounds(x: seq<Coin>, y: seq<Coin>)
    requires InBounds(x) && InBounds(y) && SortedCoins(x) && SortedCoins(y) && Merged(x, y).Returns?
    ensures InBounds(Merged(x, y).value)
    decreases |x| + |y|
  {
    NonZeroIs(x);
    NonZeroIs(y);
    if x != [] && y != [] {
      if Less(x[0].denom, y[0].denom) {
        MergedInBounds(x[1..], y);
      } else if x[0].denom == y[0].denom {
        MergedInBounds(x[1..], y[1..]);
      } else {
        MergedInBounds(x, y[1..]);
      }
    } else {
      forall i | 0 <= i < |Merged(x, y).value|
        ensures FitsInt(Merged(x, y).value[i].amount)
      {
        assert Merged(x, y).value[i] in x || Merged(x, y).value[i] in y;
      }
    }
  }

  method Validate(t: Transfer) returns (ok: bool)
    requires InBounds(t.coins)
    ensures ok <==> ValidTransfer(t)
  {
    if t.address.bytes == [] {
      return false;
    }
    var valid := IsValidV0(t.coins);
    if !valid {
      return false;
    }
    return t.coins != [];
  }

  /** The first i transfers, and all before, give what 255 bits hold. */
  ghost predicate Within(transfers: seq<Transfer>, i: nat)
    requires i <= |transfers|
  {
    forall k, d :: 0 <= k <= i ==> Total(transfers[..k], d) < INT_BOUND
  }

  /** Valid transfers, up to one of them, give more of a denomination than 255 bits hold. */
  ghost predicate Overflows(transfers: seq<Transfer>)
  {
    exists k, d :: 0 <= k <= |transfers| && AllValid(transfers[..k]) && Total(transfers[..k], d) >= INT_BOUND
  }

  /** Adds up the coins of the transfers, after checking each. */
  method TotalCoins(transfers: seq<Transfer>) returns (v: Verdict, total: seq<Coin>)
    requires forall i :: 0 <= i < |transfers| ==> InBounds(transfers[i].coins)
    ensures v == if Overflows(transfers) then Panic else if AllValid(transfers) then Done else Fails
    ensures v == Done ==> Proper(total) && ZeroFree(total) && forall d :: Amount(total, d) == Total(transfers, d)
  {
    total := [];
    for i := 0 to |transfers|
      invariant forall k :: 0 <= k < i ==> ValidTransfer(transfers[k])
      invariant Proper(total) && ZeroFree(total) && Within(transfers, i)
      invariant forall d :: Amount(total, d) == Total(transfers[..i], d)
    {
      var ok := Validate(transfers[i]);
      if !ok {
        return Fails, total;
      }
      var sum := Merged(total, transfers[i].coins);
      if sum.Panics? {
        OverflowsAt(transfers, i, total);
        return Panic, total;
      }
      MergedProper(total, transfers[i].coins);
      MergedInBounds(total, transfers[i].coins);
      WithinMore(transfers, i, total, sum.value);
      total := sum.value;
    }
    assert transfers[..|transfers|] == transfers;
    v := Done;
  }

  lemma WithinMore(transfers: seq<Transfer>, i: nat, total: seq<Coin>, sum: seq<Coin>)
    requires i < |transfers| && Within(transfers, i) && InBounds(sum)
    requires forall d :: Amount(total, d) == Total(transfers[..i], d)
    requires forall d :: Amount(sum, d) == Amount(total, d) + Amount(transfers[i].coins, d)
    ensures Within(transfers, i + 1)
    ensures forall d :: Amount(sum, d) == Total(transfers[..i + 1], d)
  {
    forall d
      ensures Amount(sum, d) == Total(transfers[..i + 1], d) < INT_BOUND
    {
      GivenMore(transfers, i, transfers[i].address, d);
      AmountFits(sum, d);
    }
  }

  lemma OverflowsAt(transfers: seq<Transfer>, i: nat, total: seq<Coin>)
    requires i < |transfers| && Proper(total) && AllValid(transfers[..i]) && ValidTransfer(transfers[i])
    requires forall d :: Amount(total, d) == Total(transfers[..i], d)
    requires Merged(total, transfers[i].coins).Panics?
    ensures Overflows(transfers)
  {
    var d := ClashAt(total, transfers[i].coins);
    GivenMore(transfers, i, transfers[i].address, d);
    assert AllValid(transfers[..i + 1]) && Total(transfers[..i + 1], d) >= INT_BOUND;
  }

  /** What two lists clash in is, together, more than 255 bits hold. */
  lemma ClashAt(x: seq<Coin>, y: seq<Coin>) returns (d: Bytes)
    requires Proper(x) && Proper(y) && Merged(x, y).Panics?
    ensures Amount(x, d) + Amount(y, d) >= INT_BOUND
  {
    MergedPanicsIff(x, y);
    var p, q :| 0 <= p < |x| && 0 <= q < |y| && x[p].denom == y[q].denom && !FitsInt(x[p].amount + y[q].amount);
    d := x[p].denom;
    AmountAt(x, p);
    AmountAt(y, q);
  }

  lemma {:induction false} AmountFits(s: seq<Coin>, d: Bytes)
    requires InBounds(s)
    ensures Amount(s, d) < INT_BOUND
  {
    if s != [] {
      AmountFits(s[1..], d);
    }
  }

  /** A transfer passes exactly when it has inputs and outputs, all valid, and gives what it takes
      in every denomination; a sum that overflows before an invalid part is found panics. */
  method ValidateSend(inputs: seq<Transfer>, outputs: seq<Transfer>) returns (v: Verdict)
    requires forall i :: 0 <= i < |inputs| ==> InBounds(inputs[i].coins)
    requires forall i :: 0 <= i < |outputs| ==> InBounds(outputs[i].coins)
    ensures v == Panic <==>
      inputs != [] && outputs != [] && (Overflows(inputs) || (AllValid(inputs) && Overflows(outputs)))
    ensures v == Done <==>
      && inputs != [] && outputs != [] && AllValid(inputs) && AllValid(outputs)
      && !Overflows(inputs) && !Overflows(outputs) && Balanced(inputs, outputs)
  {
    if inputs == [] || outputs == [] {
      return Fails;
    }
    var totalIn, totalOut;
    v, totalIn := TotalCoins(inputs);
    if v != Done {
      return;
    }
    v, totalOut := TotalCoins(outputs);
    if v != Done {
      return;
    }
    EqualTotals(inputs, outputs, totalIn, totalOut);
    v := if totalIn == totalOut then Done else Fails;
  }

  lemma EqualTotals(inputs: seq<Transfer>, outputs: seq<Transfer>, totalIn: seq<Coin>, totalOut: seq<Coin>)
    requires SortedCoins(totalIn) && ZeroFree(totalIn) && SortedCoins(totalOut) && ZeroFree(totalOut)
    requires forall d :: Amount(totalIn, d) == Total(inputs, d)
    requires forall d :: Amount(totalOut, d) == Total(outputs, d)
    ensures totalIn == totalOut <==> Balanced(inputs, outputs)
  {
    if Balanced(inputs, outputs) {
      forall d
        ensures Amount(totalIn, d) == Amount(totalOut, d)
      {
        assert Total(inputs, d) == Total(outputs, d);
      }
      SameAmounts(totalIn, totalOut);
    }
    if totalIn == totalOut {
      forall d
        ensures Total(inputs, d) == Total(outputs, d)
      {
        assert Amount(totalIn, d) == Amount(totalOut, d);
      }
    }
  }

  /** As much is taken as is given. */
  ghost predicate Balanced(inputs: seq<Transfer>, outputs: seq<Transfer>)
  {
    forall d :: Total(inputs, d) == Total(outputs, d)
  }

  // ---- the keeper ----

  class Keeper {
    var accounts: Accounts
    var loosen: seq<Coin>
    var burned: seq<Coin>

    constructor (accounts: Accounts, loosen: seq<Coin>, burned: seq<Coin>)
      ensures this.accounts == accounts && this.loosen == loosen && this.burned == burned
    {
      this.accounts, this.loosen, this.burned := accounts, loosen, burned;
    }

    /** Succeeds exactly when the account has enough of every denomination. */
    method SubtractCoins(a: Address, coins: seq<Coin>) returns (v: Verdict)
      requires WellFormed(accounts) && Proper(coins)
      modifies this`accounts
      ensures WellFormed(accounts)
      ensures v == if Covers(CoinsOf(old(accounts), a), coins) then Done else Fails
      ensures if v == Done then Changed(old(accounts), accounts, a) else accounts == old(accounts)
      ensures v == Done ==> forall d :: Has(accounts, a, d) == Has(old(accounts), a, d) - Amount(coins, d)
    {
      var before := CoinsOf(accounts, a);
      SafeSubIs(before, coins);
      var diff := Merged(before, Negated(coins));
      if diff.Panics? {
        return Panic;
      }
      if AnyNegative(diff.value) {
        return Fails;
      }
      NegatedInBounds(coins);
      MergedInBounds(before, Negated(coins));
      accounts := accounts[a := diff.value];
      return Done;
    }

    /** Fails only by a panic, when a sum does not fit. */
    method AddCoins(a: Address, coins: seq<Coin>) returns (v: Verdict)
      requires WellFormed(accounts) && Proper(coins)
      modifies this`accounts
      ensures WellFormed(accounts)
      ensures v == if Clash(CoinsOf(old(accounts), a), coins) then Panic else Done
      ensures if v == Done then Changed(old(accounts), accounts, a) else accounts == old(accounts)
      ensures v == Done ==> forall d :: Has(accounts, a, d) == Has(old(accounts), a, d) + Amount(coins, d)
    {
      var before := CoinsOf(accounts, a);
      MergedPanicsIff(before, coins);
      var sum := Merged(before, coins);
      if sum.Panics? {
        return Panic;
      }
      MergedProper(before, coins);
      MergedInBounds(before, coins);
      accounts := accounts[a := sum.value];
      return Done;
    }

    method TakeInputs(inputs: seq<Transfer>) returns (v: Verdict)
      requires WellFormed(accounts) && AllValid(inputs)
      modifies this`accounts
      ensures WellFormed(accounts)
      ensures v == if Funded(old(accounts), inputs) then Done else Fails
      ensures v == Done ==> Shifted(old(accounts), accounts, inputs, false)
    {
      ghost var before := accounts;
      NotShifted(before, inputs, false);
      for i := 0 to |inputs|
        invariant WellFormed(accounts) && Shifted(before, accounts, inputs[..i], false)
      {
        ghost var was := accounts;
        v := SubtractCoins(inputs[i].address, inputs[i].coins);
        if v != Done {
          NotFunded(before, was, inputs, i);
          return;
        }
        ShiftMore(before, was, accounts, inputs, i, false);
      }
      assert inputs[..|inputs|] == inputs;
      WasFunded(before, accounts, inputs);
      v := Done;
    }

    method GiveOutputs(outputs: seq<Transfer>) returns (v: Verdict)
      requires WellFormed(accounts) && AllValid(outputs)
      modifies this`accounts
      ensures WellFormed(accounts)
      ensures v == if Overfull(old(accounts), outputs) then Panic else Done
      ensures v == Done ==> Shifted(old(accounts), accounts, outputs, true)
    {
      ghost var before := accounts;
      NotShifted(before, outputs, true);
      for i := 0 to |outputs|
        invariant WellFormed(accounts) && Shifted(before, accounts, outputs[..i], true)
      {
        ghost var was := accounts;
        v := AddCoins(outputs[i].address, outputs[i].coins);
        if v != Done {
          IsOverfull(before, was, outputs, i);
          return;
        }
        ShiftMore(before, was, accounts, outputs, i, true);
      }
      assert outputs[..|outputs|] == outputs;
      NotOverfull(before, accounts, outputs);
      v := Done;
    }

    /** It fails exactly when some account has less of a denomination than all its inputs together,
        and otherwise panics exactly when one would end with more than 255 bits hold. Otherwise
        every account ends with what it had, less its inputs, plus its outputs, however often an
        address occurs; so a transfer that passed its checks conserves every denomination. */
    method InputOutputCoins(inputs: seq<Transfer>, outputs: seq<Transfer>) returns (v: Verdict)
      requires WellFormed(accounts) && AllValid(inputs) && AllValid(outputs)
      modifies this`accounts
      ensures WellFormed(accounts)
      ensures v == if !Funded(old(accounts), inputs) then Fails
                   else if exists a, d :: Ending(old(accounts), inputs, outputs, a, d) >= INT_BOUND then Panic
                   else Done
      ensures v == Done ==> forall a, d :: Has(accounts, a, d) == Ending(old(accounts), inputs, outputs, a, d)
      ensures v == Done && Balanced(inputs, outputs) ==>
        forall d :: Holdings(accounts, d) == Holdings(old(accounts), d)
    {
      v := TakeInputs(inputs);
      if v != Done {
        return;
      }
      ghost var between := accounts;
      OverfullBetween(old(accounts), between, inputs, outputs);
      v := GiveOutputs(outputs);
      if v == Done {
        Conserved(old(accounts), between, accounts, inputs, outputs);
      }
    }

    /** The owner's balance and the loosen counter drop, and the burned counter rises, by the
        same coins. */
    method BurnCoins(owner: Address, coins: seq<Coin>) returns (v: Verdict)
      requires WellFormed(accounts) && Proper(loosen) && Proper(burned)
      requires coins != [] && Proper(coins) && ZeroFree(coins)
      modifies this
      ensures WellFormed(accounts)
      ensures v == if !Covers(CoinsOf(old(accounts), owner), coins) then Fails
                   else if !Covers(old(loosen), coins) || Clash(old(burned), coins) then Panic
                   else Done
      ensures v == Done ==> Proper(loosen) && Proper(burned) && Changed(old(accounts), accounts, owner)
      ensures v == Done ==> forall d ::
        && Has(accounts, owner, d) == Has(old(accounts), owner, d) - Amount(coins, d)
        && Holdings(accounts, d) == Holdings(old(accounts), d) - Amount(coins, d)
        && Amount(loosen, d) == Amount(old(loosen), d) - Amount(coins, d)
        && Amount(burned, d) == Amount(old(burned), d) + Amount(coins, d)
    {
      v := SubtractCoins(owner, coins);
      if v != Done {
        return;
      }
      SafeSubIs(loosen, coins);
      var diff := Merged(loosen, Negated(coins));
      if diff.Panics? || AnyNegative(diff.value) {
        return Panic;
      }
      NegatedInBounds(coins);
      MergedInBounds(loosen, Negated(coins));
      MergedPanicsIff(burned, coins);
      loosen := diff.value;
      var sum := Merged(burned, coins);
      if sum.Panics? {
        return Panic;
      }
      MergedProper(burned, coins);
      MergedInBounds(burned, coins);
      burned := sum.value;
      forall d
        ensures Holdings(accounts, d) == Holdings(old(accounts), d) - Amount(coins, d)
      {
        HoldingsPut(old(accounts), owner, accounts[owner], d);
      }
    }
  }

  function By(give: bool, amount: int): int
  {
    if give then amount else -amount
  }

  /** The accounts after some transfers were given or taken. */
  ghost predicate Shifted(before: Accounts, now: Accounts, transfers: seq<Transfer>, give: bool)
  {
    && (forall a, d :: Has(now, a, d) == Has(before, a, d) + By(give, Given(transfers, a, d)))
    && (forall d :: Holdings(now, d) == Holdings(before, d) + By(give, Total(transfers, d)))
  }

  lemma NotShifted(before: Accounts, transfers: seq<Transfer>, give: bool)
    ensures Shifted(before, before, transfers[..0], give)
  {
  }

  lemma ShiftMore(before: Accounts, was: Accounts, now: Accounts, transfers: seq<Transfer>, i: nat, give: bool)
    requires i < |transfers| && Shifted(before, was, transfers[..i], give) && Changed(was, now, transfers[i].address)
    requires forall d :: Has(now, transfers[i].address, d) ==
                         Has(was, transfers[i].address, d) + By(give, Amount(transfers[i].coins, d))
    ensures Shifted(before, now, transfers[..i + 1], give)
  {
    var t := transfers[i];
    forall a, d
      ensures Has(now, a, d) == Has(before, a, d) + By(give, Given(transfers[..i + 1], a, d))
    {
      GivenMore(transfers, i, a, d);
      assert Has(was, a, d) == Has(before, a, d) + By(give, Given(transfers[..i], a, d));
    }
    forall d
      ensures Holdings(now, d) == Holdings(before, d) + By(give, Total(transfers[..i + 1], d))
    {
      GivenMore(transfers, i, t.address, d);
      HoldingsPut(was, t.address, now[t.address], d);
      assert Has(now, t.address, d) == Amount(now[t.address], d);
    }
  }

  /** Every account has all its inputs together. */
  ghost predicate Funded(before: Accounts, inputs: seq<Transfer>)
  {
    forall a, d :: Given(inputs, a, d) <= Has(before, a, d)
  }

  ghost predicate Overfull(before: Accounts, outputs: seq<Transfer>)
  {
    exists a, d :: Has(before, a, d) + Given(outputs, a, d) >= INT_BOUND
  }

  /** What an account should end with. */
  function Ending(before: Accounts, inputs: seq<Transfer>, outputs: seq<Transfer>, a: Address, d: Bytes): int
  {
    Has(before, a, d) - Given(inputs, a, d) + Given(outputs, a, d)
  }

  lemma {:induction false} GivenGrows(transfers: seq<Transfer>, i: nat, a: Address, d: Bytes)
    requires AllValid(transfers) && i <= |transfers|
    ensures Given(transfers[..i], a, d) <= Given(transfers, a, d)
    decreases |transfers| - i
  {
    if i == |transfers| {
      assert transfers[..i] == transfers;
    } else {
      GivenMore(transfers, i, a, d);
      AmountNonNegative(transfers[i].coins, d);
      GivenGrows(transfers, i + 1, a, d);
    }
  }

  lemma HasBounds(accounts: Accounts, a: Address, d: Bytes)
    requires WellFormed(accounts)
    ensures 0 <= Has(accounts, a, d) < INT_BOUND
  {
    AmountNonNegative(CoinsOf(accounts, a), d);
    AmountFits(CoinsOf(accounts, a), d);
  }

  lemma NotFunded(before: Accounts, was: Accounts, inputs: seq<Transfer>, i: nat)
    requires AllValid(inputs) && i < |inputs| && Shifted(before, was, inputs[..i], false)
    requires !Covers(CoinsOf(was, inputs[i].address), inputs[i].coins)
    ensures !Funded(before, inputs)
  {
    var a := inputs[i].address;
    var d :| Amount(CoinsOf(was, a), d) < Amount(inputs[i].coins, d);
    assert Has(was, a, d) == Has(before, a, d) - Given(inputs[..i], a, d);
    GivenMore(inputs, i, a, d);
    GivenGrows(inputs, i + 1, a, d);
  }

  lemma WasFunded(before: Accounts, now: Accounts, inputs: seq<Transfer>)
    requires WellFormed(now) && Shifted(before, now, inputs, false)
    ensures Funded(before, inputs)
  {
    forall a, d
      ensures Given(inputs, a, d) <= Has(before, a, d)
    {
      HasBounds(now, a, d);
    }
  }

  lemma IsOverfull(before: Accounts, was: Accounts, outputs: seq<Transfer>, i: nat)
    requires AllValid(outputs) && i < |outputs| && WellFormed(was) && Shifted(before, was, outputs[..i], true)
    requires Clash(CoinsOf(was, outputs[i].address), outputs[i].coins)
    ensures Overfull(before, outputs)
  {
    var a := outputs[i].address;
    MergedPanicsIff(CoinsOf(was, a), outputs[i].coins);
    var d := ClashAt(CoinsOf(was, a), outputs[i].coins);
    assert Has(was, a, d) == Has(before, a, d) + Given(outputs[..i], a, d);
    GivenMore(outputs, i, a, d);
    GivenGrows(outputs, i + 1, a, d);
  }

  lemma NotOverfull(before: Accounts, now: Accounts, outputs: seq<Transfer>)
    requires WellFormed(now) && Shifted(before, now, outputs, true)
    ensures !Overfull(before, outputs)
  {
    forall a, d
      ensures Has(before, a, d) + Given(outputs, a, d) < INT_BOUND
    {
      HasBounds(now, a, d);
    }
  }

  lemma OverfullBetween(before: Accounts, between: Accounts, inputs: seq<Transfer>, outputs: seq<Transfer>)
    requires Shifted(before, between, inputs, false)
    ensures Overfull(between, outputs) <==> exists a, d :: Ending(before, inputs, outputs, a, d) >= INT_BOUND
  {
    forall a, d
      ensures Ending(before, inputs, outputs, a, d) == Has(between, a, d) + Given(outputs, a, d)
    {
    }
  }

  lemma Conserved(before: Accounts, between: Accounts, now: Accounts, inputs: seq<Transfer>, outputs: seq<Transfer>)
    requires Shifted(before, between, inputs, false) && Shifted(between, now, outputs, true)
    ensures forall a, d :: Has(now, a, d) == Ending(before, inputs, outputs, a, d)
    ensures Balanced(inputs, outputs) ==> forall d :: Holdings(now, d) == Holdings(before, d)
  {
    forall a, d
      ensures Has(now, a, d) == Ending(before, inputs, outputs, a, d)
    {
      assert Has(between, a, d) == Has(before, a, d) - Given(inputs, a, d);
    }
    if Balanced(inputs, outputs) {
      forall d
        ensures Holdings(now, d) == Holdings(before, d)
      {
        assert Holdings(between, d) == Holdings(before, d) - Total(inputs, d);
        assert Total(inputs, d) == Total(outputs, d);
      }
    }
  }

  /** Only one account is written. */
  predicate Changed(before: Accounts, now: Accounts, a: Address)
  {
    a in now && now == before[a := now[a]]
  }

  lemma NegatedInBounds(coins: seq<Coin>)
    requires SortedCoins(coins) && InBounds(coins)
    ensures SortedCoins(Negated(coins)) && InBounds(Negated(coins))
  {
  }
}
