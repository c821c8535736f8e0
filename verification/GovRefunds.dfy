/** How a settled proposal's deposits are split between refunds and the burned share: the
    decimal arithmetic of RefundDeposits. */
module GovRefunds {
  import opened Bytes
  import opened Chain
  import opened Arith
  import opened Decimals
  import opened Sums

  /** BurnRate is 0.2. */
  const BURN_RATE := 2_000_000_000

  function Sub(a: int, b: int): Outcome<int>
  {
    if FitsDec(a - b) then Returns(a - b) else Panics
  }

  function FromInt(i: int): int
  {
    i * ONE
  }

  /** The share of every deposit that is burned: a fifth of the minimal deposit over the sum. */
  function BurnShare(minDeposit: nat, sum: nat): Outcome<int>
  {
    match Mul(FromInt(minDeposit), BURN_RATE)
    case Panics => Panics
    case Returns(burn) => Quo(burn, FromInt(sum))
  }

  /** What one depositor gets back; a negative amount is not a coin, so it panics. */
  function RefundOf(amount: nat, rate: int): Outcome<nat>
  {
    match Mul(FromInt(amount), rate)
    case Panics => Panics
    case Returns(share) =>
      match Sub(FromInt(amount), share)
      case Panics => Panics
      case Returns(rest) =>
        match RoundInt(rest)
        case Panics => Panics
        case Returns(refund) => if refund < 0 then Panics else Returns(refund)
  }

  lemma RoundedWhole(k: int)
    ensures Rounded(k * ONE) == k
    decreases k < 0
  {
    if k < 0 { RoundedWhole(-k); assert -(k * ONE) == (-k) * ONE; }
  }

  /** The rate before it is rounded, without the factors that cancel. */
  lemma BurnShareIs(minDeposit: nat, sum: nat)
    requires 0 < sum && minDeposit < INT_BOUND && minDeposit <= 5 * sum
    ensures BurnShare(minDeposit, sum) == Returns(Quotient(minDeposit * BURN_RATE, FromInt(sum)))
    ensures 0 <= Quotient(minDeposit * BURN_RATE, FromInt(sum)) <= ONE
  {
    RoundedWhole(minDeposit * BURN_RATE);
    assert FromInt(minDeposit) * BURN_RATE == (minDeposit * BURN_RATE) * ONE;
    var x, b := minDeposit * BURN_RATE * ONE * ONE, FromInt(sum);
    assert x <= b * (ONE * ONE);
    QuotientBound(x, b, ONE * ONE);
    RoundedIsMonotone(0, TruncDiv(x, b));
    RoundedIsMonotone(TruncDiv(x, b), ONE * ONE);
    RoundedWhole(ONE);
  }

  lemma QuotientBound(x: nat, b: nat, n: nat)
    requires b > 0 && x <= b * n
    ensures 0 <= TruncDiv(x, b) <= n
  {
    DivBounds(x, b);
    LessOrEqual(b, x / b, n);
  }

  /** A refund is between nothing and the deposit, and within a half of its exact share. */
  lemma RefundBounds(amount: nat, rate: int)
    requires 0 <= rate <= ONE && amount < INT_BOUND
    ensures RefundOf(amount, rate).Returns?
    ensures RefundOf(amount, rate).value <= amount
    ensures -ONE <= 2 * (RefundOf(amount, rate).value * ONE - amount * (ONE - rate)) <= ONE
  {
    MulMonotone(amount, rate, ONE);
    MulMonotone(amount, 0, rate);
    RoundedWhole(amount * rate);
    assert FromInt(amount) * rate == (amount * rate) * ONE;
    var rest := amount * ONE - amount * rate;
    assert rest == amount * (ONE - rate);
    RoundedIsMonotone(0, rest);
    RoundedIsMonotone(rest, amount * ONE);
    RoundedWhole(amount);
    RoundedIsNearestEven(rest);
  }

  // ---- all the deposits of a proposal ----

  /** What every depositor gets back at a given rate. */
  function Refunds<K>(deposits: map<K, nat>, rate: int): map<K, nat>
  {
    map k | k in deposits :: var refund := RefundOf(deposits[k], rate); if refund.Returns? then refund.value else 0
  }

  /** A refund is at most the deposit, and within a half of its exact share. */
  predicate Fair(refund: int, amount: int, kept: int)
  {
    refund <= amount && -ONE <= 2 * (refund * ONE - amount * kept) <= ONE
  }

  lemma {:induction false} FairSums<K(!new)>(deposits: map<K, int>, refunds: map<K, int>, kept: int)
    requires refunds.Keys == deposits.Keys
    requires forall k :: k in deposits ==> Fair(refunds[k], deposits[k], kept)
    ensures FairTotal(Sum(refunds), Sum(deposits), kept, |deposits|)
    decreases |deposits|
  {
    if deposits == map[] {
      assert refunds == map[];
    } else {
      var k :| k in deposits;
      var others, rest := deposits - {k}, refunds - {k};
      Smaller(deposits, k);
      assert others.Keys == deposits.Keys - {k};
      FairSums(others, rest, kept);
      SumTake(deposits, k);
      SumTake(refunds, k);
      AddErrors(Sum(others), deposits[k], Sum(rest), refunds[k], kept, |others|);
    }
  }

  lemma RefundsAreFair<K(!new)>(deposits: map<K, nat>, rate: int)
    requires 0 <= rate <= ONE
    requires forall k :: k in deposits ==> deposits[k] < INT_BOUND
    ensures forall k :: k in deposits ==> RefundOf(deposits[k], rate) == Returns(Refunds(deposits, rate)[k])
    ensures forall k :: k in deposits ==> Fair(Refunds(deposits, rate)[k], deposits[k], ONE - rate)
  {
    forall k | k in deposits
      ensures RefundOf(deposits[k], rate) == Returns(Refunds(deposits, rate)[k])
      ensures Fair(Refunds(deposits, rate)[k], deposits[k], ONE - rate)
    {
      RefundBounds(deposits[k], rate);
    }
  }

  /** n refunds together. */
  predicate FairTotal(refunded: int, sum: int, kept: int, n: nat)
  {
    refunded <= sum && -(n * ONE) <= 2 * (refunded * ONE - sum * kept) <= n * ONE
  }

  lemma AddErrors(sum: int, last: int, refunded: int, refund: int, kept: int, n: nat)
    requires FairTotal(refunded, sum, kept, n) && Fair(refund, last, kept)
    ensures FairTotal(refund + refunded, last + sum, kept, n + 1)
  {
    assert (last + sum) * kept == sum * kept + last * kept;
  }

  /** Refunds and burned share add up to the deposits by definition; the burned share differs
      from a fifth of the minimal deposit by little, for n deposits of any size. */
  lemma BurnedAmount<K(!new)>(deposits: map<K, nat>, minDeposit: nat)
    requires 0 < Sum(deposits) && minDeposit <= 5 * Sum(deposits) && minDeposit < INT_BOUND
    requires forall k :: k in deposits ==> deposits[k] < INT_BOUND
    ensures var rate := BurnShare(minDeposit, Sum(deposits));
            && rate.Returns? && 0 <= rate.value <= ONE
            && (forall k :: k in deposits ==>
                  && RefundOf(deposits[k], rate.value) == Returns(Refunds(deposits, rate.value)[k])
                  && Refunds(deposits, rate.value)[k] <= deposits[k])
            && Sum(Refunds(deposits, rate.value)) <= Sum(deposits)
            && NearFifth(Sum(deposits) - Sum(Refunds(deposits, rate.value)), minDeposit, Sum(deposits), |deposits|)
  {
    var sum := Sum(deposits);
    BurnShareIs(minDeposit, sum);
    var rate := BurnShare(minDeposit, sum).value;
    RefundsAreFair(deposits, rate);
    FairSums(deposits, Refunds(deposits, rate), ONE - rate);
    QuoIsClose(minDeposit * BURN_RATE, FromInt(sum));
    CombineErrors(sum, Sum(Refunds(deposits, rate)), rate, minDeposit, |deposits|);
  }

  /** |burned - minDeposit/5| <= n/2 + sum*(1/2 + 10^-10)*10^-10, times 2*10^20. */
  predicate NearFifth(burned: int, minDeposit: int, sum: int, n: nat)
  {
    2 * Abs(burned * ONE * ONE - minDeposit * 2_000_000_000 * ONE) <= n * ONE * ONE + sum * (ONE + 2)
  }

  lemma CombineErrors(sum: int, refunded: int, rate: int, minDeposit: int, n: nat)
    requires FairTotal(refunded, sum, ONE - rate, n)
    requires 2 * Abs(rate * (sum * ONE) * ONE - minDeposit * BURN_RATE * ONE * ONE) <= sum * ONE * (ONE + 2)
    ensures NearFifth(sum - refunded, minDeposit, sum, n)
  {
    var product := sum * rate;
    assert sum * (ONE - rate) == sum * ONE - product;
    assert rate * (sum * ONE) == product * ONE;
  }

  /** Exactly when a refund does not panic: the share fits, and it does not exceed the deposit
      by more than a half. */
  lemma RefundReturnsIff(amount: nat, rate: nat)
    requires amount < INT_BOUND
    ensures RefundOf(amount, rate).Returns? <==> FitsDec(amount * rate) && 2 * (amount * rate - amount * ONE) <= ONE
  {
    ShareIs(amount, rate);
    RestRounds(amount, amount * rate);
  }

  /** No refund exceeds its deposit, whatever the rate. */
  lemma RefundsAtMost<K(!new)>(deposits: map<K, nat>, rate: nat)
    ensures forall k :: k in deposits ==> Refunds(deposits, rate)[k] <= deposits[k]
    ensures 0 <= Sum(Refunds(deposits, rate)) <= Sum(deposits)
  {
    forall k | k in deposits
      ensures Refunds(deposits, rate)[k] <= deposits[k]
    {
      if RefundOf(deposits[k], rate).Returns? {
        RefundAtMost(deposits[k], rate);
      }
    }
    SumNonNegative(Refunds(deposits, rate));
    SumMonotone(Refunds(deposits, rate), deposits);
  }

  lemma RefundAtMost(amount: nat, rate: nat)
    requires RefundOf(amount, rate).Returns?
    ensures RefundOf(amount, rate).value <= amount
  {
    ShareIs(amount, rate);
    RestRounds(amount, amount * rate);
  }

  lemma ShareIs(amount: nat, rate: nat)
    ensures Rounded(FromInt(amount) * rate) == amount * rate
  {
    RoundedWhole(amount * rate);
    assert FromInt(amount) * rate == (amount * rate) * ONE;
  }

  lemma RestRounds(amount: nat, share: nat)
    ensures Rounded(amount * ONE - share) >= 0 <==> 2 * (share - amount * ONE) <= ONE
    ensures Rounded(amount * ONE - share) <= amount
  {
    RoundedIsNearestEven(amount * ONE - share);
    RoundedWhole(amount);
    RoundedIsMonotone(amount * ONE - share, amount * ONE);
  }

  /** The rate is rounded from twenty places of a fifth of the minimal deposit over the sum. */
  lemma BurnShareRounds(minDeposit: nat, sum: nat)
    requires 0 < sum && minDeposit < INT_BOUND
    ensures BurnShare(minDeposit, sum) == Returns(Rounded(FifthOver(minDeposit, sum)))
    ensures Rounded(FifthOver(minDeposit, sum)) >= 0
  {
    var burn := minDeposit * BURN_RATE;
    RoundedWhole(burn);
    assert FromInt(minDeposit) * BURN_RATE == burn * ONE;
    SameQuotient(burn * ONE, sum);
    var t := burn * ONE / sum;
    DivBounds(burn * ONE, sum);
    MulMonotone(t, 1, sum);
    assert t <= sum * t;
    RoundedIsMonotone(0, t);
    RoundedIsMonotone(t, burn * ONE);
  }

  lemma SameQuotient(x: nat, b: nat)
    requires b > 0
    ensures TruncDiv(x * ONE, FromInt(b)) == x / b
  {
    DivBounds(x, b);
    var q := x / b;
    assert b * ONE * q == b * q * ONE;
    DivUnique(x * ONE, b * ONE, q);
  }

  /** A rate above one leaves a refund as long as the excess is less than the rounding. */
  lemma RefundReturnsUpTo(amount: nat, rate: nat)
    requires 0 < amount < INT_BOUND
    ensures RefundOf(amount, rate).Returns? <==> rate <= ONE + HALF / amount
  {
    RefundReturnsIff(amount, rate);
    DivBounds(HALF, amount);
    var excess := rate - ONE;
    assert amount * rate == amount * ONE + amount * excess;
    if excess <= HALF / amount {
      MulMonotone(amount, excess, HALF / amount);
    } else {
      MulMonotone(amount, HALF / amount + 1, excess);
      assert amount * (HALF / amount + 1) == amount * (HALF / amount) + amount;
    }
  }

  ghost predicate AllReturn<K(!new)>(deposits: map<K, nat>, refundOf: nat -> Outcome<nat>)
  {
    forall k :: k in deposits ==> refundOf(deposits[k]).Returns?
  }

  /** The refund of a single deposit at the rate of its proposal. */
  function Refunder(rate: int): nat -> Outcome<nat>
  {
    (amount: nat) => RefundOf(amount, rate)
  }

  /** RefundDeposits's arithmetic on all the records of a proposal. */
  ghost predicate RefundsReturn<K(!new)>(deposits: map<K, nat>, minDeposit: nat)
  {
    SumNonNegative(deposits);
    var rate := BurnShare(minDeposit, Sum(deposits));
    rate.Returns? && AllReturn(deposits, Refunder(rate.value))
  }

  /** Twenty places of a fifth of the minimal deposit over the sum. */
  function FifthOver(minDeposit: nat, sum: nat): nat
    requires 0 < sum
  {
    minDeposit * BURN_RATE * ONE / sum
  }

  /** Rounded to ten places, a share exceeds one by at most half a unit of the amount. */
  predicate Leaves(amount: nat, share: nat)
  {
    amount == 0 || RoundsToAtMost(share, ONE + HALF / amount)
  }

  /** Exactly when all of it returns, for any deposits and any minimal deposit: there is something
      to divide by, and a fifth of the minimal deposit over the sum, rounded, exceeds one by at
      most half a unit of every deposit. */
  lemma RefundsReturnIff<K(!new)>(deposits: map<K, nat>, minDeposit: nat)
    requires minDeposit < INT_BOUND
    requires forall k :: k in deposits ==> deposits[k] < INT_BOUND
    ensures RefundsReturn(deposits, minDeposit) <==>
              && 0 < Sum(deposits)
              && forall k :: k in deposits ==> Leaves(deposits[k], FifthOver(minDeposit, Sum(deposits)))
  {
    SumNonNegative(deposits);
    var sum := Sum(deposits);
    if sum > 0 {
      BurnShareRounds(minDeposit, sum);
      AllReturnIff(deposits, FifthOver(minDeposit, sum));
    } else {
      NothingToDivideBy(minDeposit);
    }
  }

  lemma AllReturnIff<K(!new)>(deposits: map<K, nat>, share: nat)
    requires forall k :: k in deposits ==> deposits[k] < INT_BOUND
    ensures AllReturn(deposits, Refunder(Rounded(share))) <==> forall k :: k in deposits ==> Leaves(deposits[k], share)
  {
    forall k | k in deposits
      ensures Refunder(Rounded(share))(deposits[k]).Returns? <==> Leaves(deposits[k], share)
    {
      RefundLeaves(deposits[k], share);
    }
  }

  lemma RefundLeaves(amount: nat, share: nat)
    requires amount < INT_BOUND
    ensures Refunder(Rounded(share))(amount).Returns? <==> Leaves(amount, share)
  {
    RoundedIsMonotone(0, share);
    if amount == 0 {
      RefundReturnsIff(0, Rounded(share));
    } else {
      RefundReturnsUpTo(amount, Rounded(share));
      RoundedAtMost(share, ONE + HALF / amount);
    }
  }

  lemma RateIsNatural(minDeposit: nat, sum: nat)
    requires BurnShare(minDeposit, sum).Returns?
    ensures 0 < sum && 0 <= BurnShare(minDeposit, sum).value
  {
    if sum == 0 {
      NothingToDivideBy(minDeposit);
    } else {
      var burn := minDeposit * BURN_RATE;
      RoundedWhole(burn);
      assert FromInt(minDeposit) * BURN_RATE == burn * ONE;
      SameQuotient(burn * ONE, sum);
      RoundedIsMonotone(0, FifthOver(minDeposit, sum));
    }
  }

  lemma NothingToDivideBy(minDeposit: nat)
    ensures BurnShare(minDeposit, 0).Panics?
  {
  }

  /** Were the minimal deposit raised, by a parameter change, to ten times what a proposal
      collected, its refunds would panic. */
  lemma RaisedMinDepositPanics()
    ensures !RefundsReturn(map[0 := 1], 10)
  {
    var deposits: map<int, nat> := map[0 := 1];
    SumTake(deposits, 0);
    assert deposits - {0} == map[];
    RefundsReturnIff(deposits, 10);
    assert 0 in deposits && !Leaves(deposits[0], FifthOver(10, 1));
  }

  /** As long as it is at most five times the deposits, nothing panics. */
  lemma RefundsReturnBelow<K(!new)>(deposits: map<K, nat>, minDeposit: nat)
    requires 0 < Sum(deposits) && minDeposit <= 5 * Sum(deposits) && minDeposit < INT_BOUND
    requires forall k :: k in deposits ==> deposits[k] < INT_BOUND
    ensures RefundsReturn(deposits, minDeposit)
  {
    BurnedAmount(deposits, minDeposit);
  }
}
