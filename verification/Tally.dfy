/** The tally of a proposal under vote. Powers are decimals, scaled by 10^10. */
module Tally {
  import opened Bytes
  import opened Chain
  import opened Arith
  import opened Sums
  import opened Decimals
  import opened GovRefunds
  import opened GovSpec

  type Powers = map<Address, nat>

  type Votes = map<Address, VoteOption>

  // ---- what is counted ----

  /** The bonded validators that voted, with their powers. */
  function Counted(bonded: Powers, votes: Votes): Powers
  {
    map a | a in bonded && a in votes :: bonded[a]
  }

  /** Those of them that chose one option. */
  function Choosing(bonded: Powers, votes: Votes, option: VoteOption): Powers
  {
    map a | a in bonded && a in votes && votes[a] == option :: bonded[a]
  }

  ghost function Bucket(bonded: Powers, votes: Votes, option: VoteOption): int
  {
    Sum(Choosing(bonded, votes, option))
  }

  ghost function Voted(bonded: Powers, votes: Votes): int
  {
    Sum(Counted(bonded, votes))
  }

  lemma CountOne(bonded: Powers, votes: Votes, a: Address, option: VoteOption)
    requires a !in votes
    ensures Counted(bonded, votes[a := option]) ==
            if a in bonded then Counted(bonded, votes)[a := bonded[a]] else Counted(bonded, votes)
  {
  }

  lemma ChooseOne(bonded: Powers, votes: Votes, a: Address, option: VoteOption, o: VoteOption)
    requires a !in votes
    ensures Choosing(bonded, votes[a := option], o) ==
            if a in bonded && o == option then Choosing(bonded, votes, o)[a := bonded[a]]
            else Choosing(bonded, votes, o)
  {
  }

  lemma BucketMore(bonded: Powers, votes: Votes, a: Address, option: VoteOption, o: VoteOption)
    requires a !in votes
    ensures Bucket(bonded, votes[a := option], o) ==
            Bucket(bonded, votes, o) + (if a in bonded && o == option then bonded[a] else 0)
  {
    ChooseOne(bonded, votes, a, option, o);
    if a in bonded && o == option {
      SumUpdate(Choosing(bonded, votes, o), a, bonded[a]);
    }
  }

  lemma VotedMore(bonded: Powers, votes: Votes, a: Address, option: VoteOption)
    requires a !in votes
    ensures Voted(bonded, votes[a := option]) == Voted(bonded, votes) + (if a in bonded then bonded[a] else 0)
  {
    CountOne(bonded, votes, a, option);
    if a in bonded {
      SumUpdate(Counted(bonded, votes), a, bonded[a]);
    }
  }

  /** The four buckets add up to what was voted. */
  lemma {:induction false} BucketsAddUp(bonded: Powers, votes: Votes)
    ensures Bucket(bonded, votes, Yes) + Bucket(bonded, votes, Abstain) + Bucket(bonded, votes, No)
            + Bucket(bonded, votes, NoWithVeto) == Voted(bonded, votes)
    decreases |votes|
  {
    if votes == map[] {
      NothingCounted(bonded);
    } else {
      var a :| a in votes;
      Smaller(votes, a);
      var rest, option := votes - {a}, votes[a];
      BucketsAddUp(bonded, rest);
      assert votes == rest[a := option];
      BucketMore(bonded, rest, a, option, Yes);
      BucketMore(bonded, rest, a, option, Abstain);
      BucketMore(bonded, rest, a, option, No);
      BucketMore(bonded, rest, a, option, NoWithVeto);
      VotedMore(bonded, rest, a, option);
    }
  }

  lemma NothingCounted(bonded: Powers)
    ensures Voted(bonded, map[]) == 0
    ensures forall o :: Bucket(bonded, map[], o) == 0
  {
    assert Counted(bonded, map[]) == map[];
    forall o
      ensures Bucket(bonded, map[], o) == 0
    {
      assert Choosing(bonded, map[], o) == map[];
    }
  }

  lemma {:induction false} SubSum(all: Powers, some: Powers)
    requires forall a :: a in some ==> a in all && all[a] == some[a]
    ensures 0 <= Sum(some) <= Sum(all)
    decreases |some|
  {
    SumNonNegative(all);
    if some != map[] {
      var a :| a in some;
      Smaller(some, a);
      SubSum(all - {a}, some - {a});
      SumTake(all, a);
      SumTake(some, a);
    }
  }

  /** Each bucket is at most what was voted, and that at most the whole bonded power. */
  lemma CountedBounds(bonded: Powers, votes: Votes)
    ensures 0 <= Voted(bonded, votes) <= Sum(bonded)
    ensures forall o :: 0 <= Bucket(bonded, votes, o) <= Voted(bonded, votes)
  {
    SubSum(bonded, Counted(bonded, votes));
    forall o
      ensures 0 <= Bucket(bonded, votes, o) <= Voted(bonded, votes)
    {
      SubSum(Counted(bonded, votes), Choosing(bonded, votes, o));
    }
  }

  // ---- the verdict ----

  function Judge(p: Thresholds, yes: int, abstain: int, veto: int, total: int, system: int): Outcome<Result>
  {
    if total - abstain == 0 then Returns(Reject)
    else
      match Quo(total, system)
      case Panics => Panics
      case Returns(turnout) =>
        if p.participation > turnout then Returns(Reject)
        else
          match Quo(veto, total)
          case Panics => Panics
          case Returns(vetoes) =>
            if vetoes > p.veto then Returns(RejectVeto)
            else
              match Quo(yes, total)
              case Panics => Panics
              case Returns(share) => if share > p.threshold then Returns(Pass) else Returns(Reject)
  }

  lemma ShareFits(a: nat, b: nat)
    requires a <= b && 0 < b
    ensures 0 <= Quotient(a, b) <= ONE
    ensures Quo(a, b) == Returns(Quotient(a, b))
  {
    var x := a * ONE * ONE;
    assert x == a * (ONE * ONE);
    MulMonotone(ONE * ONE, a, b);
    assert x <= b * (ONE * ONE);
    QuotientBound(x, b, ONE * ONE);
    RoundedIsMonotone(0, TruncDiv(x, b));
    RoundedIsMonotone(TruncDiv(x, b), ONE * ONE);
    RoundedWhole(ONE);
  }

  /** Nothing is divided by zero, and when a proposal passes, what that means exactly. */
  lemma JudgeIs(p: Thresholds, yes: nat, abstain: nat, no: nat, veto: nat, system: nat)
    requires yes + abstain + no + veto <= system
    ensures var total := yes + abstain + no + veto;
            var verdict := Judge(p, yes, abstain, veto, total, system);
            && verdict.Returns?
            && (total != abstain ==> 0 < total && 0 < system)
            && (verdict.value == Pass <==>
                  && total != abstain
                  && p.participation <= Quotient(total, system)
                  && Quotient(veto, total) <= p.veto
                  && p.threshold < Quotient(yes, total))
            && (verdict.value == RejectVeto <==>
                  && total != abstain
                  && p.participation <= Quotient(total, system)
                  && p.veto < Quotient(veto, total))
  {
    var total := yes + abstain + no + veto;
    if total != abstain {
      ShareFits(total, system);
      ShareFits(veto, total);
      ShareFits(yes, total);
    }
  }

  /** Whatever passes has more than the threshold of all votes cast, exactly and not only after
      rounding, so more than that of those not abstaining; the quorum and veto shares are met up
      to half a unit in the last place, and 10^-10 of one. */
  lemma PassMeans(p: Thresholds, yes: nat, abstain: nat, no: nat, veto: nat, system: nat)
    requires yes + abstain + no + veto <= system
    requires Judge(p, yes, abstain, veto, yes + abstain + no + veto, system) == Returns(Pass)
    ensures var total := yes + abstain + no + veto;
            && p.threshold * total < yes * ONE
            && p.threshold * (total - abstain) < yes * ONE
            && 2 * (p.participation * system - total * ONE) * ONE <= system * (ONE + 2)
            && 2 * (veto * ONE - p.veto * total) * ONE <= total * (ONE + 2)
  {
    var total := yes + abstain + no + veto;
    JudgeIs(p, yes, abstain, no, veto, system);
    ShareAbove(p.threshold, yes, total);
    FewerThanAll(p.threshold, yes, abstain, total);
    QuoIsClose(total, system);
    AtLeast(p.participation, Quotient(total, system), total, system);
    QuoIsClose(veto, total);
    AtMost(p.veto, Quotient(veto, total), veto, total);
  }

  lemma FewerThanAll(threshold: int, yes: nat, abstain: nat, total: nat)
    requires abstain <= total && threshold * total < yes * ONE
    ensures threshold * (total - abstain) < yes * ONE || (abstain == total && yes == 0)
  {
    if threshold >= 0 {
      MulMonotone(threshold, total - abstain, total);
    } else {
      assert threshold * (total - abstain) == -((-threshold) * (total - abstain));
      if abstain < total { MulPositive(-threshold, total - abstain); }
    }
  }

  /** A rounded share above a threshold is a share above the threshold. */
  lemma ShareAbove(threshold: int, a: nat, b: nat)
    requires 0 < b && threshold < Quotient(a, b)
    ensures threshold * b < a * ONE
  {
    QuoIsClose(a, b);
    AboveExactly(threshold, Quotient(a, b), a, b);
  }

  lemma AboveExactly(threshold: int, q: int, a: int, b: int)
    requires 0 < b && threshold < q && 2 * Abs(q * b * ONE - a * ONE * ONE) <= b * (ONE + 2)
    ensures threshold * b < a * ONE
  {
    MulMonotone(b, threshold + 1, q);
    assert b * (threshold + 1) == threshold * b + b;
    assert q * b == b * q;
  }

  lemma AtLeast(limit: int, q: int, a: int, b: nat)
    requires limit <= q && 2 * Abs(q * b * ONE - a * ONE * ONE) <= b * (ONE + 2)
    ensures 2 * (limit * b - a * ONE) * ONE <= b * (ONE + 2)
  {
    MulMonotone(b, limit, q);
    assert q * b == b * q && limit * b == b * limit;
  }

  lemma AtMost(limit: int, q: int, a: int, b: nat)
    requires q <= limit && 2 * Abs(q * b * ONE - a * ONE * ONE) <= b * (ONE + 2)
    ensures 2 * (a * ONE - limit * b) * ONE <= b * (ONE + 2)
  {
    MulMonotone(b, q, limit);
    assert q * b == b * q && limit * b == b * limit;
  }

  // ---- against what the tests are described to do ----

  /** The exact tests: whether the votes cast reach the quorum of the system power, whether more
      than the veto share of them veto, and whether more than the threshold of those that do not
      abstain say Yes. */
  predicate QuorumMet(p: Thresholds, total: nat, system: nat)
  {
    p.participation * system <= total * ONE
  }

  predicate Vetoed(p: Thresholds, veto: nat, total: nat)
  {
    p.veto * total < veto * ONE
  }

  predicate Carried(p: Thresholds, yes: nat, abstain: nat, total: nat)
  {
    p.threshold * (total - abstain) < yes * ONE
  }

  /** The verdict as described. */
  function Described(p: Thresholds, yes: nat, abstain: nat, veto: nat, total: nat, system: nat): Result
  {
    if total == abstain || !QuorumMet(p, total, system) then Reject
    else if Vetoed(p, veto, total) then RejectVeto
    else if Carried(p, yes, abstain, total) then Pass
    else Reject
  }

  /** The share that the code compares: twenty places of a/b, of which it rounds off ten. */
  function Share(a: nat, b: nat): nat
    requires 0 < b
  {
    a * ONE * ONE / b
  }

  lemma ShareTest(a: nat, b: nat, limit: int)
    requires 0 < b
    ensures Quotient(a, b) <= limit <==> RoundsToAtMost(Share(a, b), limit)
  {
    RoundedAtMost(Share(a, b), limit);
  }

  /** The turnout test lets through what falls short of the quorum by less than it rounds up. */
  lemma QuorumDiffersIff(p: Thresholds, total: nat, system: nat)
    requires 0 < system
    ensures (p.participation <= Quotient(total, system)) != QuorumMet(p, total, system) <==>
            !QuorumMet(p, total, system) && !RoundsToAtMost(Share(total, system), p.participation - 1)
  {
    ShareTest(total, system, p.participation - 1);
    if QuorumMet(p, total, system) {
      ShareReaches(p.participation, total, system);
    }
  }

  lemma ShareReaches(limit: int, a: nat, b: nat)
    requires 0 < b && limit * b <= a * ONE
    ensures limit * ONE <= Share(a, b)
  {
    var x := a * ONE * ONE;
    DivBounds(x, b);
    assert b * (limit * ONE) == limit * b * ONE;
    assert b * (Share(a, b) + 1) == b * Share(a, b) + b;
    MulCancel(b, limit * ONE, Share(a, b) + 1);
  }

  /** The veto test misses a share above its limit that is rounded down to it. */
  lemma VetoDiffersIff(p: Thresholds, veto: nat, total: nat)
    requires 0 < total
    ensures (p.veto < Quotient(veto, total)) != Vetoed(p, veto, total) <==>
            Vetoed(p, veto, total) && RoundsToAtMost(Share(veto, total), p.veto)
  {
    ShareTest(veto, total, p.veto);
    if p.veto < Quotient(veto, total) {
      ShareAbove(p.veto, veto, total);
    }
  }

  /** The last test divides by all votes, not by those that do not abstain: it misses a majority
      of these that is no majority, after rounding, of all. */
  lemma ThresholdDiffersIff(p: Thresholds, yes: nat, abstain: nat, total: nat)
    requires abstain < total
    ensures (p.threshold < Quotient(yes, total)) != Carried(p, yes, abstain, total) <==>
            Carried(p, yes, abstain, total) && RoundsToAtMost(Share(yes, total), p.threshold)
  {
    ShareTest(yes, total, p.threshold);
    if p.threshold < Quotient(yes, total) {
      ShareAbove(p.threshold, yes, total);
      FewerThanAll(p.threshold, yes, abstain, total);
    }
  }

  /** Exactly when the code's verdict is the described one. */
  lemma JudgeAgreesIff(p: Thresholds, yes: nat, abstain: nat, no: nat, veto: nat, system: nat)
    requires yes + abstain + no + veto <= system
    ensures var total := yes + abstain + no + veto;
            Judge(p, yes, abstain, veto, total, system) == Returns(Described(p, yes, abstain, veto, total, system)) <==>
              (total == abstain ||
               if !QuorumMet(p, total, system) then
                 || RoundsToAtMost(Share(total, system), p.participation - 1)
                 || (RoundsToAtMost(Share(veto, total), p.veto) && RoundsToAtMost(Share(yes, total), p.threshold))
               else if Vetoed(p, veto, total) then
                 !RoundsToAtMost(Share(veto, total), p.veto)
               else
                 !Carried(p, yes, abstain, total) || !RoundsToAtMost(Share(yes, total), p.threshold))
  {
    var total := yes + abstain + no + veto;
    JudgeIs(p, yes, abstain, no, veto, system);
    if total != abstain {
      QuorumDiffersIff(p, total, system);
      VetoDiffersIff(p, veto, total);
      ThresholdDiffersIff(p, yes, abstain, total);
      ShareTest(total, system, p.participation - 1);
      ShareTest(veto, total, p.veto);
      ShareTest(yes, total, p.threshold);
    }
  }

  /** Four tenths Yes and six tenths Abstain are rejected. */
  lemma AbstentionsCount()
    ensures Judge(Thresholds(0, ONE, HALF), 4 * ONE, 6 * ONE, 0, 10 * ONE, 10 * ONE) == Returns(Reject)
    ensures Described(Thresholds(0, ONE, HALF), 4 * ONE, 6 * ONE, 0, 10 * ONE, 10 * ONE) == Pass
  {
    var p := Thresholds(0, ONE, HALF);
    JudgeIs(p, 4 * ONE, 6 * ONE, 0, 0, 10 * ONE);
    ShareFits(4 * ONE, 10 * ONE);
    ShareFits(0, 10 * ONE);
    if HALF < Quotient(4 * ONE, 10 * ONE) {
      ShareAbove(HALF, 4 * ONE, 10 * ONE);
    }
  }

  /** Two thirds of the power meet a quorum of 0.6666666667. */
  lemma QuorumCanBeShort()
    ensures Judge(Thresholds(6_666_666_667, ONE, HALF), 2 * ONE, 0, 0, 2 * ONE, 3 * ONE) == Returns(Pass)
    ensures Described(Thresholds(6_666_666_667, ONE, HALF), 2 * ONE, 0, 0, 2 * ONE, 3 * ONE) == Reject
  {
    JudgeIs(Thresholds(6_666_666_667, ONE, HALF), 2 * ONE, 0, 0, 0, 3 * ONE);
    assert Share(2 * ONE, 3 * ONE) == 66_666_666_666_666_666_666;
    ShareTest(2 * ONE, 3 * ONE, 6_666_666_666);
    ShareTest(0, 2 * ONE, ONE);
    ShareTest(2 * ONE, 2 * ONE, HALF);
  }

  /** A third of the votes does not exceed a veto limit of 0.3333333333. */
  lemma VetoCanBeMissed()
    ensures Judge(Thresholds(0, 3_333_333_333, HALF), 2 * ONE, 0, ONE, 3 * ONE, 3 * ONE) == Returns(Pass)
    ensures Described(Thresholds(0, 3_333_333_333, HALF), 2 * ONE, 0, ONE, 3 * ONE, 3 * ONE) == RejectVeto
  {
    JudgeIs(Thresholds(0, 3_333_333_333, HALF), 2 * ONE, 0, 0, ONE, 3 * ONE);
    assert Share(ONE, 3 * ONE) == 33_333_333_333_333_333_333;
    assert Share(2 * ONE, 3 * ONE) == 66_666_666_666_666_666_666;
    ShareTest(3 * ONE, 3 * ONE, -1);
    ShareTest(ONE, 3 * ONE, 3_333_333_333);
    ShareTest(2 * ONE, 3 * ONE, HALF);
  }

  // ---- the loops ----

  method SystemPower(bonded: Powers) returns (system: Outcome<nat>)
    ensures system == if Sum(bonded) < DEC_BOUND then Returns(Sum(bonded)) else Panics
  {
    var pending := bonded;
    var power: nat := 0;
    while pending != map[]
      invariant power + Sum(pending) == Sum(bonded) && power < DEC_BOUND
      decreases |pending|
    {
      var a :| a in pending;
      SumTakeOne(pending, a);
      if power + pending[a] >= DEC_BOUND {
        return Panics;
      }
      power := power + pending[a];
      pending := pending - {a};
    }
    return Returns(power);
  }

  datatype Buckets = Buckets(yes: int, abstain: int, no: int, veto: int)

  function Plus(b: Buckets, option: VoteOption, power: int): Buckets
  {
    match option
    case Yes => b.(yes := b.yes + power)
    case Abstain => b.(abstain := b.abstain + power)
    case No => b.(no := b.no + power)
    case NoWithVeto => b.(veto := b.veto + power)
  }

  /** What the loop over the votes keeps. */
  datatype Count = Count(results: Buckets, total: int, voters: set<Address>)

  function Counting(c: Count, bonded: Powers, a: Address, option: VoteOption): Count
  {
    if a in bonded
    then Count(Plus(c.results, option, bonded[a]), c.total + bonded[a], c.voters + {a})
    else c
  }

  function Voters(bonded: Powers, votes: Votes): set<Address>
  {
    set a | a in votes && a in bonded
  }

  ghost function CountOf(bonded: Powers, votes: Votes): Count
  {
    Count(Buckets(Bucket(bonded, votes, Yes), Bucket(bonded, votes, Abstain), Bucket(bonded, votes, No),
                  Bucket(bonded, votes, NoWithVeto)),
          Voted(bonded, votes),
          Voters(bonded, votes))
  }

  lemma CountMore(bonded: Powers, seen: Votes, a: Address, option: VoteOption)
    requires a !in seen
    ensures CountOf(bonded, seen[a := option]) == Counting(CountOf(bonded, seen), bonded, a, option)
  {
    BucketMore(bonded, seen, a, option, Yes);
    BucketMore(bonded, seen, a, option, Abstain);
    BucketMore(bonded, seen, a, option, No);
    BucketMore(bonded, seen, a, option, NoWithVeto);
    VotedMore(bonded, seen, a, option);
    VotersMore(bonded, seen, a, option);
  }

  lemma VotersMore(bonded: Powers, seen: Votes, a: Address, option: VoteOption)
    ensures Voters(bonded, seen[a := option]) ==
            if a in bonded then Voters(bonded, seen) + {a} else Voters(bonded, seen)
  {
  }

  ghost predicate Pending(votes: Votes, pending: Votes, seen: Votes)
  {
    seen == votes - pending.Keys && forall a :: a in pending ==> a in votes && votes[a] == pending[a]
  }

  lemma SeeMore(votes: Votes, pending: Votes, seen: Votes, a: Address)
    requires Pending(votes, pending, seen) && a in pending
    ensures Pending(votes, pending - {a}, seen[a := pending[a]]) && a !in seen
    ensures |pending - {a}| < |pending|
  {
    Smaller(pending, a);
  }

  /** The two sums that a vote changes are Decs. */
  predicate SumsFit(c: Count, option: VoteOption)
  {
    FitsDec(c.total) && FitsDec(match option
                                case Yes => c.results.yes
                                case Abstain => c.results.abstain
                                case No => c.results.no
                                case NoWithVeto => c.results.veto)
  }

  lemma NextFits(bonded: Powers, seen: Votes, a: Address, option: VoteOption)
    requires Sum(bonded) < DEC_BOUND && a !in seen
    ensures SumsFit(Counting(CountOf(bonded, seen), bonded, a, option), option)
  {
    CountMore(bonded, seen, a, option);
    CountedBounds(bonded, seen[a := option]);
  }

  /** No sum here exceeds the system power, which was found to fit. */
  method CountVotes(bonded: Powers, votes: Votes) returns (count: Outcome<Count>)
    requires Sum(bonded) < DEC_BOUND
    ensures count == Returns(CountOf(bonded, votes))
  {
    var c := Count(Buckets(0, 0, 0, 0), 0, {});
    var pending := votes;
    ghost var seen: Votes := map[];
    NothingCounted(bonded);
    while pending != map[]
      invariant Pending(votes, pending, seen) && c == CountOf(bonded, seen)
      decreases |pending|
    {
      var a :| a in pending;
      SeeMore(votes, pending, seen, a);
      CountMore(bonded, seen, a, pending[a]);
      NextFits(bonded, seen, a, pending[a]);
      c := Counting(c, bonded, a, pending[a]);
      if !SumsFit(c, pending[a]) {
        return Panics;
      }
      seen := seen[a := pending[a]];
      pending := pending - {a};
    }
    assert seen == votes;
    return Returns(c);
  }

  /** What the tally finds. */
  ghost function TallyOf(p: Thresholds, bonded: Powers, votes: Votes): Outcome<Result>
  {
    if Sum(bonded) >= DEC_BOUND then Panics
    else
      Judge(p, Bucket(bonded, votes, Yes), Bucket(bonded, votes, Abstain), Bucket(bonded, votes, NoWithVeto),
            Voted(bonded, votes), Sum(bonded))
  }

  /** A finding from the powers behind each option: Pass with enough turnout, at most the tolerated
      vetoes and more than the threshold of Yes, RejectVeto with enough turnout and more vetoes, each as
      a rounded share of all votes; Reject otherwise, and if all abstain. */
  predicate Finds(p: Thresholds, found: Result, yes: int, abstain: int, no: int, veto: int, system: int)
  {
    var total := yes + abstain + no + veto;
    if yes + no + veto == 0 || total == 0 || system == 0 then found == Reject
    else
      var turnout, vetoes, ayes := Quotient(total, system), Quotient(veto, total), Quotient(yes, total);
      && (found == Pass <==> p.participation <= turnout && vetoes <= p.veto && p.threshold < ayes)
      && (found == RejectVeto <==> p.participation <= turnout && p.veto < vetoes)
  }

  lemma JudgeFinds(p: Thresholds, yes: nat, abstain: nat, no: nat, veto: nat, total: nat, system: nat,
                   verdict: Outcome<Result>)
    requires total == yes + abstain + no + veto <= system && verdict == Judge(p, yes, abstain, veto, total, system)
    ensures verdict.Returns? && Finds(p, verdict.value, yes, abstain, no, veto, system)
  {
    JudgeIs(p, yes, abstain, no, veto, system);
  }

  lemma TallyFinds(p: Thresholds, bonded: Powers, votes: Votes)
    requires Sum(bonded) < DEC_BOUND
    ensures var found := TallyOf(p, bonded, votes);
            && found.Returns?
            && Finds(p, found.value, Bucket(bonded, votes, Yes), Bucket(bonded, votes, Abstain),
                     Bucket(bonded, votes, No), Bucket(bonded, votes, NoWithVeto), Sum(bonded))
  {
    BucketsAddUp(bonded, votes);
    CountedBounds(bonded, votes);
    JudgeFinds(p, Bucket(bonded, votes, Yes), Bucket(bonded, votes, Abstain), Bucket(bonded, votes, No),
               Bucket(bonded, votes, NoWithVeto), Voted(bonded, votes), Sum(bonded), TallyOf(p, bonded, votes));
  }

  /** The tally depends on who voted what, not on the order of the votes; the only panic is a
      bonded power that no Dec can hold. */
  method Tally(p: Thresholds, bonded: Powers, votes: Votes)
    returns (result: Outcome<Result>, results: Buckets, voters: set<Address>)
    ensures result == TallyOf(p, bonded, votes)
    ensures result.Panics? <==> Sum(bonded) >= DEC_BOUND
    ensures result.Returns? ==> results == CountOf(bonded, votes).results && voters == Voters(bonded, votes)
    ensures result.Returns? ==>
      && results.yes == Bucket(bonded, votes, Yes) && results.abstain == Bucket(bonded, votes, Abstain)
      && results.no == Bucket(bonded, votes, No) && results.veto == Bucket(bonded, votes, NoWithVeto)
  {
    var system := SystemPower(bonded);
    if system.Panics? {
      return Panics, Buckets(0, 0, 0, 0), {};
    }
    var counted := CountVotes(bonded, votes);
    if counted.Panics? {
      return Panics, Buckets(0, 0, 0, 0), {};
    }
    var count := counted.value;
    results, voters := count.results, count.voters;
    BucketsAddUp(bonded, votes);
    CountedBounds(bonded, votes);
    JudgeIs(p, results.yes, results.abstain, results.no, results.veto, system.value);
    result := Judge(p, results.yes, results.abstain, results.veto, count.total, system.value);
  }
}
