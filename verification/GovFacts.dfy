/** The steps of governance written out: exactly when they are done and what they leave, in terms of
    the parameters, the balances and the proposals. */
module GovFacts {
  import opened Bytes
  import opened Chain
  import opened Sums
  import opened Decimals
  import opened GovRefunds
  import opened GovSpec
  import opened GovSteps

  // ---- the parameters of a kind ----

  predicate IsCritical(kind: Kind)
  {
    kind.SystemHalt? || kind.SoftwareUpgrade?
  }

  function TermsOf(p: Params, kind: Kind): Procedure
  {
    if IsCritical(kind) then p.critical else if kind.ParameterChange? then p.important else p.normal
  }

  lemma TermsAre(p: Params, kind: Kind)
    ensures ProcedureOf(p, kind) == TermsOf(p, kind)
    ensures LevelOf(kind) == Critical <==> IsCritical(kind)
    ensures LevelOf(kind) == Important <==> kind.ParameterChange?
  {
  }

  // ---- submissions ----

  /** A critical proposal is in its deposit period or under vote. */
  ghost predicate CriticalOpen(s: State)
  {
    exists id :: id in s.proposals && IsCritical(s.proposals[id].kind)
                 && (s.proposals[id].status == DepositPeriod || s.proposals[id].status == VotingPeriod)
  }

  /** The least initial deposit: three tenths of the minimal one, rounded to the nearest, ties to the
      even. */
  predicate LeastInitial(minDeposit: nat, n: int)
  {
    IsNearestEven(3 * minDeposit, 10, n)
  }

  ghost predicate Reaches(minDeposit: nat, amount: nat)
  {
    exists n :: LeastInitial(minDeposit, n) && n <= amount
  }

  ghost predicate Submittable(p: Params, s: State, form: Form, kind: Kind, proposer: Address, amount: nat,
                              admitted: bool)
  {
    && admitted && !(IsCritical(kind) && CriticalOpen(s))
    && (form.Basic? ==> kind.ParameterChange? || kind.SystemHalt?)
    && Reaches(TermsOf(p, kind).minDeposit, amount)
    && amount <= Balance(s.balances, proposer)
  }

  /** A message that makes no proposal, and passes the checks before. */
  ghost predicate Unmakeable(s: State, form: Form, kind: Kind, admitted: bool)
  {
    admitted && !(IsCritical(kind) && CriticalOpen(s)) && form.Basic? && (kind.TxTaxUsage? || kind.SoftwareUpgrade?)
  }

  lemma SlotIs(s: State)
    requires CriticalOk(s.proposals, s.critical)
    ensures s.critical.Some? <==> CriticalOpen(s)
  {
    if CriticalOpen(s) {
      var id :| id in s.proposals && IsCritical(s.proposals[id].kind)
                && (s.proposals[id].status == DepositPeriod || s.proposals[id].status == VotingPeriod);
      assert s.critical == Some(id);
    }
  }

  lemma LeastIs(p: Params, kind: Kind, amount: nat)
    requires ParamsOk(p)
    ensures MinInitialDeposit(p, kind).Returns?
    ensures MinInitialDeposit(p, kind).value <= amount <==> Reaches(TermsOf(p, kind).minDeposit, amount)
  {
    var minDeposit, least := TermsOf(p, kind).minDeposit, MinInitialDeposit(p, kind).value;
    MinInitialDepositIs(p, kind);
    assert minDeposit * 3_000_000_000 == 3 * minDeposit * 1_000_000_000;
    NearestEvenScales(minDeposit * 3_000_000_000, 10_000_000_000, 3 * minDeposit, 10, least);
    assert LeastInitial(minDeposit, least);
    forall n | LeastInitial(minDeposit, n)
      ensures n == least
    {
      NearestEvenIsUnique(3 * minDeposit, 10, n, least);
    }
  }

  /** Someone's first deposit on a proposal that was just made. */
  lemma FirstDeposit(p: Params, s: State, form: Form, kind: Kind, proposer: Address, amount: nat, now: int)
    requires Core(p, s)
    ensures DepositVerdict(p, Created(p, s, form, kind, now), s.nextId, proposer, amount) ==
            if amount <= Balance(s.balances, proposer) then Done else Fails
  {
    var created := Created(p, s, form, kind, now);
    assert s.nextId !in s.proposals && s.nextId !in s.deposits;
    if amount <= Balance(s.balances, proposer) {
      MovedKeeps(s.balances, s.loosen, s.burned, proposer, p.escrow, amount);
      BackedBounds(Moved(s.balances, proposer, p.escrow, amount), s.loosen, s.burned, p.escrow);
      BackedBounds(s.balances, s.loosen, s.burned, proposer);
    }
  }

  /** Exactly when a submission is done, and when it panics. */
  lemma SubmitDoneIff(p: Params, s: State, form: Form, kind: Kind, proposer: Address, amount: nat, now: int,
                      admitted: bool)
    requires ParamsOk(p) && Inv(p, s)
    ensures var v := SubmitVerdict(p, s, form, kind, proposer, amount, now, admitted);
            && (v == Done <==> Submittable(p, s, form, kind, proposer, amount, admitted))
            && (v == Panic <==> Unmakeable(s, form, kind, admitted))
  {
    SlotIs(s);
    LeastIs(p, kind, amount);
    FirstDeposit(p, s, form, kind, proposer, amount, now);
  }

  /** The proposal takes deposits, and the depositor has the amount. */
  ghost predicate Depositable(s: State, id: nat, depositor: Address, amount: nat)
  {
    id in s.proposals && s.proposals[id].status == DepositPeriod && amount <= Balance(s.balances, depositor)
  }

  /** Only the escrow account can deposit what is too much for a total. */
  ghost predicate Overfills(p: Params, s: State, id: nat, depositor: Address, amount: nat)
    requires id in s.proposals
  {
    depositor == p.escrow && s.proposals[id].totalDeposit + amount >= INT_BOUND
  }

  /** Exactly when a deposit is done, and when it panics. */
  lemma DepositDoneIff(p: Params, s: State, id: nat, depositor: Address, amount: nat)
    requires Core(p, s)
    ensures var v := DepositVerdict(p, s, id, depositor, amount);
            && (v == Done <==>
                  Depositable(s, id, depositor, amount) && !Overfills(p, s, id, depositor, amount))
            && (v == Panic <==>
                  Depositable(s, id, depositor, amount) && Overfills(p, s, id, depositor, amount))
  {
    if Depositable(s, id, depositor, amount) {
      if depositor == p.escrow {
        BackedBounds(s.balances, s.loosen, s.burned, p.escrow);
        assert id in s.deposits ==> p.escrow !in s.deposits[id];
        assert Record(s.deposits, id, p.escrow) == 0;
      } else {
        DepositNeverPanics(p, s, id, depositor, amount);
      }
    }
  }

  // ---- what they leave ----

  ghost predicate Transferred(before: Balances, after: Balances, from: Address, to: Address, amount: nat)
  {
    forall a :: Balance(after, a) ==
                Balance(before, a) - (if a == from then amount else 0) + (if a == to then amount else 0)
  }

  /** A proposal with a deposit on it: if that brings it to the minimal deposit of its kind, it is
      under vote until the voting period from now is over, by the validators that are bonded now. */
  ghost predicate Advanced(p: Params, s: State, s': State, id: nat, proposal: Proposal, amount: nat, now: int,
                           bonded: seq<Address>)
  {
    var terms, total := TermsOf(p, proposal.kind), proposal.totalDeposit + amount;
    var waiting, end := Entry(proposal.depositEnd, id), now + terms.votingPeriod;
    if total < terms.minDeposit then
      && s'.proposals == s.proposals[id := proposal.(totalDeposit := total)]
      && s'.inactive == s.inactive + {waiting} && s'.active == s.active && s'.snapshots == s.snapshots
    else
      && s'.proposals == s.proposals[id := proposal.(totalDeposit := total, status := VotingPeriod, votingEnd := end)]
      && s'.inactive == s.inactive - {waiting} && s'.active == s.active + {Entry(end, id)}
      && s'.snapshots == s.snapshots[id := bonded]
  }

  /** And the depositor has paid the amount into escrow, and it is on record. */
  ghost predicate Supported(p: Params, s: State, s': State, id: nat, proposal: Proposal, depositor: Address,
                            amount: nat, now: int, bonded: seq<Address>)
  {
    && Advanced(p, s, s', id, proposal, amount, now, bonded)
    && s'.deposits == s.deposits[id := Records(s.deposits, id)[depositor := Record(s.deposits, id, depositor) + amount]]
    && Transferred(s.balances, s'.balances, depositor, p.escrow, amount)
    && s'.votes == s.votes && s'.loosen == s.loosen && s'.burned == s.burned
  }

  lemma MovedIs(balances: Balances, from: Address, to: Address, amount: nat)
    ensures Transferred(balances, Moved(balances, from, to, amount), from, to, amount)
  {
  }

  lemma SupportedIs(p: Params, s: State, id: nat, depositor: Address, amount: nat, now: int, bonded: seq<Address>)
    requires id in s.proposals && s.proposals[id].status == DepositPeriod
    requires Entry(s.proposals[id].depositEnd, id) in s.inactive
    ensures var s' := Deposited(p, s, id, depositor, amount, now, bonded);
            && Supported(p, s, s', id, s.proposals[id], depositor, amount, now, bonded)
            && s'.nextId == s.nextId && s'.critical == s.critical
  {
    var proposal := s.proposals[id];
    TermsAre(p, proposal.kind);
    MovedIs(s.balances, depositor, p.escrow, amount);
    assert s.inactive + {Entry(proposal.depositEnd, id)} == s.inactive;
  }

  lemma DepositedIs(p: Params, s: State, id: nat, depositor: Address, amount: nat, now: int, bonded: seq<Address>)
    requires Inv(p, s) && DepositVerdict(p, s, id, depositor, amount) == Done
    ensures var s' := Deposited(p, s, id, depositor, amount, now, bonded);
            && Supported(p, s, s', id, s.proposals[id], depositor, amount, now, bonded)
            && s'.nextId == s.nextId && s'.critical == s.critical
  {
    assert Entry(s.proposals[id].depositEnd, id) in s.inactive;
    SupportedIs(p, s, id, depositor, amount, now, bonded);
  }

  /** A new proposal is in its deposit period until that of its kind is over; a critical one takes
      the slot. */
  ghost predicate Opened(p: Params, s: State, s': State, form: Form, kind: Kind, proposer: Address, amount: nat,
                         now: int, bonded: seq<Address>)
  {
    var end := now + TermsOf(p, kind).depositPeriod;
    var proposal := Proposal(form, kind, DepositPeriod, 0, end, -62_135_596_800_000_000_000);
    && Supported(p, s, s', s.nextId, proposal, proposer, amount, now, bonded)
    && s'.nextId == s.nextId + 1
    && s'.critical == if IsCritical(kind) then Some(s.nextId) else s.critical
  }

  lemma SubmittedIs(p: Params, s: State, form: Form, kind: Kind, proposer: Address, amount: nat, now: int,
                    bonded: seq<Address>)
    ensures Opened(p, s, Submitted(p, s, form, kind, proposer, amount, now, bonded), form, kind, proposer, amount, now,
                   bonded)
  {
    var created := Created(p, s, form, kind, now);
    var proposal := created.proposals[s.nextId];
    TermsAre(p, kind);
    SupportedIs(p, created, s.nextId, proposer, amount, now, bonded);
    SupportedAnew(p, s, created, Submitted(p, s, form, kind, proposer, amount, now, bonded), s.nextId, proposal,
                  proposer, amount, now, bonded);
  }

  lemma SupportedAnew(p: Params, s: State, created: State, s': State, id: nat, proposal: Proposal, depositor: Address,
                      amount: nat, now: int, bonded: seq<Address>)
    requires created == s.(nextId := created.nextId, proposals := s.proposals[id := proposal],
                           inactive := s.inactive + {Entry(proposal.depositEnd, id)})
    requires Supported(p, created, s'.(critical := s.critical), id, proposal, depositor, amount, now, bonded)
    ensures Supported(p, s, s', id, proposal, depositor, amount, now, bonded)
  {
    AdvancedAnew(p, s, created, s', id, proposal, amount, now, bonded);
  }

  lemma AdvancedAnew(p: Params, s: State, created: State, s': State, id: nat, proposal: Proposal, amount: nat, now: int,
                     bonded: seq<Address>)
    requires created == s.(nextId := created.nextId, proposals := s.proposals[id := proposal],
                           inactive := s.inactive + {Entry(proposal.depositEnd, id)})
    requires Advanced(p, created, s'.(critical := s.critical), id, proposal, amount, now, bonded)
    ensures Advanced(p, s, s', id, proposal, amount, now, bonded)
  {
    var waiting, next := Entry(proposal.depositEnd, id), s'.proposals[id];
    assert s.inactive + {waiting} + {waiting} == s.inactive + {waiting};
    assert s.inactive + {waiting} - {waiting} == s.inactive - {waiting};
    assert s.proposals[id := proposal][id := next] == s.proposals[id := next];
  }

  // ---- closing ----

  /** Its message goes with its kind; a halt needs no message. */
  predicate Fulfillable(form: Form, kind: Kind)
  {
    || kind.SystemHalt?
    || (kind.ParameterChange? && form.Basic?)
    || (kind.TxTaxUsage? && form.Usage?)
    || (kind.SoftwareUpgrade? && form.Upgrade?)
  }

  function Verdicted(proposal: Proposal, result: Result): Proposal
  {
    match result
    case Pass => proposal.(status := Passed)
    case Reject => proposal.(status := Rejected)
    case RejectVeto => proposal.(status := Rejected)
  }

  /** All of a proposal's deposits are burned. */
  ghost predicate AllBurned(p: Params, s: State, s': State, id: nat)
    requires id in s.proposals
  {
    var sum := s.proposals[id].totalDeposit;
    && s'.deposits == s.deposits - {id}
    && s'.burned == s.burned + sum && s'.loosen == s.loosen - sum
    && forall a :: Balance(s'.balances, a) == Balance(s.balances, a) - if a == p.escrow then sum else 0
  }

  /** Out of escrow, which pays `sum`, every depositor gets a part of the deposit back. */
  ghost predicate PartlyPaid(balances: Balances, after: Balances, escrow: Address, records: map<Address, nat>, sum: int)
  {
    && Balance(after, escrow) == Balance(balances, escrow) - sum
    && (forall a :: a != escrow && a !in records ==> Balance(after, a) == Balance(balances, a))
    && (forall a :: a != escrow && a in records ==>
          Balance(balances, a) <= Balance(after, a) <= Balance(balances, a) + records[a])
  }

  /** A proposal's deposits are paid back in part, and about a fifth of the minimal deposit is burned. */
  ghost predicate PartRefunded(p: Params, s: State, s': State, id: nat)
    requires id in s.proposals
  {
    var proposal, records, burned := s.proposals[id], Records(s.deposits, id), s'.burned - s.burned;
    && s'.deposits == s.deposits - {id} && s'.loosen == s.loosen - burned
    && PartlyPaid(s.balances, s'.balances, p.escrow, records, proposal.totalDeposit)
    && NearFifth(burned, TermsOf(p, proposal.kind).minDeposit, proposal.totalDeposit, |records|)
  }

  /** A closed proposal has passed exactly if the tally says so, and is rejected otherwise; with a
      veto all deposits are burned. */
  ghost predicate ClosedBy(p: Params, s: State, s': State, id: nat, result: Result)
    requires id in s.proposals
  {
    && s'.proposals == s.proposals[id := Verdicted(s.proposals[id], result)]
    && (if result == RejectVeto then AllBurned(p, s, s', id) else PartRefunded(p, s, s', id))
    && s'.active == s.active - {Entry(s.proposals[id].votingEnd, id)} && s'.inactive == s.inactive
    && s'.snapshots == s.snapshots - {id} && s'.votes == s.votes && s'.nextId == s.nextId
    && s'.critical == if s.critical == Some(id) then None else s.critical
  }

  lemma BurnedIs(p: Params, s: State, id: nat)
    requires id in s.proposals && s.proposals[id].totalDeposit == Sum(Records(s.deposits, id))
    ensures AllBurned(p, s, Burned(p, s, id), id)
  {
    if id !in s.deposits {
      assert s.deposits - {id} == s.deposits;
    }
  }

  function Gain(gains: map<Address, nat>, a: Address): nat
  {
    if a in gains then gains[a] else 0
  }

  lemma CreditedAt(balances: Balances, gains: map<Address, nat>, escrow: Address, rest: int, a: Address)
    requires a != escrow
    ensures Balance(Credited(balances, gains)[escrow := rest], a) == Balance(balances, a) + Gain(gains, a)
  {
  }

  /** Every account but escrow has gained. */
  ghost predicate Gained(balances: Balances, after: Balances, escrow: Address, gains: map<Address, nat>)
  {
    forall a :: a != escrow ==> Balance(after, a) == Balance(balances, a) + Gain(gains, a)
  }

  lemma CreditedGains(balances: Balances, gains: map<Address, nat>, escrow: Address, rest: int)
    ensures Gained(balances, Credited(balances, gains)[escrow := rest], escrow, gains)
  {
    forall a | a != escrow
      ensures Balance(Credited(balances, gains)[escrow := rest], a) == Balance(balances, a) + Gain(gains, a)
    {
      CreditedAt(balances, gains, escrow, rest, a);
    }
  }

  /** Everyone who made a deposit is refunded a part of it. */
  ghost predicate PartOf(records: map<Address, nat>, refunds: map<Address, nat>, escrow: Address)
  {
    escrow !in records && refunds.Keys == records.Keys && forall a :: a in refunds ==> refunds[a] <= records[a]
  }

  lemma GainsArePart(balances: Balances, after: Balances, escrow: Address, records: map<Address, nat>,
                     gains: map<Address, nat>, sum: int)
    requires PartOf(records, gains, escrow) && Gained(balances, after, escrow, gains)
    requires Balance(after, escrow) == Balance(balances, escrow) - sum
    ensures PartlyPaid(balances, after, escrow, records, sum)
  {
  }

  /** `sum` leaves escrow, to those who gain and to be burned. */
  ghost predicate PaidOff(p: Params, s: State, s': State, id: nat, gains: map<Address, nat>, sum: int, burned: int)
  {
    && Gained(s.balances, s'.balances, p.escrow, gains)
    && Balance(s'.balances, p.escrow) == Balance(s.balances, p.escrow) - sum
    && s'.deposits == s.deposits - {id} && s'.burned == s.burned + burned && s'.loosen == s.loosen - burned
  }

  lemma RepaidPaysOff(p: Params, s: State, id: nat, refunds: map<Address, nat>, sum: int, burned: int)
    requires sum == Sum(Records(s.deposits, id)) && burned == sum - Sum(refunds)
    ensures PaidOff(p, s, Repaid(p, s, id, refunds), id, refunds, sum, burned)
  {
    CreditedGains(s.balances, refunds, p.escrow, Balance(s.balances, p.escrow) - sum);
  }

  lemma PaidOffReturns(p: Params, s: State, s': State, id: nat, gains: map<Address, nat>, burned: int)
    requires id in s.proposals && PartOf(Records(s.deposits, id), gains, p.escrow)
    requires PaidOff(p, s, s', id, gains, s.proposals[id].totalDeposit, burned)
    requires NearFifth(burned, TermsOf(p, s.proposals[id].kind).minDeposit, s.proposals[id].totalDeposit,
                       |Records(s.deposits, id)|)
    ensures PartRefunded(p, s, s', id)
  {
    GainsArePart(s.balances, s'.balances, p.escrow, Records(s.deposits, id), gains, s.proposals[id].totalDeposit);
  }

  lemma RefundsArePart(p: Params, s: State, id: nat, sum: int)
    requires ParamsOk(p) && Core(p, s) && id in s.proposals && s.proposals[id].status == VotingPeriod
    requires sum == s.proposals[id].totalDeposit
    ensures sum == Sum(Records(s.deposits, id)) && RateOf(p, s, id).Returns?
    ensures PartOf(Records(s.deposits, id), RefundsFor(p, s, id), p.escrow)
    ensures NearFifth(sum - Sum(RefundsFor(p, s, id)), TermsOf(p, s.proposals[id].kind).minDeposit, sum,
                      |Records(s.deposits, id)|)
  {
    TermsAre(p, s.proposals[id].kind);
    DepositsUnderVote(p, s, id);
    RefundsOf(p, s, id);
  }

  lemma RefundedIs(p: Params, s: State, id: nat)
    requires ParamsOk(p) && Core(p, s) && id in s.proposals && s.proposals[id].status == VotingPeriod
    ensures RateOf(p, s, id).Returns? && PartRefunded(p, s, Repaid(p, s, id, RefundsFor(p, s, id)), id)
  {
    var sum := s.proposals[id].totalDeposit;
    RefundsArePart(p, s, id, sum);
    var refunds := RefundsFor(p, s, id);
    var burned := sum - Sum(refunds);
    RepaidPaysOff(p, s, id, refunds, sum, burned);
    PaidOffReturns(p, s, Repaid(p, s, id, refunds), id, refunds, burned);
  }

  lemma SettledIs(p: Params, s: State, id: nat, result: Result)
    requires ParamsOk(p) && Core(p, s) && id in s.proposals && s.proposals[id].status == VotingPeriod
    ensures var s' := Settled(p, s, id, result);
            if result == RejectVeto then AllBurned(p, s, s', id) else PartRefunded(p, s, s', id)
  {
    if result == RejectVeto {
      BurnedIs(p, s, id);
    } else {
      RefundedIs(p, s, id);
    }
  }

  lemma EndedIs(p: Params, s: State, paid: State, id: nat, result: Result)
    requires id in s.proposals && SameProposals(s, paid)
    requires s.critical == Some(id) <==> IsCritical(s.proposals[id].kind)
    requires if result == RejectVeto then AllBurned(p, s, paid, id) else PartRefunded(p, s, paid, id)
    ensures ClosedBy(p, s, Ended(paid, id, StatusOf(result)), id, result)
  {
    TermsAre(p, s.proposals[id].kind);
  }

  lemma ClosedIs(p: Params, s: State, id: nat, result: Result)
    requires ParamsOk(p) && Inv(p, s) && id in s.proposals && s.proposals[id].status == VotingPeriod
    ensures ClosedBy(p, s, Closed(p, s, id, result), id, result)
  {
    SettledIs(p, s, id, result);
    assert s.critical == Some(id) <==> LevelOf(s.proposals[id].kind) == Critical;
    TermsAre(p, s.proposals[id].kind);
    EndedIs(p, s, Settled(p, s, id, result), id, result);
  }

  /** A dropped proposal is gone, and its deposits are burned. */
  ghost predicate DroppedAll(p: Params, s: State, s': State, id: nat)
    requires id in s.proposals
  {
    && s'.proposals == s.proposals - {id} && AllBurned(p, s, s', id)
    && s'.inactive == s.inactive - {Entry(s.proposals[id].depositEnd, id)}
    && s'.active == s.active && s'.snapshots == s.snapshots && s'.votes == s.votes && s'.nextId == s.nextId
    && s'.critical == if s.critical == Some(id) then None else s.critical
  }

  lemma DroppedFrom(p: Params, s: State, id: nat)
    requires id in s.proposals && (s.critical == Some(id) <==> LevelOf(s.proposals[id].kind) == Critical)
    requires Entry(s.proposals[id].votingEnd, id) !in s.active
    requires s.proposals[id].totalDeposit == Sum(Records(s.deposits, id))
    ensures DroppedAll(p, s, Dropped(p, s, id), id)
  {
    BurnedIs(p, s, id);
    assert s.active - {Entry(s.proposals[id].votingEnd, id)} == s.active;
  }

  lemma DroppedIs(p: Params, s: State, id: nat)
    requires Inv(p, s) && id in s.proposals && s.proposals[id].status == DepositPeriod
    ensures DroppedAll(p, s, Dropped(p, s, id), id)
  {
    assert s.critical == Some(id) <==> LevelOf(s.proposals[id].kind) == Critical;
    assert Entry(s.proposals[id].votingEnd, id) !in s.active;
    DroppedFrom(p, s, id);
  }
}
