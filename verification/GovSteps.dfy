/** The steps of governance as functions of its state, and what every run of them keeps. */
module GovSteps {
  import opened Bytes
  import opened Chain
  import opened Sums
  import opened Decimals
  import opened GovRefunds
  import opened GovSpec

  // ---- submitting ----

  /** NewProposal makes nothing of a plain message for the two kinds with messages of their own. */
  predicate HasProposal(form: Form, kind: Kind)
  {
    form.Basic? ==> kind.ParameterChange? || kind.SystemHalt?
  }

  /** A new proposal enters the inactive queue, with nothing deposited yet. */
  function Created(p: Params, s: State, form: Form, kind: Kind, now: int): State
  {
    var end := now + ProcedureOf(p, kind).depositPeriod;
    s.(nextId := s.nextId + 1,
       proposals := s.proposals[s.nextId := Proposal(form, kind, DepositPeriod, 0, end, ZERO_TIME)],
       inactive := s.inactive + {Entry(end, s.nextId)})
  }

  function MinInitialDeposit(p: Params, kind: Kind): Outcome<int>
  {
    match Mul(FromInt(ProcedureOf(p, kind).minDeposit), MIN_DEPOSIT_RATE)
    case Panics => Panics
    case Returns(least) => RoundInt(least)
  }

  /** `admitted` is the outcome of the quotas of the two lower levels and of the guardian,
      parameter, version and trustee checks. At most one critical proposal may be open. The
      initial deposit of a proposal that was not made panics. */
  function SubmitVerdict(p: Params, s: State, form: Form, kind: Kind, proposer: Address, amount: nat, now: int,
                         admitted: bool): Verdict
  {
    if LevelOf(kind) == Critical && s.critical.Some? then Fails
    else if !admitted then Fails
    else if !HasProposal(form, kind) then Panic
    else
      match MinInitialDeposit(p, kind)
      case Panics => Panic
      case Returns(least) =>
        if amount < least then Fails
        else DepositVerdict(p, Created(p, s, form, kind, now), s.nextId, proposer, amount)
  }

  function Submitted(p: Params, s: State, form: Form, kind: Kind, proposer: Address, amount: nat, now: int,
                     bonded: seq<Address>): State
  {
    var after := Deposited(p, Created(p, s, form, kind, now), s.nextId, proposer, amount, now, bonded);
    if LevelOf(kind) == Critical then after.(critical := Some(s.nextId)) else after
  }

  lemma MinInitialDepositIs(p: Params, kind: Kind)
    requires ParamsOk(p)
    ensures MinInitialDeposit(p, kind).Returns?
    ensures IsNearestEven(ProcedureOf(p, kind).minDeposit * MIN_DEPOSIT_RATE, ONE, MinInitialDeposit(p, kind).value)
  {
    var minDeposit := ProcedureOf(p, kind).minDeposit;
    RoundedWhole(minDeposit * MIN_DEPOSIT_RATE);
    assert FromInt(minDeposit) * MIN_DEPOSIT_RATE == (minDeposit * MIN_DEPOSIT_RATE) * ONE;
    RoundedIsNearestEven(minDeposit * MIN_DEPOSIT_RATE);
  }

  lemma CreatedKeeps(p: Params, s: State, form: Form, kind: Kind, now: int)
    requires Core(p, s)
    ensures Core(p, Created(p, s, form, kind, now))
  {
    CreatedKeepsQueues(p, s, form, kind, now);
    assert s.nextId !in s.proposals;
    assert s.nextId !in s.deposits;
    assert Sum(Records(s.deposits, s.nextId)) == 0;
  }

  lemma CreatedKeepsQueues(p: Params, s: State, form: Form, kind: Kind, now: int)
    requires QueuesOk(s)
    ensures QueuesOk(Created(p, s, form, kind, now))
  {
    assert s.nextId !in s.proposals;
  }

  lemma CreatedSlot(p: Params, s: State, form: Form, kind: Kind, now: int)
    requires QueuesOk(s) && CriticalOk(s.proposals, s.critical)
    requires LevelOf(kind) == Critical ==> s.critical == None
    ensures CriticalOk(Created(p, s, form, kind, now).proposals,
                       if LevelOf(kind) == Critical then Some(s.nextId) else s.critical)
  {
    assert s.nextId !in s.proposals;
    if LevelOf(kind) == Critical {
      forall id | id in s.proposals && Open(s.proposals[id])
        ensures LevelOf(s.proposals[id].kind) != Critical
      {
        assert s.critical != Some(id);
      }
    }
  }

  lemma SubmittedKeeps(p: Params, s: State, form: Form, kind: Kind, proposer: Address, amount: nat, now: int,
                       bonded: seq<Address>)
    requires Inv(p, s) && proposer != p.escrow
    requires SubmitVerdict(p, s, form, kind, proposer, amount, now, true) == Done
    ensures Inv(p, Submitted(p, s, form, kind, proposer, amount, now, bonded))
  {
    CreatedKeeps(p, s, form, kind, now);
    CreatedSlot(p, s, form, kind, now);
    var created := Created(p, s, form, kind, now);
    DepositedKeeps(p, created, s.nextId, proposer, amount, now, bonded);
    DepositedKeepsSlot(p, created, s.nextId, proposer, amount, now, bonded,
                       if LevelOf(kind) == Critical then Some(s.nextId) else s.critical);
  }

  /** Exactly when a submission panics: a plain message for one of the two kinds that have messages
      of their own, once its checks have passed. */
  lemma SubmitPanicsIff(p: Params, s: State, form: Form, kind: Kind, proposer: Address, amount: nat, now: int,
                        admitted: bool)
    requires ParamsOk(p) && Inv(p, s) && proposer != p.escrow
    ensures SubmitVerdict(p, s, form, kind, proposer, amount, now, admitted) == Panic <==>
            && form.Basic? && (kind.TxTaxUsage? || kind.SoftwareUpgrade?)
            && admitted && !(kind.SoftwareUpgrade? && s.critical.Some?)
  {
    MinInitialDepositIs(p, kind);
    CreatedKeeps(p, s, form, kind, now);
    DepositNeverPanics(p, Created(p, s, form, kind, now), s.nextId, proposer, amount);
  }

  /** Anyone's plain submission of a tax usage does, whatever the state and the deposit. */
  lemma BasicUsagePanics(p: Params, s: State, proposer: Address, amount: nat, now: int)
    ensures SubmitVerdict(p, s, Basic, TxTaxUsage, proposer, amount, now, true) == Panic
  {
  }

  // ---- settling ----

  /** DeleteDeposits: every record is burned. */
  ghost function Burned(p: Params, s: State, id: nat): State
  {
    if id !in s.deposits then s
    else
      var sum := Sum(s.deposits[id]);
      s.(deposits := s.deposits - {id},
         balances := s.balances[p.escrow := Balance(s.balances, p.escrow) - sum],
         loosen := s.loosen - sum,
         burned := s.burned + sum)
  }

  lemma BurnedApart(p: Params, s: State, id: nat, critical: Option<nat>)
    ensures Burned(p, s.(critical := critical), id) == Burned(p, s, id).(critical := critical)
  {
    if id in s.deposits {
      assert id in s.(critical := critical).deposits;
    }
  }

  /** `sum` leaves escrow: the refunds to their owners, and the rest burned. */
  ghost function OutPaid(p: Params, s: State, refunds: map<Address, nat>, sum: int): State
  {
    s.(balances := Credited(s.balances, refunds)[p.escrow := Balance(s.balances, p.escrow) - sum],
       loosen := s.loosen - (sum - Sum(refunds)),
       burned := s.burned + (sum - Sum(refunds)))
  }

  /** RefundDeposits: every depositor is paid the rounded rest, and what remains is burned. */
  ghost function Repaid(p: Params, s: State, id: nat, refunds: map<Address, nat>): State
  {
    OutPaid(p, s.(deposits := s.deposits - {id}), refunds, Sum(Records(s.deposits, id)))
  }

  ghost function RateOf(p: Params, s: State, id: nat): Outcome<int>
    requires id in s.proposals
  {
    HeldBounds(s.deposits, id);
    BurnShare(ProcedureOf(p, s.proposals[id].kind).minDeposit, Sum(Records(s.deposits, id)))
  }

  ghost function RefundsFor(p: Params, s: State, id: nat): map<Address, nat>
    requires id in s.proposals && RateOf(p, s, id).Returns?
  {
    Refunds(Records(s.deposits, id), RateOf(p, s, id).value)
  }

  /** What settling the deposits of a proposal does to the money, however it is settled. */
  ghost predicate Settles(p: Params, s: State, s': State, id: nat)
  {
    && s'.deposits == s.deposits - {id}
    && Balance(s'.balances, p.escrow) == Balance(s.balances, p.escrow) - Sum(Records(s.deposits, id))
    && Sum(s'.balances) + s'.burned == Sum(s.balances) + s.burned
    && s'.loosen + s'.burned == s.loosen + s.burned
    && s.burned <= s'.burned
    && (forall a :: a != p.escrow ==> Balance(s.balances, a) <= Balance(s'.balances, a))
  }

  lemma BurnedSettles(p: Params, s: State, id: nat)
    ensures Settles(p, s, Burned(p, s, id), id)
  {
    HeldBounds(s.deposits, id);
    SumUpdate(s.balances, p.escrow, Balance(s.balances, p.escrow) - Sum(Records(s.deposits, id)));
    if id !in s.deposits {
      assert s.deposits - {id} == s.deposits;
    }
  }

  /** The deposits of a proposal under vote reach the minimal deposit and fit an sdk.Int. */
  lemma DepositsUnderVote(p: Params, s: State, id: nat)
    requires ParamsOk(p) && Core(p, s) && id in s.proposals && s.proposals[id].status == VotingPeriod
    ensures var records := Records(s.deposits, id);
            && 0 < ProcedureOf(p, s.proposals[id].kind).minDeposit <= Sum(records) < INT_BOUND
            && (forall a :: a in records ==> records[a] < INT_BOUND)
            && p.escrow !in records
  {
    HeldBounds(s.deposits, id);
    BackedBounds(s.balances, s.loosen, s.burned, p.escrow);
  }

  /** The rate of a proposal under vote is between 0 and 1, every refund is between nothing and
      the deposit, and the burned rest is near a fifth of the minimal deposit. */
  lemma RefundsOf(p: Params, s: State, id: nat)
    requires ParamsOk(p) && Core(p, s) && id in s.proposals && s.proposals[id].status == VotingPeriod
    ensures RateOf(p, s, id).Returns?
    ensures RefundsReturn(Records(s.deposits, id), ProcedureOf(p, s.proposals[id].kind).minDeposit)
    ensures forall a :: a in RefundsFor(p, s, id) ==> RefundsFor(p, s, id)[a] <= Record(s.deposits, id, a)
    ensures 0 <= Sum(RefundsFor(p, s, id)) <= Sum(Records(s.deposits, id))
    ensures NearFifth(Sum(Records(s.deposits, id)) - Sum(RefundsFor(p, s, id)),
                      ProcedureOf(p, s.proposals[id].kind).minDeposit,
                      Sum(Records(s.deposits, id)), |Records(s.deposits, id)|)
  {
    DepositsUnderVote(p, s, id);
    RefundsAre(Records(s.deposits, id), ProcedureOf(p, s.proposals[id].kind).minDeposit);
  }

  lemma RefundsAre(records: map<Address, nat>, minDeposit: nat)
    requires 0 < minDeposit <= Sum(records) < INT_BOUND
    requires forall a :: a in records ==> records[a] < INT_BOUND
    ensures BurnShare(minDeposit, Sum(records)).Returns?
    ensures var rate := BurnShare(minDeposit, Sum(records)).value;
            var refunds := Refunds(records, rate);
            && AllReturn(records, Refunder(rate))
            && (forall a :: a in refunds ==> refunds[a] <= records[a])
            && 0 <= Sum(refunds) <= Sum(records)
            && NearFifth(Sum(records) - Sum(refunds), minDeposit, Sum(records), |records|)
  {
    BurnedAmount(records, minDeposit);
    SumNonNegative(Refunds(records, BurnShare(minDeposit, Sum(records)).value));
  }

  /** The refunds are those that do not panic. */
  ghost predicate Owed(records: map<Address, nat>, refundOf: nat -> Outcome<nat>, refunds: map<Address, nat>)
  {
    && refunds.Keys == records.Keys
    && (forall a :: a in records && refundOf(records[a]).Returns? ==> refundOf(records[a]).value == refunds[a])
  }

  lemma RepaidSettles(p: Params, s: State, id: nat, refunds: map<Address, nat>)
    requires p.escrow !in refunds && Sum(refunds) <= Sum(Records(s.deposits, id))
    ensures Settles(p, s, Repaid(p, s, id, refunds), id)
  {
    OutPaidMoves(p, s.(deposits := s.deposits - {id}), refunds, Sum(Records(s.deposits, id)));
  }

  lemma OutPaidMoves(p: Params, s: State, refunds: map<Address, nat>, sum: int)
    requires p.escrow !in refunds && Sum(refunds) <= sum
    ensures var s' := OutPaid(p, s, refunds, sum);
            && s'.deposits == s.deposits
            && Balance(s'.balances, p.escrow) == Balance(s.balances, p.escrow) - sum
            && Sum(s'.balances) + s'.burned == Sum(s.balances) + s.burned
            && s'.loosen + s'.burned == s.loosen + s.burned
            && s.burned <= s'.burned
            && (forall a :: a != p.escrow ==> Balance(s.balances, a) <= Balance(s'.balances, a))
  {
    CreditedSettles(s.balances, refunds, p.escrow, sum);
    assert OutPaid(p, s, refunds, sum).balances ==
           Credited(s.balances, refunds)[p.escrow := Balance(s.balances, p.escrow) - sum];
  }

  lemma CreditedSettles(balances: Balances, gains: map<Address, nat>, escrow: Address, sum: int)
    requires escrow !in gains
    ensures var after := Credited(balances, gains)[escrow := Balance(balances, escrow) - sum];
            && Sum(after) == Sum(balances) + Sum(gains) - sum
            && Balance(after, escrow) == Balance(balances, escrow) - sum
            && forall a :: a != escrow ==> Balance(balances, a) <= Balance(after, a)
  {
    CreditedSum(balances, gains);
    var credited := Credited(balances, gains);
    assert Balance(credited, escrow) == Balance(balances, escrow);
    SumUpdate(credited, escrow, Balance(balances, escrow) - sum);
    forall a | a != escrow
      ensures Balance(balances, a) <= Balance(credited, a)
    {
    }
  }

  lemma SettlesKeeps(p: Params, s: State, s': State, id: nat)
    requires Backed(s.balances, s.loosen, s.burned) && Covered(p, s) && Settles(p, s, s', id)
    ensures Backed(s'.balances, s'.loosen, s'.burned) && Covered(p, s')
  {
    HeldTake(s.deposits, id);
    HeldBounds(s.deposits, id);
    HeldBounds(s'.deposits, id);
    forall a | a in s'.balances ensures s'.balances[a] >= 0 {
      if a != p.escrow {
        assert Balance(s.balances, a) <= Balance(s'.balances, a);
      }
    }
  }

  /** SubProposalNum for the critical level clears the slot. */
  function Freed(critical: Option<nat>, kind: Kind): Option<nat>
  {
    if LevelOf(kind) == Critical then None else critical
  }

  function StatusOf(result: Result): Status
  {
    if result == Pass then Passed else Rejected
  }

  /** A proposal whose deposit period ended. */
  ghost function Dropped(p: Params, s: State, id: nat): State
    requires id in s.proposals
  {
    var proposal := s.proposals[id];
    Burned(p, s, id).(proposals := s.proposals - {id},
                      inactive := s.inactive - {Entry(proposal.depositEnd, id)},
                      active := s.active - {Entry(proposal.votingEnd, id)},
                      critical := Freed(s.critical, proposal.kind))
  }

  predicate SameProposals(s: State, s': State)
  {
    && s'.nextId == s.nextId && s'.proposals == s.proposals && s'.votes == s.votes
    && s'.inactive == s.inactive && s'.active == s.active
    && s'.snapshots == s.snapshots && s'.critical == s.critical
  }

  /** A proposal whose voting period ended with `result`; a panic in the refund is left as
      no step, since it cannot happen. */
  ghost function Settled(p: Params, s: State, id: nat, result: Result): (s': State)
    requires id in s.proposals
    ensures SameProposals(s, s')
  {
    if result == RejectVeto then Burned(p, s, id)
    else if RateOf(p, s, id).Returns? then Repaid(p, s, id, RefundsFor(p, s, id))
    else s
  }

  /** What is done once the deposits are settled. */
  function Ended(s: State, id: nat, status: Status): State
    requires id in s.proposals
  {
    var proposal := s.proposals[id];
    s.(proposals := s.proposals[id := proposal.(status := status)],
       active := s.active - {Entry(proposal.votingEnd, id)},
       snapshots := s.snapshots - {id},
       critical := Freed(s.critical, proposal.kind))
  }

  ghost function Closed(p: Params, s: State, id: nat, result: Result): State
    requires id in s.proposals
  {
    Ended(Settled(p, s, id, result), id, StatusOf(result))
  }

  /** Everything of the proposal is gone but the proposal itself. */
  ghost predicate Removes(p: Params, s: State, s': State, id: nat)
  {
    && Settles(p, s, s', id)
    && s'.nextId == s.nextId && s'.votes == s.votes
    && s'.inactive == (set e | e in s.inactive && e.id != id)
    && s'.active == (set e | e in s.active && e.id != id)
    && s'.snapshots == s.snapshots - {id}
    && s'.critical == (if s.critical == Some(id) then None else s.critical)
    && s'.proposals - {id} == s.proposals - {id}
    && (id in s'.proposals ==> !Open(s'.proposals[id]))
  }

  lemma Dequeued(proposals: map<nat, Proposal>, inactive: set<Entry>, active: set<Entry>, id: nat)
    requires Queued(proposals, inactive, active) && id in proposals
    ensures var due := Entry(proposals[id].depositEnd, id);
            (set e | e in inactive && e.id != id) ==
            (if proposals[id].status == DepositPeriod then inactive - {due} else inactive)
    ensures var due := Entry(proposals[id].votingEnd, id);
            (set e | e in active && e.id != id) == active - {due}
  {
  }

  lemma DroppedRemoves(p: Params, s: State, id: nat)
    requires QueuesOk(s) && CriticalOk(s.proposals, s.critical)
    requires id in s.proposals && s.proposals[id].status == DepositPeriod
    ensures Removes(p, s, Dropped(p, s, id), id)
  {
    BurnedSettles(p, s, id);
    Dequeued(s.proposals, s.inactive, s.active, id);
    assert s.critical == Some(id) <==> LevelOf(s.proposals[id].kind) == Critical;
    assert s.snapshots - {id} == s.snapshots;
  }

  lemma SettledSettles(p: Params, s: State, id: nat, result: Result)
    requires ParamsOk(p) && Core(p, s) && id in s.proposals && s.proposals[id].status == VotingPeriod
    ensures Settles(p, s, Settled(p, s, id, result), id)
  {
    if result == RejectVeto {
      BurnedSettles(p, s, id);
    } else {
      DepositsUnderVote(p, s, id);
      RefundsOf(p, s, id);
      RepaidSettles(p, s, id, RefundsFor(p, s, id));
    }
  }

  lemma EndedRemoves(p: Params, s: State, s': State, id: nat, status: Status)
    requires QueuesOk(s) && CriticalOk(s.proposals, s.critical)
    requires id in s.proposals && s.proposals[id].status == VotingPeriod
    requires SameProposals(s, s') && Settles(p, s, s', id)
    requires status == Passed || status == Rejected
    ensures Removes(p, s, Ended(s', id, status), id)
  {
    Dequeued(s.proposals, s.inactive, s.active, id);
    assert s.critical == Some(id) <==> LevelOf(s.proposals[id].kind) == Critical;
  }

  lemma ClosedRemoves(p: Params, s: State, id: nat, result: Result)
    requires ParamsOk(p) && Inv(p, s) && id in s.proposals && s.proposals[id].status == VotingPeriod
    ensures Removes(p, s, Closed(p, s, id, result), id)
  {
    SettledSettles(p, s, id, result);
    EndedRemoves(p, s, Settled(p, s, id, result), id, StatusOf(result));
  }

  lemma RemovesKeepsQueues(p: Params, s: State, s': State, id: nat)
    requires QueuesOk(s) && CriticalOk(s.proposals, s.critical) && Removes(p, s, s', id)
    requires id in s.proposals
    ensures QueuesOk(s') && CriticalOk(s'.proposals, s'.critical)
  {
    OthersSame(s.proposals, s'.proposals, id);
  }

  lemma OthersSame(m: map<nat, Proposal>, m': map<nat, Proposal>, id: nat)
    requires m - {id} == m' - {id}
    ensures forall i :: i != id ==> (i in m <==> i in m') && (i in m ==> m[i] == m'[i])
  {
    forall i | i != id
      ensures (i in m <==> i in m') && (i in m ==> m[i] == m'[i])
    {
      assert i in m <==> i in m - {id};
      assert i in m' <==> i in m' - {id};
      if i in m {
        assert (m - {id})[i] == m[i] && (m' - {id})[i] == m'[i];
      }
    }
  }

  lemma RemovesKeepsDeposits(p: Params, s: State, s': State, id: nat)
    requires DepositsOk(p, s.proposals, s.deposits) && Removes(p, s, s', id)
    ensures DepositsOk(p, s'.proposals, s'.deposits)
  {
    OthersSame(s.proposals, s'.proposals, id);
    forall i | i != id
      ensures Records(s'.deposits, i) == Records(s.deposits, i)
    {
    }
  }

  lemma RemovesKeeps(p: Params, s: State, s': State, id: nat)
    requires Inv(p, s) && Removes(p, s, s', id) && id in s.proposals
    ensures Inv(p, s')
  {
    RemovesKeepsQueues(p, s, s', id);
    RemovesKeepsDeposits(p, s, s', id);
    SettlesKeeps(p, s, s', id);
  }

  // ---- runs ----

  /** What the end-blocker did to a proposal: dropped it, or closed it with a result. */
  datatype Tag = Tag(id: nat, result: Option<Result>)

  predicate Settleable(s: State, t: Tag)
  {
    t.id in s.proposals && s.proposals[t.id].status == (if t.result == None then DepositPeriod else VotingPeriod)
  }

  ghost function SettleOne(p: Params, s: State, t: Tag): State
  {
    if !Settleable(s, t) then s
    else if t.result == None then Dropped(p, s, t.id)
    else Closed(p, s, t.id, t.result.value)
  }

  lemma SettleOneRemoves(p: Params, s: State, t: Tag)
    requires ParamsOk(p) && Inv(p, s) && Settleable(s, t)
    ensures Removes(p, s, SettleOne(p, s, t), t.id) && Inv(p, SettleOne(p, s, t))
  {
    if t.result == None {
      DroppedRemoves(p, s, t.id);
    } else {
      ClosedRemoves(p, s, t.id, t.result.value);
    }
    RemovesKeeps(p, s, SettleOne(p, s, t), t.id);
  }

  /** `Elsewhere` is what the rest of the chain does to the balances and the counters between
      two governance steps: anything but taking from the escrow account. */
  datatype Event =
    | Submit(form: Form, kind: Kind, proposer: Address, initial: nat, time: int, bonded: seq<Address>, admitted: bool)
    | Deposit(id: nat, depositor: Address, amount: nat, time: int, bonded: seq<Address>)
    | Vote(id: nat, voter: Address, option: VoteOption, isValidator: bool)
    | Settle(tag: Tag)
    | Elsewhere(balances: Balances, loosen: int, burned: int)

  /** What someone voted on a proposal. */
  function VoteOf(votes: map<nat, map<Address, VoteOption>>, id: nat, a: Address): Option<VoteOption>
  {
    if id in votes && a in votes[id] then Some(votes[id][a]) else None
  }

  predicate UnderVote(s: State, id: nat)
  {
    id in s.proposals && s.proposals[id].status == VotingPeriod
  }

  predicate CanVote(s: State, id: nat, voter: Address, isValidator: bool)
  {
    UnderVote(s, id) && isValidator && VoteOf(s.votes, id, voter) == None
  }

  function Voted(s: State, id: nat, voter: Address, option: VoteOption): State
  {
    var cast := if id in s.votes then s.votes[id] else map[];
    s.(votes := s.votes[id := cast[voter := option]])
  }

  /** A message that fails or panics leaves nothing behind. */
  ghost function Next(p: Params, s: State, e: Event): State
  {
    match e
    case Submit(form, kind, proposer, initial, time, bonded, admitted) =>
      if SubmitVerdict(p, s, form, kind, proposer, initial, time, admitted) == Done
      then Submitted(p, s, form, kind, proposer, initial, time, bonded) else s
    case Deposit(id, depositor, amount, time, bonded) =>
      if DepositVerdict(p, s, id, depositor, amount) == Done
      then Deposited(p, s, id, depositor, amount, time, bonded) else s
    case Vote(id, voter, option, isValidator) =>
      if CanVote(s, id, voter, isValidator) then Voted(s, id, voter, option) else s
    case Settle(tag) => SettleOne(p, s, tag)
    case Elsewhere(balances, loosen, burned) =>
      if Backed(balances, loosen, burned) && Balance(s.balances, p.escrow) <= Balance(balances, p.escrow)
      then s.(balances := balances, loosen := loosen, burned := burned) else s
  }

  /** The escrow account, which has no key, signs nothing. */
  predicate Signed(p: Params, e: Event)
  {
    && (e.Submit? ==> e.proposer != p.escrow)
    && (e.Deposit? ==> e.depositor != p.escrow)
  }

  lemma NextKeeps(p: Params, s: State, e: Event)
    requires ParamsOk(p) && Inv(p, s) && Signed(p, e)
    ensures Inv(p, Next(p, s, e))
  {
    match e
    case Submit(form, kind, proposer, initial, time, bonded, admitted) =>
      if SubmitVerdict(p, s, form, kind, proposer, initial, time, admitted) == Done {
        SubmittedKeeps(p, s, form, kind, proposer, initial, time, bonded);
      }
    case Deposit(id, depositor, amount, time, bonded) =>
      if DepositVerdict(p, s, id, depositor, amount) == Done {
        DepositedKeeps(p, s, id, depositor, amount, time, bonded);
        DepositedKeepsSlot(p, s, id, depositor, amount, time, bonded, s.critical);
      }
    case Vote(_, _, _, _) =>
    case Settle(tag) =>
      if Settleable(s, tag) {
        SettleOneRemoves(p, s, tag);
      }
    case Elsewhere(_, _, _) =>
  }

  ghost function Run(p: Params, s: State, events: seq<Event>): State
  {
    if events == [] then s else Next(p, Run(p, s, events[..|events| - 1]), events[|events| - 1])
  }

  /** In every run: a live proposal's total is the sum of its records, escrow covers all of
      them, the queues and snapshots are exact, and the slot names the only critical one. */
  lemma {:induction false} RunKeeps(p: Params, s: State, events: seq<Event>)
    requires ParamsOk(p) && Inv(p, s)
    requires forall i :: 0 <= i < |events| ==> Signed(p, events[i])
    ensures Inv(p, Run(p, s, events))
  {
    if events != [] {
      RunKeeps(p, s, events[..|events| - 1]);
      NextKeeps(p, Run(p, s, events[..|events| - 1]), events[|events| - 1]);
    }
  }

  /** One step adds at most the vote it casts, and changes no other. */
  lemma VoteStep(p: Params, s: State, e: Event, id: nat, a: Address)
    ensures VoteOf(Next(p, s, e).votes, id, a) ==
            if VoteOf(s.votes, id, a) == None && UnderVote(s, id)
               && e.Vote? && e.id == id && e.voter == a && e.isValidator
            then Some(e.option) else VoteOf(s.votes, id, a)
  {
  }

  /** A vote stands: in no run is it changed or deleted, not even once its proposal is closed. */
  lemma {:induction false} VotesStand(p: Params, s: State, events: seq<Event>, id: nat, a: Address)
    requires VoteOf(s.votes, id, a) != None
    ensures VoteOf(Run(p, s, events).votes, id, a) == VoteOf(s.votes, id, a)
  {
    if events != [] {
      VotesStand(p, s, events[..|events| - 1], id, a);
      VoteStep(p, Run(p, s, events[..|events| - 1]), events[|events| - 1], id, a);
    }
  }

  /** Step k of a run is a validator's vote, cast while the proposal was under vote. */
  ghost predicate CastAt(p: Params, s: State, events: seq<Event>, k: int, id: nat, a: Address, option: VoteOption)
  {
    && 0 <= k < |events| && events[k] == Vote(id, a, option, true)
    && UnderVote(Run(p, s, events[..k]), id)
    && VoteOf(Run(p, s, events[..k]).votes, id, a) == None
  }

  /** Every vote found after a run was there before it, or was cast in it: by a validator, as their
      first, while the proposal was under vote; and nobody else's message put it there. */
  lemma {:induction false} VotesAreCast(p: Params, s: State, events: seq<Event>, id: nat, a: Address,
                                        option: VoteOption)
    requires VoteOf(Run(p, s, events).votes, id, a) == Some(option)
    ensures VoteOf(s.votes, id, a) == Some(option) || exists k :: CastAt(p, s, events, k, id, a, option)
  {
    if events != [] {
      var n := |events| - 1;
      var init := events[..n];
      VoteStep(p, Run(p, s, init), events[n], id, a);
      if VoteOf(Run(p, s, init).votes, id, a) == None {
        assert CastAt(p, s, events, n, id, a, option);
      } else {
        VotesAreCast(p, s, init, id, a, option);
        if VoteOf(s.votes, id, a) != Some(option) {
          var k :| CastAt(p, s, init, k, id, a, option);
          assert init[..k] == events[..k];
          assert CastAt(p, s, events, k, id, a, option);
        }
      }
    }
  }

  ghost predicate DistinctSnapshots(s: State)
  {
    forall id :: id in s.snapshots ==> Distinct(s.snapshots[id])
  }

  /** The validators are listed once each when a snapshot may be taken. */
  predicate Listed(e: Event)
  {
    e.Submit? || e.Deposit? ==> Distinct(e.bonded)
  }

  lemma DepositSnapshots(p: Params, s: State, id: nat, a: Address, amount: nat, now: int, bonded: seq<Address>)
    requires id in s.proposals
    ensures var snapshots := Deposited(p, s, id, a, amount, now, bonded).snapshots;
            snapshots == s.snapshots || snapshots == s.snapshots[id := bonded]
  {
  }

  lemma SettleSnapshots(p: Params, s: State, t: Tag)
    ensures var snapshots := SettleOne(p, s, t).snapshots;
            snapshots == s.snapshots || snapshots == s.snapshots - {t.id}
  {
  }

  lemma NextSnapshots(p: Params, s: State, e: Event)
    requires DistinctSnapshots(s) && Listed(e)
    ensures DistinctSnapshots(Next(p, s, e))
  {
    match e
    case Submit(form, kind, proposer, initial, time, bonded, _) =>
      DepositSnapshots(p, Created(p, s, form, kind, time), s.nextId, proposer, initial, time, bonded);
    case Deposit(id, depositor, amount, time, bonded) =>
      if DepositVerdict(p, s, id, depositor, amount) == Done {
        DepositSnapshots(p, s, id, depositor, amount, time, bonded);
      }
    case Vote(_, _, _, _) =>
    case Settle(tag) =>
      SettleSnapshots(p, s, tag);
    case Elsewhere(_, _, _) =>
  }

  /** In every run no snapshot names a validator twice. */
  lemma {:induction false} RunSnapshots(p: Params, s: State, events: seq<Event>)
    requires DistinctSnapshots(s) && forall i :: 0 <= i < |events| ==> Listed(events[i])
    ensures DistinctSnapshots(Run(p, s, events))
  {
    if events != [] {
      RunSnapshots(p, s, events[..|events| - 1]);
      NextSnapshots(p, Run(p, s, events[..|events| - 1]), events[|events| - 1]);
    }
  }

  /** Genesis: no proposals, and whatever the accounts hold is loosen. */
  lemma GenesisKeeps(p: Params, firstId: nat, balances: Balances, loosen: int, burned: int)
    requires Backed(balances, loosen, burned)
    ensures Inv(p, State(firstId, map[], map[], map[], {}, {}, map[], None, balances, loosen, burned))
  {
    SumNonNegative(balances);
    assert Totals(map[]) == map[];
  }

  // ---- the end of a block ----

  ghost function SettleAll(p: Params, s: State, tags: seq<Tag>): State
  {
    if tags == [] then s else SettleOne(p, SettleAll(p, s, tags[..|tags| - 1]), tags[|tags| - 1])
  }

  function IdsOf(tags: seq<Tag>): set<nat>
  {
    set t | t in tags :: t.id
  }

  ghost predicate Settling(s: State, tags: seq<Tag>)
  {
    && (forall t :: t in tags ==> Settleable(s, t))
    && (forall i, j :: 0 <= i < j < |tags| ==> tags[i].id != tags[j].id)
  }

  /** The proposals `gone` are out of the queues, their deposits out of escrow; all else is as
      it was, and the money is only moved or burned. */
  ghost predicate Progress(p: Params, s: State, s': State, gone: set<nat>)
  {
    && s'.nextId == s.nextId && s'.votes == s.votes
    && s'.inactive == (set e | e in s.inactive && e.id !in gone)
    && s'.active == (set e | e in s.active && e.id !in gone)
    && s'.snapshots == s.snapshots - gone
    && s'.proposals - gone == s.proposals - gone
    && s'.deposits == s.deposits - gone
    && s'.critical == (if s.critical.Some? && s.critical.value in gone then None else s.critical)
  }

  ghost predicate Moves(p: Params, s: State, s': State)
  {
    && Balance(s'.balances, p.escrow) - Held(s'.deposits) == Balance(s.balances, p.escrow) - Held(s.deposits)
    && Sum(s'.balances) + s'.burned == Sum(s.balances) + s.burned
    && s'.loosen + s'.burned == s.loosen + s.burned
    && s.burned <= s'.burned
    && (forall a :: a != p.escrow ==> Balance(s.balances, a) <= Balance(s'.balances, a))
  }

  lemma ProgressMore(p: Params, s: State, s': State, s'': State, gone: set<nat>, id: nat)
    requires Progress(p, s, s', gone) && Removes(p, s', s'', id)
    ensures Progress(p, s, s'', gone + {id})
  {
    assert s'.snapshots - {id} == s.snapshots - (gone + {id});
    assert s'.deposits - {id} == s.deposits - (gone + {id});
    assert s''.proposals - (gone + {id}) == (s''.proposals - {id}) - gone;
    assert s.proposals - (gone + {id}) == (s.proposals - gone) - {id};
    assert (s'.proposals - {id}) - gone == (s'.proposals - gone) - {id};
  }

  lemma MovesMore(p: Params, s: State, s': State, s'': State, id: nat)
    requires Moves(p, s, s') && Settles(p, s', s'', id)
    ensures Moves(p, s, s'')
  {
    HeldTake(s'.deposits, id);
    forall a | a != p.escrow
      ensures Balance(s.balances, a) <= Balance(s''.balances, a)
    {
      assert Balance(s.balances, a) <= Balance(s'.balances, a);
    }
  }

  lemma {:induction false} SettleAllIs(p: Params, s: State, tags: seq<Tag>)
    requires ParamsOk(p) && Inv(p, s) && Settling(s, tags)
    ensures Inv(p, SettleAll(p, s, tags))
    ensures Progress(p, s, SettleAll(p, s, tags), IdsOf(tags))
    ensures Moves(p, s, SettleAll(p, s, tags))
  {
    if tags == [] {
      assert IdsOf(tags) == {};
    } else {
      var init, last := tags[..|tags| - 1], tags[|tags| - 1];
      SettlingInit(s, tags);
      SettleAllIs(p, s, init);
      var s' := SettleAll(p, s, init);
      StillThere(s.proposals, s'.proposals, IdsOf(init), last.id);
      SettleOneRemoves(p, s', last);
      ProgressMore(p, s, s', SettleOne(p, s', last), IdsOf(init), last.id);
      MovesMore(p, s, s', SettleOne(p, s', last), last.id);
    }
  }

  lemma SettlingInit(s: State, tags: seq<Tag>)
    requires Settling(s, tags) && tags != []
    ensures Settling(s, tags[..|tags| - 1])
    ensures tags[|tags| - 1].id !in IdsOf(tags[..|tags| - 1])
    ensures IdsOf(tags) == IdsOf(tags[..|tags| - 1]) + {tags[|tags| - 1].id}
    ensures Settleable(s, tags[|tags| - 1])
  {
    assert tags == tags[..|tags| - 1] + [tags[|tags| - 1]];
  }

  lemma StillThere(m: map<nat, Proposal>, m': map<nat, Proposal>, gone: set<nat>, id: nat)
    requires m - gone == m' - gone && id !in gone
    ensures id in m <==> id in m'
    ensures id in m ==> m'[id] == m[id]
  {
    assert id in m <==> id in m - gone;
    assert id in m' <==> id in m' - gone;
    if id in m {
      assert m[id] == (m - gone)[id] == (m' - gone)[id] == m'[id];
    }
  }

  /** How a settled proposal ends up. */
  ghost predicate Ends(s: State, s': State, t: Tag)
  {
    if t.result == None then t.id !in s'.proposals
    else
      t.id in s.proposals && t.id in s'.proposals &&
      s'.proposals[t.id] == s.proposals[t.id].(status := if t.result.value == Pass then Passed else Rejected)
  }

  lemma {:induction false} SettleAllEnds(p: Params, s: State, tags: seq<Tag>, t: Tag)
    requires ParamsOk(p) && Inv(p, s) && Settling(s, tags) && t in tags
    ensures Ends(s, SettleAll(p, s, tags), t)
  {
    var init, last := tags[..|tags| - 1], tags[|tags| - 1];
    assert tags == init + [last];
    SettlingInit(s, tags);
    SettleAllIs(p, s, init);
    var s' := SettleAll(p, s, init);
    StillThere(s.proposals, s'.proposals, IdsOf(init), last.id);
    if t == last {
    } else {
      SettleAllEnds(p, s, init, t);
      assert t.id in IdsOf(init);
      SettleOneRemoves(p, s', last);
      OthersSame(s'.proposals, SettleOne(p, s', last).proposals, last.id);
    }
  }

  function SettleEvents(tags: seq<Tag>): seq<Event>
  {
    seq(|tags|, i requires 0 <= i < |tags| => Settle(tags[i]))
  }

  /** The end-blocker's steps are steps of a run. */
  lemma {:induction false} SettleAllRuns(p: Params, s: State, tags: seq<Tag>)
    ensures SettleAll(p, s, tags) == Run(p, s, SettleEvents(tags))
  {
    if tags != [] {
      var init := tags[..|tags| - 1];
      SettleAllRuns(p, s, init);
      assert SettleEvents(tags)[..|tags| - 1] == SettleEvents(init);
    }
  }

  /** `tags` are exactly the proposals whose period is over at `now`. */
  ghost predicate Due(s: State, now: int, result: nat -> Result, tags: seq<Tag>)
  {
    && Settling(s, tags)
    && (forall e :: e in s.inactive && e.time <= now <==> e in s.inactive && Tag(e.id, None) in tags)
    && (forall e :: e in s.active && e.time <= now <==> e in s.active && Tag(e.id, Some(result(e.id))) in tags)
    && (forall t :: t in tags ==> t.result == None || t.result == Some(result(t.id)))
  }

  /** The end of a block at `now`: exactly the entries due leave the queues, each proposal of
      theirs once, and their deposits, no more and no less, leave escrow. */
  lemma EndBlockIs(p: Params, s: State, now: int, result: nat -> Result, tags: seq<Tag>)
    requires ParamsOk(p) && Inv(p, s) && Due(s, now, result, tags)
    ensures var s' := SettleAll(p, s, tags);
            && Inv(p, s')
            && s'.inactive == (set e | e in s.inactive && e.time > now)
            && s'.active == (set e | e in s.active && e.time > now)
            && s'.proposals - IdsOf(tags) == s.proposals - IdsOf(tags)
            && s'.deposits == s.deposits - IdsOf(tags)
            && Moves(p, s, s')
            && (forall t :: t in tags ==> Ends(s, s', t))
  {
    SettleAllIs(p, s, tags);
    forall t | t in tags
      ensures Ends(s, SettleAll(p, s, tags), t)
    {
      SettleAllEnds(p, s, tags, t);
    }
    forall e | e in s.inactive
      ensures e.time <= now <==> e.id in IdsOf(tags)
    {
      DueInactive(p, s, now, result, tags, e);
    }
    forall e | e in s.active
      ensures e.time <= now <==> e.id in IdsOf(tags)
    {
      DueActive(p, s, now, result, tags, e);
    }
  }

  lemma DueInactive(p: Params, s: State, now: int, result: nat -> Result, tags: seq<Tag>, e: Entry)
    requires Inv(p, s) && Due(s, now, result, tags) && e in s.inactive
    ensures e.time <= now <==> e.id in IdsOf(tags)
  {
    if e.id in IdsOf(tags) {
      var t :| t in tags && t.id == e.id;
      assert Settleable(s, t);
      assert t == Tag(e.id, None);
    }
  }

  lemma DueActive(p: Params, s: State, now: int, result: nat -> Result, tags: seq<Tag>, e: Entry)
    requires Inv(p, s) && Due(s, now, result, tags) && e in s.active
    ensures e.time <= now <==> e.id in IdsOf(tags)
  {
    if e.id in IdsOf(tags) {
      var t :| t in tags && t.id == e.id;
      assert Settleable(s, t);
      assert t == Tag(e.id, Some(result(e.id)));
    }
  }

  // ---- on the way there ----

  predicate Timely(s: State, now: int, result: nat -> Result, t: Tag)
  {
    && Settleable(s, t)
    && (if t.result == None then s.proposals[t.id].depositEnd <= now
        else t.result == Some(result(t.id)) && s.proposals[t.id].votingEnd <= now)
  }

  ghost predicate Working(s: State, now: int, result: nat -> Result, tags: seq<Tag>)
  {
    && (forall t :: t in tags ==> Timely(s, now, result, t))
    && (forall i, j :: 0 <= i < j < |tags| ==> tags[i].id != tags[j].id)
  }

  /** The entries of a queue that are due but not yet processed. */
  function Waiting(queue: set<Entry>, now: int, tags: seq<Tag>): set<Entry>
  {
    set e | e in queue && e.time <= now && e.id !in IdsOf(tags)
  }

  lemma WorkMore(s: State, now: int, result: nat -> Result, tags: seq<Tag>, t: Tag)
    requires Working(s, now, result, tags) && Timely(s, now, result, t) && t.id !in IdsOf(tags)
    ensures Working(s, now, result, tags + [t]) && IdsOf(tags + [t]) == IdsOf(tags) + {t.id}
  {
    forall i | 0 <= i < |tags|
      ensures tags[i].id != t.id
    {
      assert tags[i] in tags;
    }
  }

  lemma SettleMore(p: Params, s: State, tags: seq<Tag>, t: Tag)
    requires ParamsOk(p) && Inv(p, s) && Settling(s, tags) && Settleable(s, t) && t.id !in IdsOf(tags)
    ensures Inv(p, SettleAll(p, s, tags)) && Settleable(SettleAll(p, s, tags), t)
    ensures SettleAll(p, s, tags + [t]) == SettleOne(p, SettleAll(p, s, tags), t)
  {
    assert (tags + [t])[..|tags|] == tags;
    SettleAllIs(p, s, tags);
    StillThere(s.proposals, SettleAll(p, s, tags).proposals, IdsOf(tags), t.id);
  }

  /** One more entry is processed. */
  lemma WorkOn(p: Params, s: State, now: int, result: nat -> Result, tags: seq<Tag>, t: Tag, e: Entry)
    requires ParamsOk(p) && Inv(p, s) && Working(s, now, result, tags)
    requires e in (if t.result == None then Waiting(s.inactive, now, tags) else Waiting(s.active, now, tags))
    requires t == Tag(e.id, None) || t == Tag(e.id, Some(result(e.id)))
    ensures Inv(p, SettleAll(p, s, tags)) && Settleable(SettleAll(p, s, tags), t)
    ensures SettleAll(p, s, tags + [t]) == SettleOne(p, SettleAll(p, s, tags), t)
    ensures Working(s, now, result, tags + [t])
    ensures t.result == None ==> Waiting(s.inactive, now, tags + [t]) == Waiting(s.inactive, now, tags) - {e}
    ensures t.result != None ==> Waiting(s.active, now, tags + [t]) == Waiting(s.active, now, tags) - {e}
    ensures Waiting(s.inactive, now, tags + [t]) <= Waiting(s.inactive, now, tags)
  {
    assert Settling(s, tags);
    WorkMore(s, now, result, tags, t);
    SettleMore(p, s, tags, t);
    WaitLess(s, now, tags, t, e);
  }

  lemma WorkInv(p: Params, s: State, now: int, result: nat -> Result, tags: seq<Tag>)
    requires ParamsOk(p) && Inv(p, s) && Working(s, now, result, tags)
    ensures Inv(p, SettleAll(p, s, tags))
    ensures (set e | e in SettleAll(p, s, tags).active && e.time <= now) == Waiting(s.active, now, tags)
  {
    assert Settling(s, tags);
    SettleAllIs(p, s, tags);
  }

  lemma WorkSame(p: Params, s: State, now: int, result: nat -> Result, tags: seq<Tag>, id: nat)
    requires ParamsOk(p) && Inv(p, s) && Working(s, now, result, tags) && id in s.proposals && id !in IdsOf(tags)
    ensures var s' := SettleAll(p, s, tags);
            && s'.votes == s.votes && id in s'.proposals && s'.proposals[id] == s.proposals[id]
            && (id in s'.snapshots <==> id in s.snapshots)
            && (id in s.snapshots ==> s'.snapshots[id] == s.snapshots[id])
  {
    assert Settling(s, tags);
    SettleAllIs(p, s, tags);
    StillThere(s.proposals, SettleAll(p, s, tags).proposals, IdsOf(tags), id);
  }

  lemma WaitLess(s: State, now: int, tags: seq<Tag>, t: Tag, e: Entry)
    requires Queued(s.proposals, s.inactive, s.active) && t.id == e.id
    requires IdsOf(tags + [t]) == IdsOf(tags) + {t.id}
    ensures e in s.inactive ==> Waiting(s.inactive, now, tags + [t]) == Waiting(s.inactive, now, tags) - {e}
    ensures e in s.active ==> Waiting(s.active, now, tags + [t]) == Waiting(s.active, now, tags) - {e}
    ensures Waiting(s.inactive, now, tags + [t]) <= Waiting(s.inactive, now, tags)
  {
  }

  lemma Worked(p: Params, s: State, now: int, result: nat -> Result, tags: seq<Tag>)
    requires Inv(p, s) && Working(s, now, result, tags)
    requires Waiting(s.inactive, now, tags) == {} && Waiting(s.active, now, tags) == {}
    ensures Due(s, now, result, tags)
  {
    forall e | e in s.inactive
      ensures e.time <= now <==> Tag(e.id, None) in tags
    {
      if e.time <= now {
        assert e !in Waiting(s.inactive, now, tags);
        var t :| t in tags && t.id == e.id;
        assert Timely(s, now, result, t);
        assert t == Tag(e.id, None);
      } else {
        assert !Timely(s, now, result, Tag(e.id, None));
      }
    }
    forall e | e in s.active
      ensures e.time <= now <==> Tag(e.id, Some(result(e.id))) in tags
    {
      if e.time <= now {
        assert e !in Waiting(s.active, now, tags);
        var t :| t in tags && t.id == e.id;
        assert Timely(s, now, result, t);
        assert t == Tag(e.id, Some(result(e.id)));
      } else {
        assert !Timely(s, now, result, Tag(e.id, Some(result(e.id))));
      }
    }
  }
}
