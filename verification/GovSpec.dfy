/** The governance module over decoded stores: proposals, their queues, deposits and votes, the
    validator snapshots, the critical slot, and the bank's balances and counters it moves coins
    in. Deposits are in the stake denomination; times are nanoseconds. */
module GovSpec {
  import opened Bytes
  import opened Chain
  import opened Sums

  datatype Kind = TxTaxUsage | ParameterChange | SystemHalt | SoftwareUpgrade

  /** The message a proposal was submitted with, which need not go with its kind. */
  datatype Form = Basic | Usage | Upgrade

  datatype Level = Critical | Important | Normal

  datatype Status = DepositPeriod | VotingPeriod | Passed | Rejected

  datatype VoteOption = Yes | Abstain | No | NoWithVeto

  datatype Result = Pass | Reject | RejectVeto

  datatype Thresholds = Thresholds(participation: int, veto: int, threshold: int)

  datatype Procedure = Procedure(minDeposit: nat, depositPeriod: int, votingPeriod: int, tallying: Thresholds)

  datatype Params = Params(critical: Procedure, important: Procedure, normal: Procedure, escrow: Address)

  datatype Proposal =
    Proposal(form: Form, kind: Kind, status: Status, totalDeposit: nat, depositEnd: int, votingEnd: int)

  /** A key of one of the two proposal queues. */
  datatype Entry = Entry(time: int, id: nat)

  type Deposits = map<nat, map<Address, nat>>

  type Balances = map<Address, int>

  datatype State = State(
    nextId: nat,
    proposals: map<nat, Proposal>,
    deposits: Deposits,
    votes: map<nat, map<Address, VoteOption>>,
    inactive: set<Entry>,
    active: set<Entry>,
    snapshots: map<nat, seq<Address>>,
    critical: Option<nat>,
    balances: Balances,
    loosen: int,
    burned: int)

  /** MinDepositRate is 0.3. */
  const MIN_DEPOSIT_RATE := 3_000_000_000

  /** The zero time.Time, the voting end of a proposal that is not being voted on. */
  const ZERO_TIME := -62_135_596_800_000_000_000

  function LevelOf(kind: Kind): Level
  {
    match kind
    case TxTaxUsage => Normal
    case ParameterChange => Important
    case SystemHalt => Critical
    case SoftwareUpgrade => Critical
  }

  function ProcedureOf(p: Params, kind: Kind): Procedure
  {
    match LevelOf(kind)
    case Critical => p.critical
    case Important => p.important
    case Normal => p.normal
  }

  ghost predicate ParamsOk(p: Params)
  {
    forall kind :: 0 < ProcedureOf(p, kind).minDeposit < INT_BOUND
  }

  predicate Open(proposal: Proposal)
  {
    proposal.status == DepositPeriod || proposal.status == VotingPeriod
  }

  function Balance(balances: Balances, a: Address): int
  {
    if a in balances then balances[a] else 0
  }

  function Records(deposits: Deposits, id: nat): map<Address, nat>
  {
    if id in deposits then deposits[id] else map[]
  }

  function Record(deposits: Deposits, id: nat, a: Address): nat
  {
    if a in Records(deposits, id) then Records(deposits, id)[a] else 0
  }

  /** A proposal's records once `amount` more is deposited. */
  function Added(deposits: Deposits, id: nat, a: Address, amount: nat): map<Address, nat>
  {
    Records(deposits, id)[a := Record(deposits, id, a) + amount]
  }

  ghost function Totals(deposits: Deposits): map<nat, int>
  {
    map id | id in deposits :: Sum(deposits[id])
  }

  /** All that is deposited. */
  ghost function Held(deposits: Deposits): int
  {
    Sum(Totals(deposits))
  }

  // ---- what every reachable state keeps ----

  /** The queue holds exactly the proposals in its period, each under its end time. */
  ghost predicate Queued(proposals: map<nat, Proposal>, inactive: set<Entry>, active: set<Entry>)
  {
    && (forall e :: e in inactive <==>
          && e.id in proposals
          && proposals[e.id].status == DepositPeriod && proposals[e.id].depositEnd == e.time)
    && (forall e :: e in active <==>
          && e.id in proposals
          && proposals[e.id].status == VotingPeriod && proposals[e.id].votingEnd == e.time)
  }

  ghost predicate Numbered(proposals: map<nat, Proposal>, nextId: nat)
  {
    forall id :: id in proposals ==> id < nextId
  }

  ghost predicate Snapped(proposals: map<nat, Proposal>, snapshots: map<nat, seq<Address>>)
  {
    forall id :: id in snapshots <==> id in proposals && proposals[id].status == VotingPeriod
  }

  ghost predicate QueuesOk(s: State)
  {
    && Numbered(s.proposals, s.nextId)
    && Queued(s.proposals, s.inactive, s.active)
    && Snapped(s.proposals, s.snapshots)
  }

  ghost predicate DepositsOk(p: Params, proposals: map<nat, Proposal>, deposits: Deposits)
  {
    && (forall id :: id in deposits ==>
          id in proposals && Open(proposals[id]) && deposits[id] != map[] && p.escrow !in deposits[id])
    && (forall id :: id in proposals && Open(proposals[id]) ==>
          proposals[id].totalDeposit == Sum(Records(deposits, id)))
    && (forall id :: id in proposals && proposals[id].status == VotingPeriod ==>
          ProcedureOf(p, proposals[id].kind).minDeposit <= proposals[id].totalDeposit)
  }

  /** The loosen-token counter covers all balances, and the counters stay within an sdk.Int. */
  ghost predicate Backed(balances: Balances, loosen: int, burned: int)
  {
    && (forall a :: a in balances ==> balances[a] >= 0)
    && Sum(balances) <= loosen
    && 0 <= burned && loosen + burned < INT_BOUND
  }

  ghost predicate Covered(p: Params, s: State)
  {
    Held(s.deposits) <= Balance(s.balances, p.escrow)
  }

  /** The slot names the one critical proposal that is open. */
  ghost predicate CriticalOk(proposals: map<nat, Proposal>, critical: Option<nat>)
  {
    forall id :: critical == Some(id) <==>
      id in proposals && Open(proposals[id]) && LevelOf(proposals[id].kind) == Critical
  }

  ghost predicate Core(p: Params, s: State)
  {
    && QueuesOk(s)
    && DepositsOk(p, s.proposals, s.deposits)
    && Backed(s.balances, s.loosen, s.burned)
    && Covered(p, s)
  }

  ghost predicate Inv(p: Params, s: State)
  {
    Core(p, s) && CriticalOk(s.proposals, s.critical)
  }

  // ---- sums ----

  lemma HeldPut(deposits: Deposits, id: nat, records: map<Address, nat>)
    ensures Held(deposits[id := records]) == Held(deposits) - Sum(Records(deposits, id)) + Sum(records)
  {
    assert Totals(deposits[id := records]) == Totals(deposits)[id := Sum(records)];
    SumUpdate(Totals(deposits), id, Sum(records));
  }

  lemma HeldTake(deposits: Deposits, id: nat)
    ensures Held(deposits - {id}) == Held(deposits) - Sum(Records(deposits, id))
  {
    assert Totals(deposits - {id}) == Totals(deposits) - {id};
    if id in deposits {
      SumTake(Totals(deposits), id);
    } else {
      assert deposits - {id} == deposits;
    }
  }

  /** A proposal's deposits are a part of all deposits. */
  lemma HeldBounds(deposits: Deposits, id: nat)
    ensures 0 <= Sum(Records(deposits, id)) <= Held(deposits)
    ensures forall a :: a in Records(deposits, id) ==> Records(deposits, id)[a] <= Sum(Records(deposits, id))
  {
    forall i | i in deposits ensures Totals(deposits)[i] >= 0 {
      SumNonNegative(deposits[i]);
    }
    SumNonNegative(Totals(deposits));
    SumNonNegative(Records(deposits, id));
    if id in deposits {
      assert id in Totals(deposits);
    }
  }

  /** No account holds more than an sdk.Int. */
  lemma BackedBounds(balances: Balances, loosen: int, burned: int, a: Address)
    requires Backed(balances, loosen, burned)
    ensures 0 <= Balance(balances, a) <= loosen < INT_BOUND
  {
    SumNonNegative(balances);
  }

  // ---- moving coins ----

  /** SendCoins: the sender's account is written before the receiver's is read. */
  function Moved(balances: Balances, from: Address, to: Address, amount: int): Balances
  {
    var less := balances[from := Balance(balances, from) - amount];
    less[to := Balance(less, to) + amount]
  }

  lemma MovedSum(balances: Balances, from: Address, to: Address, amount: int)
    ensures Sum(Moved(balances, from, to, amount)) == Sum(balances)
  {
    SumUpdate(balances, from, Balance(balances, from) - amount);
    var less := balances[from := Balance(balances, from) - amount];
    SumUpdate(less, to, Balance(less, to) + amount);
  }

  function Credited(balances: Balances, gains: map<Address, nat>): Balances
  {
    map a | a in balances.Keys + gains.Keys :: Balance(balances, a) + (if a in gains then gains[a] else 0)
  }

  lemma CreditedOne(balances: Balances, gains: map<Address, nat>, a: Address)
    requires a in gains
    ensures Balance(Credited(balances, gains - {a}), a) == Balance(balances, a)
    ensures Credited(balances, gains) == Credited(balances, gains - {a})[a := Balance(balances, a) + gains[a]]
  {
  }

  lemma {:induction false} CreditedSum(balances: Balances, gains: map<Address, nat>)
    ensures Sum(Credited(balances, gains)) == Sum(balances) + Sum(gains)
    decreases |gains|
  {
    if gains == map[] {
      assert Credited(balances, gains) == balances;
    } else {
      var a :| a in gains;
      Smaller(gains, a);
      CreditedSum(balances, gains - {a});
      SumTake(gains, a);
      CreditedMore(balances, gains, a);
    }
  }

  lemma CreditedMore(balances: Balances, gains: map<Address, nat>, a: Address)
    requires a in gains
    ensures Sum(Credited(balances, gains)) == Sum(Credited(balances, gains - {a})) + gains[a]
  {
    CreditedOne(balances, gains, a);
    SumUpdate(Credited(balances, gains - {a}), a, Balance(balances, a) + gains[a]);
  }

  // ---- depositing ----

  function DepositVerdict(p: Params, s: State, id: nat, depositor: Address, amount: nat): Verdict
  {
    if id !in s.proposals || s.proposals[id].status != DepositPeriod then Fails
    else if Balance(s.balances, depositor) < amount then Fails
    else if Balance(Moved(s.balances, depositor, p.escrow, amount), p.escrow) >= INT_BOUND then Panic
    else if s.proposals[id].totalDeposit + amount >= INT_BOUND then Panic
    else if Record(s.deposits, id, depositor) + amount >= INT_BOUND then Panic
    else Done
  }

  /** The proposal's voting period starts. */
  function Activated(p: Params, s: State, id: nat, now: int, bonded: seq<Address>): State
    requires id in s.proposals
  {
    var proposal := s.proposals[id];
    var votingEnd := now + ProcedureOf(p, proposal.kind).votingPeriod;
    s.(proposals := s.proposals[id := proposal.(status := VotingPeriod, votingEnd := votingEnd)],
       inactive := s.inactive - {Entry(proposal.depositEnd, id)},
       active := s.active + {Entry(votingEnd, id)},
       snapshots := s.snapshots[id := bonded])
  }

  /** A deposit's effect on coins, total and record. */
  function Paid(p: Params, s: State, id: nat, depositor: Address, amount: nat): State
    requires id in s.proposals
  {
    var proposal := s.proposals[id];
    s.(proposals := s.proposals[id := proposal.(totalDeposit := proposal.totalDeposit + amount)],
       deposits := s.deposits[id := Added(s.deposits, id, depositor, amount)],
       balances := Moved(s.balances, depositor, p.escrow, amount))
  }

  /** The voting period starts once the minimal deposit is reached. */
  function Started(p: Params, s: State, id: nat, now: int, bonded: seq<Address>): State
    requires id in s.proposals
  {
    if ProcedureOf(p, s.proposals[id].kind).minDeposit <= s.proposals[id].totalDeposit
    then Activated(p, s, id, now, bonded)
    else s
  }

  function Deposited(p: Params, s: State, id: nat, depositor: Address, amount: nat, now: int,
                     bonded: seq<Address>): State
    requires id in s.proposals
  {
    Started(p, Paid(p, s, id, depositor, amount), id, now, bonded)
  }

  lemma RecordsPut(deposits: Deposits, id: nat, depositor: Address, amount: nat)
    ensures Sum(Added(deposits, id, depositor, amount)) == Sum(Records(deposits, id)) + amount
    ensures Held(deposits[id := Added(deposits, id, depositor, amount)]) == Held(deposits) + amount
  {
    SumUpdate(Records(deposits, id), depositor, Record(deposits, id, depositor) + amount);
    HeldPut(deposits, id, Added(deposits, id, depositor, amount));
  }

  /** How far the escrow account exceeds the deposits changes only when the escrow account
      itself deposits, which its having no key rules out. */
  lemma DepositSurplus(p: Params, s: State, id: nat, depositor: Address, amount: nat)
    requires id in s.proposals
    ensures var paid := Paid(p, s, id, depositor, amount);
            Balance(paid.balances, p.escrow) - Held(paid.deposits) ==
            Balance(s.balances, p.escrow) - Held(s.deposits) - (if depositor == p.escrow then amount else 0)
  {
    RecordsPut(s.deposits, id, depositor, amount);
  }

  lemma MovedKeeps(balances: Balances, loosen: int, burned: int, from: Address, to: Address, amount: nat)
    requires Backed(balances, loosen, burned) && amount <= Balance(balances, from)
    ensures Backed(Moved(balances, from, to, amount), loosen, burned)
  {
    MovedSum(balances, from, to, amount);
  }

  lemma DepositsPut(p: Params, proposals: map<nat, Proposal>, deposits: Deposits, id: nat, proposal: Proposal,
                    records: map<Address, nat>)
    requires DepositsOk(p, proposals, deposits) && id in proposals
    requires proposal.status == DepositPeriod && proposal.totalDeposit == Sum(records)
    requires p.escrow !in records && records != map[]
    ensures DepositsOk(p, proposals[id := proposal], deposits[id := records])
  {
    var proposals', deposits' := proposals[id := proposal], deposits[id := records];
    forall i | i in deposits'
      ensures i in proposals' && Open(proposals'[i]) && deposits'[i] != map[] && p.escrow !in deposits'[i]
    {
      if i != id { assert i in deposits; }
    }
    forall i | i in proposals' && Open(proposals'[i])
      ensures proposals'[i].totalDeposit == Sum(Records(deposits', i))
    {
      if i != id { assert Records(deposits', i) == Records(deposits, i); }
    }
  }

  lemma PaidKeepsDeposits(p: Params, s: State, id: nat, depositor: Address, amount: nat)
    requires DepositsOk(p, s.proposals, s.deposits) && id in s.proposals && s.proposals[id].status == DepositPeriod
    requires depositor != p.escrow
    ensures var paid := Paid(p, s, id, depositor, amount);
            DepositsOk(p, paid.proposals, paid.deposits)
  {
    RecordsPut(s.deposits, id, depositor, amount);
    assert s.proposals[id].totalDeposit == Sum(Records(s.deposits, id));
    assert depositor in Added(s.deposits, id, depositor, amount);
    assert p.escrow !in Added(s.deposits, id, depositor, amount);
    var paid := Paid(p, s, id, depositor, amount);
    DepositsPut(p, s.proposals, s.deposits, id, paid.proposals[id], Added(s.deposits, id, depositor, amount));
  }

  lemma PaidKeepsQueues(p: Params, s: State, id: nat, depositor: Address, amount: nat)
    requires QueuesOk(s) && id in s.proposals && s.proposals[id].status == DepositPeriod
    ensures QueuesOk(Paid(p, s, id, depositor, amount))
  {
  }

  lemma PaidKeeps(p: Params, s: State, id: nat, depositor: Address, amount: nat)
    requires Core(p, s) && id in s.proposals && s.proposals[id].status == DepositPeriod
    requires depositor != p.escrow && amount <= Balance(s.balances, depositor)
    ensures Core(p, Paid(p, s, id, depositor, amount))
  {
    DepositSurplus(p, s, id, depositor, amount);
    PaidKeepsQueues(p, s, id, depositor, amount);
    PaidKeepsDeposits(p, s, id, depositor, amount);
    MovedKeeps(s.balances, s.loosen, s.burned, depositor, p.escrow, amount);
  }

  lemma ActivatedKeepsQueues(p: Params, s: State, id: nat, now: int, bonded: seq<Address>)
    requires QueuesOk(s) && id in s.proposals && s.proposals[id].status == DepositPeriod
    ensures QueuesOk(Activated(p, s, id, now, bonded))
  {
  }

  lemma ActivatedKeeps(p: Params, s: State, id: nat, now: int, bonded: seq<Address>)
    requires Core(p, s) && id in s.proposals && s.proposals[id].status == DepositPeriod
    requires ProcedureOf(p, s.proposals[id].kind).minDeposit <= s.proposals[id].totalDeposit
    ensures Core(p, Activated(p, s, id, now, bonded))
  {
    ActivatedKeepsQueues(p, s, id, now, bonded);
  }

  lemma DepositNeverPanics(p: Params, s: State, id: nat, depositor: Address, amount: nat)
    requires Core(p, s) && depositor != p.escrow
    ensures DepositVerdict(p, s, id, depositor, amount) != Panic
  {
    if id in s.proposals && s.proposals[id].status == DepositPeriod && amount <= Balance(s.balances, depositor) {
      PaidKeeps(p, s, id, depositor, amount);
      CoreFits(p, Paid(p, s, id, depositor, amount), id);
      assert depositor in Added(s.deposits, id, depositor, amount);
    }
  }

  /** Escrow, and so every total and record, fits an sdk.Int. */
  lemma CoreFits(p: Params, s: State, id: nat)
    requires Core(p, s) && id in s.proposals && s.proposals[id].status == DepositPeriod
    ensures Balance(s.balances, p.escrow) < INT_BOUND && s.proposals[id].totalDeposit < INT_BOUND
    ensures forall a :: a in Records(s.deposits, id) ==> Records(s.deposits, id)[a] < INT_BOUND
  {
    BackedBounds(s.balances, s.loosen, s.burned, p.escrow);
    HeldBounds(s.deposits, id);
  }

  lemma DepositedKeeps(p: Params, s: State, id: nat, depositor: Address, amount: nat, now: int, bonded: seq<Address>)
    requires Core(p, s) && depositor != p.escrow
    requires DepositVerdict(p, s, id, depositor, amount) == Done
    ensures Core(p, Deposited(p, s, id, depositor, amount, now, bonded))
  {
    PaidKeeps(p, s, id, depositor, amount);
    StartedKeeps(p, Paid(p, s, id, depositor, amount), id, now, bonded);
  }

  lemma StartedKeeps(p: Params, s: State, id: nat, now: int, bonded: seq<Address>)
    requires Core(p, s) && id in s.proposals && s.proposals[id].status == DepositPeriod
    ensures Core(p, Started(p, s, id, now, bonded))
  {
    if ProcedureOf(p, s.proposals[id].kind).minDeposit <= s.proposals[id].totalDeposit {
      ActivatedKeeps(p, s, id, now, bonded);
    }
  }

  lemma DepositedKeepsSlot(p: Params, s: State, id: nat, depositor: Address, amount: nat, now: int,
                           bonded: seq<Address>, critical: Option<nat>)
    requires id in s.proposals && Open(s.proposals[id]) && CriticalOk(s.proposals, critical)
    ensures CriticalOk(Deposited(p, s, id, depositor, amount, now, bonded).proposals, critical)
  {
  }
}
