/** The governance keeper and its end-blocker, on the decoded stores. The loops over deposits and
    queue entries follow store iterators, which are snapshots; they are in an arbitrary order
    here, so what is proved holds for the order of the keys. */
module Gov {
  import opened Bytes
  import opened Chain
  import opened Sums
  import opened GovRefunds
  import opened GovSpec
  import opened GovSteps
  import opened GovFacts
  import opened GovClosing
  import Tally

  /** The store once a record is deleted. */
  function Deleted(deposits: Deposits, id: nat, a: Address): Deposits
  {
    var rest := Records(deposits, id) - {a};
    if rest == map[] then deposits - {id} else deposits[id := rest]
  }

  /** The store while the records of one proposal are deleted, `pending` still to go. */
  function Leaving(deposits: Deposits, id: nat, pending: map<Address, nat>): Deposits
  {
    if pending == map[] then deposits - {id} else deposits[id := pending]
  }

  lemma LeaveAll(deposits: Deposits, id: nat)
    requires id in deposits ==> deposits[id] != map[]
    ensures Leaving(deposits, id, Records(deposits, id)) == deposits
  {
  }

  lemma LeaveOne(deposits: Deposits, id: nat, pending: map<Address, nat>, a: Address)
    requires a in pending
    ensures Records(Leaving(deposits, id, pending), id) == pending
    ensures Deleted(Leaving(deposits, id, pending), id, a) == Leaving(deposits, id, pending - {a})
  {
    if pending - {a} == map[] {
      assert deposits[id := pending] - {id} == deposits - {id};
    }
  }

  class Keeper {
    const params: Params
    var store: State

    constructor (params: Params, store: State)
      ensures this.params == params && this.store == store
    {
      this.params, this.store := params, store;
    }

    // ---- the bank ----

    method SendCoins(from: Address, to: Address, amount: nat) returns (v: Verdict)
      modifies this`store
      ensures v == if Balance(old(store).balances, from) < amount then Fails
                   else if Balance(Moved(old(store).balances, from, to, amount), to) >= INT_BOUND then Panic
                   else Done
      ensures v == Done ==> store == old(store).(balances := Moved(old(store).balances, from, to, amount))
    {
      if Balance(store.balances, from) < amount {
        return Fails;
      }
      store := store.(balances := store.balances[from := Balance(store.balances, from) - amount]);
      if Balance(store.balances, to) + amount >= INT_BOUND {
        return Panic;
      }
      store := store.(balances := store.balances[to := Balance(store.balances, to) + amount]);
      return Done;
    }

    /** The counters are left alone when the amount is zero. */
    method BurnCoinsFromAddr(from: Address, amount: nat) returns (v: Verdict)
      modifies this`store
      ensures v == if Balance(old(store).balances, from) < amount then Fails
                   else if amount > 0 && (old(store).loosen < amount || old(store).burned + amount >= INT_BOUND)
                   then Panic
                   else Done
      ensures v == Done ==>
        store == old(store).(balances := old(store).balances[from := Balance(old(store).balances, from) - amount],
                             loosen := old(store).loosen - amount, burned := old(store).burned + amount)
    {
      if Balance(store.balances, from) < amount {
        return Fails;
      }
      store := store.(balances := store.balances[from := Balance(store.balances, from) - amount]);
      if amount > 0 {
        if store.loosen < amount {
          return Panic;
        }
        store := store.(loosen := store.loosen - amount);
        if store.burned + amount >= INT_BOUND {
          return Panic;
        }
        store := store.(burned := store.burned + amount);
      }
      return Done;
    }

    // ---- proposals and deposits ----

    method ActivateVotingPeriod(id: nat, now: int, bonded: seq<Address>)
      requires id in store.proposals
      modifies this`store
      ensures store == Activated(params, old(store), id, now, bonded)
    {
      var proposal := store.proposals[id];
      var end := now + ProcedureOf(params, proposal.kind).votingPeriod;
      store := store.(proposals := store.proposals[id := proposal.(status := VotingPeriod, votingEnd := end)]);
      store := store.(inactive := store.inactive - {Entry(proposal.depositEnd, id)});
      store := store.(active := store.active + {Entry(end, id)});
      store := store.(snapshots := store.snapshots[id := bonded]);
    }

    method AddDeposit(id: nat, depositor: Address, amount: nat, now: int, bonded: seq<Address>) returns (v: Verdict)
      modifies this`store
      ensures v == DepositVerdict(params, old(store), id, depositor, amount)
      ensures v == Done ==> store == Deposited(params, old(store), id, depositor, amount, now, bonded)
      ensures Inv(params, old(store)) ==> DepositSays(params, old(store), store, id, depositor, amount, now, bonded, v)
    {
      DepositWrittenOut(params, store, id, depositor, amount, now, bonded);
      if id !in store.proposals || store.proposals[id].status != DepositPeriod {
        return Fails;
      }
      v := SendCoins(depositor, params.escrow, amount);
      if v != Done {
        return;
      }
      var total := store.proposals[id].totalDeposit + amount;
      if total >= INT_BOUND {
        return Panic;
      }
      store := store.(proposals := store.proposals[id := store.proposals[id].(totalDeposit := total)]);
      if ProcedureOf(params, store.proposals[id].kind).minDeposit <= total {
        ActivateVotingPeriod(id, now, bonded);
      }
      if Record(store.deposits, id, depositor) + amount >= INT_BOUND {
        return Panic;
      }
      store := store.(deposits := store.deposits[id := Added(store.deposits, id, depositor, amount)]);
      return Done;
    }

    method NewProposal(form: Form, kind: Kind, now: int) returns (id: Option<nat>)
      modifies this`store
      ensures id == if HasProposal(form, kind) then Some(old(store).nextId) else None
      ensures store == if HasProposal(form, kind) then Created(params, old(store), form, kind, now) else old(store)
    {
      if form.Basic? && !kind.ParameterChange? && !kind.SystemHalt? {
        return None;
      }
      var next := store.nextId;
      id := Some(next);
      store := store.(nextId := next + 1);
      var end := now + ProcedureOf(params, kind).depositPeriod;
      store := store.(proposals := store.proposals[next := Proposal(form, kind, DepositPeriod, 0, end, ZERO_TIME)]);
      store := store.(inactive := store.inactive + {Entry(end, next)});
    }

    method SubmitProposal(form: Form, kind: Kind, proposer: Address, initial: nat, now: int,
                          bonded: seq<Address>, admitted: bool)
      returns (v: Verdict)
      modifies this`store
      ensures v == SubmitVerdict(params, old(store), form, kind, proposer, initial, now, admitted)
      ensures v == Done ==> store == Submitted(params, old(store), form, kind, proposer, initial, now, bonded)
      ensures ParamsOk(params) && Inv(params, old(store)) ==>
        && (v == Done <==> Submittable(params, old(store), form, kind, proposer, initial, admitted))
        && (v == Panic <==> Unmakeable(old(store), form, kind, admitted))
      ensures v == Done ==> Opened(params, old(store), store, form, kind, proposer, initial, now, bonded)
    {
      SubmittedIs(params, store, form, kind, proposer, initial, now, bonded);
      if ParamsOk(params) && Inv(params, store) {
        SubmitDoneIff(params, store, form, kind, proposer, initial, now, admitted);
      }
      if LevelOf(kind) == Critical && store.critical.Some? {
        return Fails;
      }
      if !admitted {
        return Fails;
      }
      var proposal := NewProposal(form, kind, now);
      if proposal.None? {
        return Panic;
      }
      var least := MinInitialDeposit(params, kind);
      if least.Panics? {
        return Panic;
      }
      if initial < least.value {
        return Fails;
      }
      v := AddDeposit(proposal.value, proposer, initial, now, bonded);
      if v == Done && LevelOf(kind) == Critical {
        store := store.(critical := Some(proposal.value));
      }
    }

    /** The first vote of a validator on a proposal under vote is recorded; no vote is replaced,
        no other vote changes, and nothing but the votes does. */
    method AddVote(id: nat, voter: Address, option: VoteOption, isValidator: bool) returns (v: Verdict)
      modifies this`store
      ensures v == Done <==> UnderVote(old(store), id) && isValidator && VoteOf(old(store).votes, id, voter) == None
      ensures v != Done ==> v == Fails && store == old(store)
      ensures v == Done ==> store == Voted(old(store), id, voter, option)
      ensures store == old(store).(votes := store.votes)
      ensures forall i, a :: VoteOf(store.votes, i, a) ==
                if v == Done && i == id && a == voter then Some(option) else VoteOf(old(store).votes, i, a)
    {
      if id !in store.proposals || store.proposals[id].status != VotingPeriod {
        return Fails;
      }
      if !isValidator {
        return Fails;
      }
      if id in store.votes && voter in store.votes[id] {
        return Fails;
      }
      store := Voted(store, id, voter, option);
      return Done;
    }

    /** The handler under the transaction runner: a message that does not succeed leaves nothing. */
    method Deliver(e: Event) returns (v: Verdict)
      requires e.Submit? || e.Deposit? || e.Vote?
      modifies this`store
      ensures store == Next(params, old(store), e)
      ensures ParamsOk(params) && Inv(params, old(store)) && Signed(params, e) ==>
        Inv(params, store) && (v == Panic <==> Unmade(old(store), e))
    {
      var before := store;
      if e.Submit? {
        v := SubmitProposal(e.form, e.kind, e.proposer, e.initial, e.time, e.bonded, e.admitted);
      } else if e.Deposit? {
        v := AddDeposit(e.id, e.depositor, e.amount, e.time, e.bonded);
      } else {
        v := AddVote(e.id, e.voter, e.option, e.isValidator);
      }
      if v != Done {
        store := before;
      }
      DeliverKeeps(params, before, e);
    }

    // ---- settling ----

    /** Burns one record and deletes it. */
    method BurnRecord(id: nat, a: Address) returns (v: Verdict)
      requires a in Records(store.deposits, id)
      modifies this`store
      ensures Affords(params, old(store), Record(old(store).deposits, id, a)) ==>
        && v == Done
        && store == Spent(params, old(store), Deleted(old(store).deposits, id, a), Record(old(store).deposits, id, a))
      ensures v != Fails
    {
      v := BurnCoinsFromAddr(params.escrow, Record(store.deposits, id, a));
      if v != Done {
        return Panic;
      }
      store := store.(deposits := Deleted(store.deposits, id, a));
    }

    method BurnRecords(id: nat) returns (v: Verdict)
      requires id in store.deposits ==> store.deposits[id] != map[]
      requires Affords(params, store, Sum(Records(store.deposits, id)))
      modifies this`store
      ensures v == Done && store == Burned(params, old(store), id)
    {
      ghost var before, touched := store, false;
      var pending := Records(store.deposits, id);
      LeaveAll(store.deposits, id);
      v := Done;
      while pending != map[] && v == Done
        invariant v == Done && BurningAt(params, before, store, id, pending, touched)
        decreases |pending|
      {
        var a :| a in pending;
        BurnStep(params, before, store, id, pending, touched, a);
        touched := true;
        v := BurnRecord(id, a);
        pending := pending - {a};
      }
      BurnedAll(params, before, store, id, touched);
    }

    /** Under the invariant no burn fails, and exactly the proposal's deposits leave escrow. */
    method DeleteDeposits(id: nat) returns (v: Verdict)
      requires Core(params, store)
      modifies this`store
      ensures v == Done && store == Burned(params, old(store), id)
    {
      CanSettle(params, store, id);
      v := BurnRecords(id);
    }

    /** Collects the records of a proposal, deleting each while iterating; panics exactly when
        they do not fit one amount together. */
    method TakeDeposits(id: nat) returns (v: Verdict, records: map<Address, nat>, sum: nat)
      requires id in store.deposits ==> store.deposits[id] != map[]
      modifies this`store
      ensures v == if Sum(Records(old(store).deposits, id)) < INT_BOUND then Done else Panic
      ensures v == Done ==>
        && records == Records(old(store).deposits, id) && sum == Sum(records)
        && store == old(store).(deposits := old(store).deposits - {id})
    {
      ghost var before := store;
      var pending := Records(store.deposits, id);
      v, records, sum := Done, map[], 0;
      LeaveAll(store.deposits, id);
      while pending != map[]
        invariant v == Done && sum < INT_BOUND && TakingAt(before, store, id, pending, records, sum)
        decreases |pending|
      {
        var a :| a in pending;
        TakeStep(before, store, id, pending, records, sum, a);
        records := records[a := pending[a]];
        if sum + pending[a] >= INT_BOUND {
          v := Panic;
          return;
        }
        sum := sum + pending[a];
        store := store.(deposits := Deleted(store.deposits, id, a));
        pending := pending - {a};
      }
      TakenAll(before, store, id, records, sum);
    }

    /** Pays one refund and adds it to what was refunded before. */
    method PayRefund(to: Address, due: Outcome<nat>, refunded: nat) returns (v: Verdict, total: nat)
      modifies this`store
      ensures && due.Returns? && due.value <= Balance(old(store).balances, params.escrow)
              && Balance(Moved(old(store).balances, params.escrow, to, due.value), to) < INT_BOUND
              && refunded + due.value < INT_BOUND ==>
              && v == Done && total == refunded + due.value
              && store == old(store).(balances := Moved(old(store).balances, params.escrow, to, due.value))
      ensures due.Panics? ==> v == Panic
    {
      if due.Panics? || refunded + due.value >= INT_BOUND {
        return Panic, refunded;
      }
      total := refunded + due.value;
      v := SendCoins(params.escrow, to, due.value);
      if v != Done {
        v := Panic;
      }
    }

    method PayNext(pending: map<Address, nat>, refundOf: nat -> Outcome<nat>, refunded: nat,
                   ghost refunds: map<Address, nat>, ghost before: State)
      returns (v: Verdict, rest: map<Address, nat>, total: nat)
      requires pending != map[] && Payable(params, before, refunds)
      requires PayingAt(params, before, store, refundOf, refunds, pending, refunded)
      modifies this`store
      ensures |rest| < |pending|
      ensures v == Done ==>
        && (AllReturn(rest, refundOf) <==> AllReturn(pending, refundOf))
        && PayingAt(params, before, store, refundOf, refunds, rest, total)
      ensures v != Done ==> v == Panic && !AllReturn(pending, refundOf)
    {
      var a :| a in pending;
      rest := pending - {a};
      ReturnOne(pending, refundOf, a);
      if refundOf(pending[a]).Returns? {
        PayStep(params, before, store, refundOf, refunds, pending, refunded, a);
      }
      v, total := PayRefund(a, refundOf(pending[a]), refunded);
    }

    method PayRefunds(records: map<Address, nat>, refundOf: nat -> Outcome<nat>, ghost refunds: map<Address, nat>)
      returns (v: Verdict, refunded: nat)
      requires Payable(params, store, refunds) && Owed(records, refundOf, refunds)
      modifies this`store
      ensures v == if AllReturn(records, refundOf) then Done else Panic
      ensures v == Done ==>
        && refunded == Sum(refunds)
        && store == old(store).(balances := PaidOut(old(store).balances, params.escrow, refunds))
    {
      ghost var before := store;
      var pending := records;
      v, refunded := Done, 0;
      PayNone(params, store, records, refundOf, refunds);
      while pending != map[] && v == Done
        invariant v == Done ==> PayingAt(params, before, store, refundOf, refunds, pending, refunded)
        invariant v == Done ==> (AllReturn(pending, refundOf) <==> AllReturn(records, refundOf))
        invariant v != Done ==> v == Panic && !AllReturn(records, refundOf)
        decreases |pending|
      {
        v, pending, refunded := PayNext(pending, refundOf, refunded, refunds, before);
      }
      if v == Done {
        PaidAll(params, before, store, refundOf, refunds, pending, refunded);
      }
    }

    /** Pays the refunds and burns what remains. */
    method PayOut(records: map<Address, nat>, sum: nat, refundOf: nat -> Outcome<nat>, ghost refunds: map<Address, nat>)
      returns (v: Verdict)
      requires Payable(params, store, refunds) && Owed(records, refundOf, refunds)
      requires records != map[] && 0 <= Sum(refunds) <= sum && Affords(params, store, sum)
      modifies this`store
      ensures v == if AllReturn(records, refundOf) then Done else Panic
      ensures v == Done ==> store == OutPaid(params, old(store), refunds, sum)
    {
      OutPaidIs(params, store, refunds, sum);
      var refunded;
      v, refunded := PayRefunds(records, refundOf, refunds);
      if v != Done {
        return;
      }
      if refunded > sum {
        return Panic;
      }
      v := BurnCoinsFromAddr(params.escrow, sum - refunded);
      if v != Done {
        return Panic;
      }
    }

    /** Whatever the minimal deposit has become since, and whatever was deposited: as long as
        escrow has the deposits, the refund goes through exactly when none of its arithmetic
        panics, and otherwise the whole block does. */
    method RefundDeposits(id: nat) returns (v: Verdict)
      requires id in store.proposals && Solvent(params, store, id)
      modifies this`store
      ensures v == if CanRefund(params, old(store), id) then Done else Panic
      ensures v == Done ==> store == Repaid(params, old(store), id, RefundsFor(params, old(store), id))
    {
      ghost var before := store;
      var minDeposit := ProcedureOf(params, store.proposals[id].kind).minDeposit;
      var records, sum;
      v, records, sum := TakeDeposits(id);
      if v != Done {
        return;
      }
      var rate := BurnShare(minDeposit, sum);
      if rate.Panics? {
        return Panic;
      }
      RatedRefunds(params, before, id);
      v := PayOut(records, sum, Refunder(rate.value), RefundsFor(params, before, id));
    }

    // ---- the end of a block ----

    /** A proposal that did not reach its minimal deposit in time. */
    method DropProposal(id: nat) returns (v: Verdict)
      requires Inv(params, store) && id in store.proposals && store.proposals[id].status == DepositPeriod
      modifies this`store
      ensures v == Done && store == Dropped(params, old(store), id)
      ensures DroppedAll(params, old(store), store, id)
    {
      DroppedIs(params, store, id);
      var proposal := store.proposals[id];
      BurnedApart(params, store, id, Freed(store.critical, proposal.kind));
      store := store.(critical := Freed(store.critical, proposal.kind));
      v := DeleteDeposits(id);
      if v != Done {
        return;
      }
      store := store.(inactive := store.inactive - {Entry(proposal.depositEnd, id)});
      store := store.(active := store.active - {Entry(proposal.votingEnd, id)});
      store := store.(proposals := store.proposals - {id});
    }

    /** A proposal whose voting period is over: its deposits are settled, it is executed if it
        passed, and the absent validators are slashed. */
    method CloseProposal(id: nat, result: Result, powers: Tally.Powers, voters: set<Address>)
      returns (v: Verdict, penalties: seq<Penalty>)
      requires ParamsOk(params) && Inv(params, store)
      requires id in store.proposals && store.proposals[id].status == VotingPeriod
      requires voters == Tally.Voters(powers, VotesOn(store, id))
      modifies this`store
      ensures v == if && (result == Pass ==> Executable(old(store).proposals[id].form, old(store).proposals[id].kind))
                      && Punishable(Snapshot(old(store), id), powers, VotesOn(old(store), id))
                   then Done else Panic
      ensures v == Done ==>
        && store == Closed(params, old(store), id, result)
        && penalties == Penalties(id, Snapshot(old(store), id), powers, VotesOn(old(store), id))
      ensures v == Done ==>
        && store.proposals[id] == old(store).proposals[id].(status := if result == Pass then Passed else Rejected)
        && ClosedBy(params, old(store), store, id, result)
    {
      ClosedIs(params, store, id, result);
      var proposal, snapshot := store.proposals[id], Snapshot(store, id);
      ghost var votes := VotesOn(store, id);
      v := SettleDeposits(id, result);
      penalties := [];
      if result == Pass && !Executable(proposal.form, proposal.kind) {
        return Panic, [];
      }
      store := store.(active := store.active - {Entry(proposal.votingEnd, id)});
      store := store.(proposals := store.proposals[id := proposal.(status := StatusOf(result))]);
      v, penalties := SlashAbsent(id, snapshot, powers, voters, votes);
      if v != Done {
        return;
      }
      store := store.(critical := Freed(store.critical, proposal.kind));
      store := store.(snapshots := store.snapshots - {id});
    }

    method SettleDeposits(id: nat, result: Result) returns (v: Verdict)
      requires ParamsOk(params) && Inv(params, store)
      requires id in store.proposals && store.proposals[id].status == VotingPeriod
      modifies this`store
      ensures v == Done && store == Settled(params, old(store), id, result)
    {
      CanSettle(params, store, id);
      if result == RejectVeto {
        v := DeleteDeposits(id);
      } else {
        RefundsOf(params, store, id);
        v := RefundDeposits(id);
      }
    }

    method DropDue(now: int, ghost result: nat -> Result) returns (v: Verdict, tags: seq<Tag>)
      requires ParamsOk(params) && Inv(params, store)
      modifies this`store
      ensures v == Done && Working(old(store), now, result, tags)
      ensures Waiting(old(store).inactive, now, tags) == {} && forall t :: t in tags ==> t.result == None
      ensures store == SettleAll(params, old(store), tags)
    {
      ghost var before := store;
      var due := set e | e in store.inactive && e.time <= now;
      v, tags := Done, [];
      while due != {} && v == Done
        invariant v == Done && Working(before, now, result, tags) && forall t :: t in tags ==> t.result == None
        invariant due == Waiting(before.inactive, now, tags)
        invariant store == SettleAll(params, before, tags)
        decreases |due|
      {
        var e :| e in due;
        WorkOn(params, before, now, result, tags, Tag(e.id, None), e);
        v := DropProposal(e.id);
        tags := tags + [Tag(e.id, None)];
        due := due - {e};
      }
    }

    /** What the tally finds for a proposal under vote, from the votes in the store and the bonded
        validators' powers. */
    method TallyVotes(id: nat, powers: Tally.Powers) returns (result: Outcome<Result>, voters: set<Address>)
      requires id in store.proposals
      ensures result == Finding(params, store, id, powers)
      ensures result.Panics? <==> !Countable(powers)
      ensures result.Returns? ==> voters == Tally.Voters(powers, VotesOn(store, id))
    {
      var results;
      result, results, voters := Tally.Tally(ProcedureOf(params, store.proposals[id].kind).tallying, powers,
                                             VotesOn(store, id));
    }

    method CloseDue(now: int, powers: PowersAt, dropped: seq<Tag>, ghost before: State)
      returns (v: Verdict, tags: seq<Tag>, penalties: seq<Penalty>)
      requires ParamsOk(params) && Inv(params, before)
      requires Working(before, now, Findings(params, before, powers), dropped)
      requires Waiting(before.inactive, now, dropped) == {}
      requires store == SettleAll(params, before, dropped)
      requires AllPenalties(before, powers, dropped) == []
      modifies this`store
      ensures v == if AllClosable(params, before, powers, Waiting(before.active, now, dropped)) then Done else Panic
      ensures v == Done ==> ClosingAt(params, before, store, now, powers, tags, {}, penalties)
    {
      WorkInv(params, before, now, Findings(params, before, powers), dropped);
      var due := set e | e in store.active && e.time <= now;
      v, tags, penalties := CloseAll(now, powers, dropped, due, before);
    }

    method CloseAll(now: int, powers: PowersAt, dropped: seq<Tag>, all: set<Entry>, ghost before: State)
      returns (v: Verdict, tags: seq<Tag>, penalties: seq<Penalty>)
      requires ParamsOk(params) && Inv(params, before)
      requires ClosingAt(params, before, store, now, powers, dropped, all, [])
      modifies this`store
      ensures v == if AllClosable(params, before, powers, all) then Done else Panic
      ensures v == Done ==> ClosingAt(params, before, store, now, powers, tags, {}, penalties)
    {
      var due := all;
      v, tags, penalties := Done, dropped, [];
      while due != {}
        invariant v == Done
        invariant AllClosable(params, before, powers, due) <==> AllClosable(params, before, powers, all)
        invariant ClosingAt(params, before, store, now, powers, tags, due, penalties)
        decreases |due|
      {
        var e :| e in due;
        ClosableLess(params, before, powers, due, e);
        var r, more;
        v, r, more := CloseNext(now, powers, tags, due, e, penalties, before);
        if v != Done {
          return;
        }
        tags := tags + [Tag(e.id, Some(r))];
        penalties := penalties + more;
        due := due - {e};
      }
    }

    method CloseNext(now: int, powers: PowersAt, tags: seq<Tag>, due: set<Entry>, e: Entry,
                     ghost penalties: seq<Penalty>, ghost before: State)
      returns (v: Verdict, r: Result, more: seq<Penalty>)
      requires ParamsOk(params) && Inv(params, before) && e in due
      requires ClosingAt(params, before, store, now, powers, tags, due, penalties)
      modifies this`store
      ensures |due - {e}| < |due|
      ensures v == if Closable(params, before, powers, e.id) then Done else Panic
      ensures v == Done ==>
        ClosingAt(params, before, store, now, powers, tags + [Tag(e.id, Some(r))], due - {e}, penalties + more)
    {
      CloseStep(params, before, store, now, powers, tags, due, e, penalties);
      SameFinding(params, before, store, powers, e.id);
      var found, voters := TallyVotes(e.id, powers(e.id));
      if found.Panics? {
        return Panic, Reject, [];
      }
      r := found.value;
      v, more := CloseProposal(e.id, r, powers(e.id), voters);
    }

    /** It panics exactly when some proposal due cannot be closed. Otherwise every proposal is
        there, the tags name exactly those that are due, each with what the tally of its votes
        finds, and the new state is that of a run which settles them. Exactly the bonded
        validators of their snapshots that did not vote are handed to Slash. */
    method EndBlocker(now: int, powers: PowersAt) returns (v: Verdict, tags: seq<Tag>, penalties: seq<Penalty>)
      requires ParamsOk(params) && Inv(params, store)
      modifies this`store
      ensures v == if forall e :: e in old(store).active && e.time <= now ==>
                                    Closable(params, old(store), powers, e.id)
                   then Done else Panic
      ensures v == Done ==>
        && Due(old(store), now, Findings(params, old(store), powers), tags)
        && store == Run(params, old(store), SettleEvents(tags))
        && Inv(params, store)
        && store.inactive == (set e | e in old(store).inactive && e.time > now)
        && store.active == (set e | e in old(store).active && e.time > now)
        && store.deposits == old(store).deposits - IdsOf(tags)
      ensures v == Done <==> forall e :: e in old(store).active && e.time <= now ==>
                               e.id in old(store).proposals && Finishable(params, old(store), powers, e.id)
      ensures v == Done ==> AllSettled(params, old(store), store, now, powers)
      ensures v == Done ==> Slashes(old(store), now, powers, penalties)
      ensures v == Done && DistinctSnapshots(old(store)) ==> Once(penalties)
    {
      ghost var before, result := store, Findings(params, store, powers);
      AllFinishable(params, store, now, powers);
      v, tags := DropDue(now, result);
      penalties := [];
      if v != Done {
        return;
      }
      ActiveStay(params, before, now, result, tags);
      NoPenalties(before, powers, tags);
      v, tags, penalties := CloseDue(now, powers, tags, before);
      if v == Done {
        EndOfBlock(params, before, now, powers, tags);
      }
    }
  }

  /** What is written out of a deposit. */
  ghost predicate DepositSays(p: Params, s: State, s': State, id: nat, depositor: Address, amount: nat, now: int,
                              bonded: seq<Address>, v: Verdict)
  {
    && (v == Done <==> Depositable(s, id, depositor, amount) && !Overfills(p, s, id, depositor, amount))
    && (v == Panic <==> Depositable(s, id, depositor, amount) && Overfills(p, s, id, depositor, amount))
    && (v == Done ==>
          && Supported(p, s, s', id, s.proposals[id], depositor, amount, now, bonded)
          && s'.nextId == s.nextId && s'.critical == s.critical)
  }

  lemma DepositWrittenOut(p: Params, s: State, id: nat, depositor: Address, amount: nat, now: int, bonded: seq<Address>)
    ensures var v := DepositVerdict(p, s, id, depositor, amount);
            Inv(p, s) ==>
              DepositSays(p, s, if v == Done then Deposited(p, s, id, depositor, amount, now, bonded) else s, id,
                          depositor, amount, now, bonded, v)
  {
    if Inv(p, s) {
      DepositDoneIff(p, s, id, depositor, amount);
      if DepositVerdict(p, s, id, depositor, amount) == Done {
        DepositedIs(p, s, id, depositor, amount, now, bonded);
      }
    }
  }

  /** Every proposal whose deposit period is over is gone; every one whose vote is over has passed if
      its tally finds so, and is rejected if not; and all others are as they were. */
  ghost predicate AllSettled(p: Params, s: State, s': State, now: int, powers: PowersAt)
  {
    && (forall e :: e in s.inactive && e.time <= now ==> e.id !in s'.proposals)
    && (forall e :: e in s.active && e.time <= now ==>
          && e.id in s.proposals && e.id in s'.proposals
          && s'.proposals[e.id] == s.proposals[e.id].(
               status := if TallyFor(p, s, e.id, powers(e.id)) == Returns(Pass) then Passed else Rejected))
    && (forall id :: id in s.proposals && !Overdue(s.proposals[id], now) ==>
          id in s'.proposals && s'.proposals[id] == s.proposals[id])
    && s'.proposals.Keys <= s.proposals.Keys
  }

  predicate Overdue(proposal: Proposal, now: int)
  {
    || (proposal.status == DepositPeriod && proposal.depositEnd <= now)
    || (proposal.status == VotingPeriod && proposal.votingEnd <= now)
  }

  lemma AllFinishable(p: Params, s: State, now: int, powers: PowersAt)
    requires Inv(p, s)
    ensures (forall e :: e in s.active && e.time <= now ==> Closable(p, s, powers, e.id)) <==>
            (forall e :: e in s.active && e.time <= now ==> e.id in s.proposals && Finishable(p, s, powers, e.id))
  {
    forall e | e in s.active
      ensures e.id in s.proposals && (Closable(p, s, powers, e.id) <==> Finishable(p, s, powers, e.id))
    {
      ClosableIff(p, s, powers, e.id);
    }
  }

  lemma AllSettledIs(p: Params, s: State, s': State, now: int, powers: PowersAt, tags: seq<Tag>)
    requires Inv(p, s) && Due(s, now, Findings(p, s, powers), tags)
    requires s'.proposals - IdsOf(tags) == s.proposals - IdsOf(tags) && forall t :: t in tags ==> Ends(s, s', t)
    ensures AllSettled(p, s, s', now, powers)
  {
    var result := Findings(p, s, powers);
    forall e | e in s.inactive && e.time <= now
      ensures e.id !in s'.proposals
    {
      assert Tag(e.id, None) in tags;
    }
    forall e | e in s.active && e.time <= now
      ensures e.id in s.proposals && e.id in s'.proposals
      ensures s'.proposals[e.id] == s.proposals[e.id].(
                status := if TallyFor(p, s, e.id, powers(e.id)) == Returns(Pass) then Passed else Rejected)
    {
      assert Ends(s, s', Tag(e.id, Some(result(e.id))));
      ClosableIff(p, s, powers, e.id);
    }
    forall id | id in s.proposals && id !in IdsOf(tags)
      ensures id in s'.proposals && s'.proposals[id] == s.proposals[id]
    {
      StillThere(s.proposals, s'.proposals, IdsOf(tags), id);
    }
    forall id | id in IdsOf(tags)
      ensures id in s.proposals && Overdue(s.proposals[id], now)
    {
      TaggedIsDue(p, s, now, result, tags, id);
    }
    forall id | id in s'.proposals && id !in IdsOf(tags)
      ensures id in s.proposals
    {
      assert id in s'.proposals - IdsOf(tags);
    }
  }

  lemma TaggedIsDue(p: Params, s: State, now: int, result: nat -> Result, tags: seq<Tag>, id: nat)
    requires Inv(p, s) && Due(s, now, result, tags) && id in IdsOf(tags)
    ensures id in s.proposals && Overdue(s.proposals[id], now)
  {
    var t :| t in tags && t.id == id;
    assert Settleable(s, t);
    var e := Entry(if t.result == None then s.proposals[id].depositEnd else s.proposals[id].votingEnd, id);
    if t.result == None {
      DueInactive(p, s, now, result, tags, e);
    } else {
      DueActive(p, s, now, result, tags, e);
    }
  }

  /** The penalties are those that closing what is due deserves. */
  ghost predicate Slashes(s: State, now: int, powers: PowersAt, penalties: seq<Penalty>)
  {
    forall x :: x in penalties <==>
                  (exists e :: e in s.active && e.time <= now && e.id == x.id) && Deserved(s, powers, x)
  }

  lemma EndOfBlock(p: Params, s: State, now: int, powers: PowersAt, tags: seq<Tag>)
    requires ParamsOk(p) && Inv(p, s) && Working(s, now, Findings(p, s, powers), tags)
    requires Waiting(s.inactive, now, tags) == {} && Waiting(s.active, now, tags) == {}
    ensures Due(s, now, Findings(p, s, powers), tags)
    ensures var s' := SettleAll(p, s, tags);
            && s' == Run(p, s, SettleEvents(tags))
            && Inv(p, s')
            && s'.inactive == (set e | e in s.inactive && e.time > now)
            && s'.active == (set e | e in s.active && e.time > now)
            && s'.deposits == s.deposits - IdsOf(tags)
            && AllSettled(p, s, s', now, powers)
    ensures Slashes(s, now, powers, AllPenalties(s, powers, tags))
    ensures DistinctSnapshots(s) ==> Once(AllPenalties(s, powers, tags))
  {
    var result := Findings(p, s, powers);
    Worked(p, s, now, result, tags);
    EndBlockIs(p, s, now, result, tags);
    SettleAllRuns(p, s, tags);
    AllSettledIs(p, s, SettleAll(p, s, tags), now, powers, tags);
    SlashesDue(p, s, now, powers, tags);
    if DistinctSnapshots(s) {
      AllPenaltiesOnce(s, powers, tags);
    }
  }

  lemma SlashesDue(p: Params, s: State, now: int, powers: PowersAt, tags: seq<Tag>)
    requires Inv(p, s) && Due(s, now, Findings(p, s, powers), tags)
    ensures Slashes(s, now, powers, AllPenalties(s, powers, tags))
  {
    forall x: Penalty
      ensures x in AllPenalties(s, powers, tags) <==>
              (exists e :: e in s.active && e.time <= now && e.id == x.id) && Deserved(s, powers, x)
    {
      AllPenaltiesAre(s, powers, tags, x);
      ClosesDue(p, s, now, Findings(p, s, powers), tags, x.id);
    }
  }

  lemma ClosesDue(p: Params, s: State, now: int, result: nat -> Result, tags: seq<Tag>, id: nat)
    requires Inv(p, s) && Due(s, now, result, tags)
    ensures Closes(tags, id) <==> exists e :: e in s.active && e.time <= now && e.id == id
  {
    if Closes(tags, id) {
      var t :| t in tags && t.id == id && t.result != None;
      assert Settleable(s, t);
      var e := Entry(s.proposals[id].votingEnd, id);
      assert e in s.active && t == Tag(e.id, Some(result(e.id)));
    }
    if e :| e in s.active && e.time <= now && e.id == id {
      assert Tag(e.id, Some(result(e.id))) in tags;
    }
  }

  lemma ActiveStay(p: Params, s: State, now: int, result: nat -> Result, tags: seq<Tag>)
    requires Inv(p, s) && Working(s, now, result, tags) && forall t :: t in tags ==> t.result == None
    ensures Waiting(s.active, now, tags) == set e | e in s.active && e.time <= now
  {
    forall t | t in tags
      ensures Settleable(s, t)
    {
      assert Timely(s, now, result, t);
    }
  }

  /** A submission without a proposal that has passed its checks. */
  predicate Unmade(s: State, e: Event)
  {
    && e.Submit? && e.form.Basic? && (e.kind.TxTaxUsage? || e.kind.SoftwareUpgrade?)
    && e.admitted && !(e.kind.SoftwareUpgrade? && s.critical.Some?)
  }

  lemma DeliverKeeps(p: Params, s: State, e: Event)
    ensures ParamsOk(p) && Inv(p, s) && Signed(p, e) ==>
      && Inv(p, Next(p, s, e))
      && (e.Submit? ==>
            (SubmitVerdict(p, s, e.form, e.kind, e.proposer, e.initial, e.time, e.admitted) == Panic <==> Unmade(s, e)))
      && (e.Deposit? ==> DepositVerdict(p, s, e.id, e.depositor, e.amount) != Panic)
  {
    if ParamsOk(p) && Inv(p, s) && Signed(p, e) {
      NextKeeps(p, s, e);
      if e.Submit? {
        SubmitPanicsIff(p, s, e.form, e.kind, e.proposer, e.initial, e.time, e.admitted);
      }
      if e.Deposit? {
        DepositNeverPanics(p, s, e.id, e.depositor, e.amount);
      }
    }
  }

  ghost predicate ClosingAt(p: Params, before: State, store: State, now: int, powers: PowersAt,
                            tags: seq<Tag>, due: set<Entry>, penalties: seq<Penalty>)
  {
    && Working(before, now, Findings(p, before, powers), tags)
    && Waiting(before.inactive, now, tags) == {} && due == Waiting(before.active, now, tags)
    && store == SettleAll(p, before, tags)
    && penalties == AllPenalties(before, powers, tags)
  }

  lemma CloseStep(p: Params, before: State, store: State, now: int, powers: PowersAt,
                  tags: seq<Tag>, due: set<Entry>, e: Entry, penalties: seq<Penalty>)
    requires ParamsOk(p) && Inv(p, before) && e in due
    requires ClosingAt(p, before, store, now, powers, tags, due, penalties)
    ensures Inv(p, store) && SameFor(before, store, e.id) && store.proposals[e.id].status == VotingPeriod
    ensures var r := Findings(p, before, powers)(e.id);
            ClosingAt(p, before, Closed(p, store, e.id, r), now, powers, tags + [Tag(e.id, Some(r))], due - {e},
                      penalties + Penalties(e.id, Snapshot(before, e.id), powers(e.id), VotesOn(before, e.id)))
    ensures |due - {e}| < |due|
  {
    var result := Findings(p, before, powers);
    CloseWork(p, before, store, now, result, tags, due, e, result(e.id));
    PenaltiesMore(before, powers, tags, Tag(e.id, Some(result(e.id))));
  }

  /** The part of a step that does not concern the penalties. */
  lemma CloseWork(p: Params, before: State, store: State, now: int, result: nat -> Result, tags: seq<Tag>,
                  due: set<Entry>, e: Entry, r: Result)
    requires ParamsOk(p) && Inv(p, before) && e in due && r == result(e.id)
    requires Working(before, now, result, tags) && due == Waiting(before.active, now, tags)
    requires store == SettleAll(p, before, tags)
    ensures Inv(p, store) && SameFor(before, store, e.id) && store.proposals[e.id].status == VotingPeriod
    ensures var tags' := tags + [Tag(e.id, Some(r))];
            && Working(before, now, result, tags')
            && Waiting(before.inactive, now, tags') <= Waiting(before.inactive, now, tags)
            && due - {e} == Waiting(before.active, now, tags')
            && Closed(p, store, e.id, r) == SettleAll(p, before, tags')
    ensures |due - {e}| < |due|
  {
    WorkOn(p, before, now, result, tags, Tag(e.id, Some(r)), e);
    CloseSame(p, before, store, now, result, tags, e);
    SettleCloses(p, store, e.id, r);
    SmallerSet(due, e);
  }

  lemma SmallerSet(due: set<Entry>, e: Entry)
    requires e in due
    ensures |due - {e}| < |due|
  {
  }

  lemma CloseSame(p: Params, before: State, store: State, now: int, result: nat -> Result, tags: seq<Tag>, e: Entry)
    requires ParamsOk(p) && Inv(p, before) && Working(before, now, result, tags)
    requires e in Waiting(before.active, now, tags) && store == SettleAll(p, before, tags)
    ensures SameFor(before, store, e.id) && store.proposals[e.id].status == VotingPeriod
  {
    WorkSame(p, before, now, result, tags, e.id);
  }

  lemma SettleCloses(p: Params, s: State, id: nat, r: Result)
    requires id in s.proposals && s.proposals[id].status == VotingPeriod
    ensures SettleOne(p, s, Tag(id, Some(r))) == Closed(p, s, id, r)
  {
  }

  /** `amount` can leave the escrow account and be burned. */
  ghost predicate Affords(p: Params, s: State, amount: int)
  {
    amount <= Balance(s.balances, p.escrow) && amount <= s.loosen && s.burned + amount < INT_BOUND
  }

  ghost function Spent(p: Params, s: State, deposits: Deposits, amount: int): State
  {
    s.(deposits := deposits,
       balances := s.balances[p.escrow := Balance(s.balances, p.escrow) - amount],
       loosen := s.loosen - amount,
       burned := s.burned + amount)
  }

  /** `spent` is burned so far, in one or more burns when touched. */
  ghost predicate Burning(p: Params, before: State, now: State, deposits: Deposits, spent: int, touched: bool)
  {
    if touched then now == Spent(p, before, deposits, spent)
    else now == before && spent == 0 && deposits == before.deposits
  }

  lemma BurnLeaves(p: Params, before: State, now: State, deposits: Deposits, spent: int, touched: bool, amount: int)
    requires Burning(p, before, now, deposits, spent, touched) && Affords(p, before, spent + amount)
    ensures now.deposits == deposits && Affords(p, now, amount)
  {
  }

  lemma BurnMore(p: Params, before: State, now: State, deposits: Deposits, spent: int, touched: bool,
                 deposits': Deposits, amount: int)
    requires Burning(p, before, now, deposits, spent, touched)
    ensures now.deposits == deposits
    ensures Spent(p, now, deposits', amount) == Spent(p, before, deposits', spent + amount)
  {
    if touched {
      SpendTwice(p, before, deposits, spent, deposits', amount);
    }
  }

  lemma SpendTwice(p: Params, s: State, deposits: Deposits, spent: int, deposits': Deposits, amount: int)
    ensures Spent(p, Spent(p, s, deposits, spent), deposits', amount) == Spent(p, s, deposits', spent + amount)
  {
    var balance := Balance(s.balances, p.escrow);
    PutTwice(s.balances, p.escrow, balance - spent, balance - (spent + amount));
  }

  lemma PutTwice(balances: Balances, a: Address, x: int, y: int)
    ensures balances[a := x][a := y] == balances[a := y]
  {
  }

  /** The records of one proposal are burned, but for the pending ones. */
  ghost predicate BurningAt(p: Params, before: State, now: State, id: nat, pending: map<Address, nat>, touched: bool)
  {
    && Burning(p, before, now, Leaving(before.deposits, id, pending),
               Sum(Records(before.deposits, id)) - Sum(pending), touched)
    && (if touched then Records(before.deposits, id) != map[] else pending == Records(before.deposits, id))
  }

  lemma BurnStep(p: Params, before: State, now: State, id: nat, pending: map<Address, nat>, touched: bool, a: Address)
    requires Affords(p, before, Sum(Records(before.deposits, id)))
    requires BurningAt(p, before, now, id, pending, touched) && a in pending
    ensures a in Records(now.deposits, id) && Record(now.deposits, id, a) == pending[a]
    ensures Affords(p, now, pending[a]) && |pending - {a}| < |pending|
    ensures BurningAt(p, before, Spent(p, now, Deleted(now.deposits, id, a), pending[a]), id, pending - {a}, true)
  {
    BurnAffords(p, before, now, id, pending, touched, a);
    BurnNext(p, before, now, id, pending, touched, a);
  }

  lemma BurnAffords(p: Params, before: State, now: State, id: nat, pending: map<Address, nat>, touched: bool,
                    a: Address)
    requires Affords(p, before, Sum(Records(before.deposits, id)))
    requires BurningAt(p, before, now, id, pending, touched) && a in pending
    ensures a in Records(now.deposits, id) && Record(now.deposits, id, a) == pending[a]
    ensures Affords(p, now, pending[a]) && |pending - {a}| < |pending|
  {
    SumTakeOne(pending, a);
    AffordsLess(p, before, Sum(Records(before.deposits, id)) - Sum(pending) + pending[a], Sum(pending - {a}));
    BurnLeaves(p, before, now, Leaving(before.deposits, id, pending),
               Sum(Records(before.deposits, id)) - Sum(pending), touched, pending[a]);
  }

  lemma AffordsLess(p: Params, s: State, amount: int, more: nat)
    requires Affords(p, s, amount + more)
    ensures Affords(p, s, amount)
  {
  }

  lemma BurnNext(p: Params, before: State, now: State, id: nat, pending: map<Address, nat>, touched: bool, a: Address)
    requires BurningAt(p, before, now, id, pending, touched) && a in pending
    ensures BurningAt(p, before, Spent(p, now, Deleted(now.deposits, id, a), pending[a]), id, pending - {a}, true)
  {
    var rest, all := pending - {a}, Sum(Records(before.deposits, id));
    SumTakeOne(pending, a);
    LeaveOne(before.deposits, id, pending, a);
    BurningMore(p, before, now, Leaving(before.deposits, id, pending), all - Sum(pending), touched,
                Leaving(before.deposits, id, rest), pending[a], all - Sum(rest));
  }

  lemma BurningMore(p: Params, before: State, now: State, deposits: Deposits, spent: int, touched: bool,
                    deposits': Deposits, amount: int, spent': int)
    requires Burning(p, before, now, deposits, spent, touched) && spent' == spent + amount
    ensures now.deposits == deposits && Burning(p, before, Spent(p, now, deposits', amount), deposits', spent', true)
  {
    BurnMore(p, before, now, deposits, spent, touched, deposits', amount);
  }

  lemma BurnedAll(p: Params, before: State, now: State, id: nat, touched: bool)
    requires BurningAt(p, before, now, id, map[], touched)
    requires id in before.deposits ==> before.deposits[id] != map[]
    ensures now == Burned(p, before, id)
  {
    var none: map<Address, nat> := map[];
    assert Sum(none) == 0;
  }

  ghost predicate TakenSoFar(all: map<Address, nat>, pending: map<Address, nat>, records: map<Address, nat>)
  {
    && records == all - pending.Keys
    && (forall a :: a in pending ==> a in all && pending[a] == all[a])
  }

  lemma TakeMore(all: map<Address, nat>, pending: map<Address, nat>, records: map<Address, nat>, a: Address)
    requires TakenSoFar(all, pending, records) && a in pending
    ensures TakenSoFar(all, pending - {a}, records[a := pending[a]])
  {
  }

  ghost predicate TakingAt(before: State, now: State, id: nat, pending: map<Address, nat>,
                           records: map<Address, nat>, sum: int)
  {
    && TakenSoFar(Records(before.deposits, id), pending, records)
    && sum + Sum(pending) == Sum(Records(before.deposits, id))
    && now == before.(deposits := Leaving(before.deposits, id, pending))
  }

  lemma TakeStep(before: State, now: State, id: nat, pending: map<Address, nat>, records: map<Address, nat>,
                 sum: int, a: Address)
    requires TakingAt(before, now, id, pending, records, sum) && a in pending
    ensures TakingAt(before, now.(deposits := Deleted(now.deposits, id, a)), id, pending - {a},
                     records[a := pending[a]], sum + pending[a])
    ensures sum + pending[a] <= Sum(Records(before.deposits, id)) && |pending - {a}| < |pending|
  {
    SumTakeOne(pending, a);
    LeaveOne(before.deposits, id, pending, a);
    TakeMore(Records(before.deposits, id), pending, records, a);
  }

  lemma TakenAll(before: State, now: State, id: nat, records: map<Address, nat>, sum: int)
    requires TakingAt(before, now, id, map[], records, sum)
    ensures records == Records(before.deposits, id) && sum == Sum(records)
    ensures now == before.(deposits := before.deposits - {id})
  {
    var none: map<Address, nat> := map[];
    assert Sum(none) == 0;
    assert records == Records(before.deposits, id);
  }

  /** Escrow after it paid some gains, one transfer each. */
  ghost function PaidOut(balances: Balances, escrow: Address, gains: map<Address, nat>): Balances
  {
    if gains == map[] then balances
    else Credited(balances, gains)[escrow := Balance(balances, escrow) - Sum(gains)]
  }

  lemma PayOne(balances: Balances, escrow: Address, gains: map<Address, nat>, a: Address, gain: nat)
    requires escrow !in gains && a !in gains && a != escrow
    ensures Moved(PaidOut(balances, escrow, gains), escrow, a, gain) == PaidOut(balances, escrow, gains[a := gain])
    ensures Sum(gains[a := gain]) == Sum(gains) + gain
    ensures Balance(PaidOut(balances, escrow, gains), escrow) == Balance(balances, escrow) - Sum(gains)
  {
    SumUpdate(gains, a, gain);
  }

  /** Escrow has all the gains. */
  ghost predicate Payable(p: Params, s: State, gains: map<Address, nat>)
  {
    && p.escrow !in gains
    && Sum(gains) <= Balance(s.balances, p.escrow)
    && Backed(s.balances, s.loosen, s.burned)
  }

  function Only(refunds: map<Address, nat>, pending: map<Address, nat>): map<Address, nat>
  {
    map a | a in refunds && a in pending :: refunds[a]
  }

  lemma OnlyLess(refunds: map<Address, nat>, pending: map<Address, nat>, a: Address)
    requires a in pending && a in refunds
    ensures Only(refunds, pending - {a}) == Only(refunds, pending) - {a}
    ensures refunds - (pending - {a}).Keys == (refunds - pending.Keys)[a := refunds[a]]
    ensures |pending - {a}| < |pending|
  {
    Smaller(pending, a);
  }

  /** The deposits in `pending` are still to be refunded. */
  ghost predicate PayingAt(p: Params, before: State, now: State, refundOf: nat -> Outcome<nat>,
                           refunds: map<Address, nat>, pending: map<Address, nat>, refunded: int)
  {
    && pending.Keys <= refunds.Keys
    && Owed(pending, refundOf, Only(refunds, pending))
    && refunded == Sum(refunds - pending.Keys)
    && refunded + Sum(Only(refunds, pending)) == Sum(refunds)
    && now == before.(balances := PaidOut(before.balances, p.escrow, refunds - pending.Keys))
    && Backed(now.balances, now.loosen, now.burned)
  }

  lemma PayNone(p: Params, s: State, records: map<Address, nat>, refundOf: nat -> Outcome<nat>,
                refunds: map<Address, nat>)
    requires Payable(p, s, refunds) && Owed(records, refundOf, refunds)
    ensures PayingAt(p, s, s, refundOf, refunds, records, 0)
  {
    assert refunds - records.Keys == map[];
    assert Only(refunds, records) == refunds;
  }

  lemma PayStep(p: Params, before: State, now: State, refundOf: nat -> Outcome<nat>,
                refunds: map<Address, nat>, pending: map<Address, nat>, refunded: int, a: Address)
    requires Payable(p, before, refunds) && a in pending && refundOf(pending[a]).Returns?
    requires PayingAt(p, before, now, refundOf, refunds, pending, refunded)
    ensures refundOf(pending[a]) == Returns(refunds[a])
    ensures var after := Moved(now.balances, p.escrow, a, refunds[a]);
            && refunds[a] <= Balance(now.balances, p.escrow) && Balance(after, a) < INT_BOUND
            && refunded + refunds[a] < INT_BOUND
            && PayingAt(p, before, now.(balances := after), refundOf, refunds, pending - {a}, refunded + refunds[a])
    ensures |pending - {a}| < |pending|
  {
    var gain := refunds[a];
    OnlyLess(refunds, pending, a);
    SumTakeOne(Only(refunds, pending), a);
    PayOne(before.balances, p.escrow, refunds - pending.Keys, a, gain);
    MovedKeeps(now.balances, now.loosen, now.burned, p.escrow, a, gain);
    BackedBounds(Moved(now.balances, p.escrow, a, gain), now.loosen, now.burned, a);
    BackedBounds(before.balances, before.loosen, before.burned, p.escrow);
  }

  lemma PaidAll(p: Params, before: State, now: State, refundOf: nat -> Outcome<nat>,
                refunds: map<Address, nat>, pending: map<Address, nat>, refunded: int)
    requires PayingAt(p, before, now, refundOf, refunds, pending, refunded) && pending == map[]
    ensures refunded == Sum(refunds) && now == before.(balances := PaidOut(before.balances, p.escrow, refunds))
  {
    assert refunds - pending.Keys == refunds;
  }

  lemma ReturnOne(pending: map<Address, nat>, refundOf: nat -> Outcome<nat>, a: Address)
    requires a in pending
    ensures AllReturn(pending, refundOf) <==> refundOf(pending[a]).Returns? && AllReturn(pending - {a}, refundOf)
    ensures |pending - {a}| < |pending|
  {
    Smaller(pending, a);
    var rest := pending - {a};
    assert forall k :: k in rest ==> k in pending && rest[k] == pending[k];
    assert forall k :: k in pending ==> k == a || (k in rest && rest[k] == pending[k]);
  }

  /** Escrow has the proposal's deposits. */
  ghost predicate Solvent(p: Params, s: State, id: nat)
  {
    && (id in s.deposits ==> s.deposits[id] != map[] && p.escrow !in s.deposits[id])
    && Backed(s.balances, s.loosen, s.burned)
    && Affords(p, s, Sum(Records(s.deposits, id)))
  }

  ghost predicate CanRefund(p: Params, s: State, id: nat)
    requires id in s.proposals
  {
    RefundsReturn(Records(s.deposits, id), ProcedureOf(p, s.proposals[id].kind).minDeposit)
  }

  /** A proposal with a rate has deposits, and its refunds do not exceed them. */
  lemma RatedRefunds(p: Params, s: State, id: nat)
    requires id in s.proposals && Solvent(p, s, id) && RateOf(p, s, id).Returns?
    ensures var refunds := RefundsFor(p, s, id);
            && Records(s.deposits, id) != map[]
            && Owed(Records(s.deposits, id), Refunder(RateOf(p, s, id).value), refunds)
            && Payable(p, s.(deposits := s.deposits - {id}), refunds)
            && 0 <= Sum(refunds) <= Sum(Records(s.deposits, id))
  {
    var records := Records(s.deposits, id);
    var none: map<Address, nat> := map[];
    assert Sum(none) == 0;
    SumNonNegative(records);
    RateIsNatural(ProcedureOf(p, s.proposals[id].kind).minDeposit, Sum(records));
    RefundsAtMost(records, RateOf(p, s, id).value);
  }

  lemma OutPaidIs(p: Params, s: State, refunds: map<Address, nat>, sum: int)
    requires refunds != map[] && 0 <= Sum(refunds) <= sum && Affords(p, s, sum)
    ensures var paid := s.(balances := PaidOut(s.balances, p.escrow, refunds));
            && Affords(p, paid, sum - Sum(refunds))
            && Spent(p, paid, paid.deposits, sum - Sum(refunds)) == OutPaid(p, s, refunds, sum)
  {
    LastBurn(s.balances, p.escrow, refunds, sum - Sum(refunds));
  }

  lemma LastBurn(balances: Balances, escrow: Address, gains: map<Address, nat>, burn: int)
    requires gains != map[]
    ensures var paid := PaidOut(balances, escrow, gains);
            && Balance(paid, escrow) == Balance(balances, escrow) - Sum(gains)
            && paid[escrow := Balance(paid, escrow) - burn] ==
               Credited(balances, gains)[escrow := Balance(balances, escrow) - (Sum(gains) + burn)]
  {
  }

  lemma CanSettle(p: Params, s: State, id: nat)
    requires Core(p, s)
    ensures Affords(p, s, Sum(Records(s.deposits, id)))
    ensures id in s.deposits ==> s.deposits[id] != map[] && p.escrow !in s.deposits[id]
  {
    HeldBounds(s.deposits, id);
    BackedBounds(s.balances, s.loosen, s.burned, p.escrow);
  }
}
