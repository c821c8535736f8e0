/** The life of a proposal in every run of governance: when it was made, when its vote began, how it
    ended, and that this is for good. */
module GovRuns {
  import opened Bytes
  import opened Chain
  import opened GovSpec
  import opened GovSteps
  import opened GovFacts

  ghost predicate AllSigned(p: Params, events: seq<Event>)
  {
    forall i :: 0 <= i < |events| ==> Signed(p, events[i])
  }

  predicate Is(s: State, id: nat, status: Status)
  {
    id in s.proposals && s.proposals[id].status == status
  }

  predicate Gone(s: State, id: nat)
  {
    id < s.nextId && id !in s.proposals
  }

  // ---- one step ----

  /** What a step leaves of the proposals and the snapshots. */
  ghost predicate Stepped(p: Params, s: State, e: Event, t: State)
  {
    match e
    case Submit(form, kind, _, initial, time, bonded, _) =>
      if t.nextId == s.nextId then Unmoved(s, t)
      else
        var proposal := Proposal(form, kind, DepositPeriod, 0, time + TermsOf(p, kind).depositPeriod, ZERO_TIME);
        t.nextId == s.nextId + 1 && Advanced(p, s, t, s.nextId, proposal, initial, time, bonded)
    case Deposit(id, _, amount, time, bonded) =>
      || Unmoved(s, t)
      || (t.nextId == s.nextId && Is(s, id, DepositPeriod)
          && Advanced(p, s, t, id, s.proposals[id], amount, time, bonded))
    case Settle(tag) =>
      t.nextId == s.nextId &&
      if tag.result == None && Is(s, tag.id, DepositPeriod) then
        t.proposals == s.proposals - {tag.id} && t.snapshots == s.snapshots
      else if tag.result != None && Is(s, tag.id, VotingPeriod) then
        && t.proposals == s.proposals[tag.id := Verdicted(s.proposals[tag.id], tag.result.value)]
        && t.snapshots == s.snapshots - {tag.id}
      else Unmoved(s, t)
    case _ => Unmoved(s, t)
  }

  predicate Unmoved(s: State, t: State)
  {
    t.nextId == s.nextId && t.proposals == s.proposals && t.snapshots == s.snapshots
  }

  lemma SettleSteps(p: Params, s: State, tag: Tag)
    requires ParamsOk(p) && Inv(p, s)
    ensures Stepped(p, s, Settle(tag), SettleOne(p, s, tag))
  {
    if tag.result == None && Is(s, tag.id, DepositPeriod) {
      DroppedIs(p, s, tag.id);
    } else if tag.result != None && Is(s, tag.id, VotingPeriod) {
      ClosedIs(p, s, tag.id, tag.result.value);
    }
  }

  lemma SubmitSteps(p: Params, s: State, e: Event)
    requires e.Submit?
    ensures Stepped(p, s, e, Next(p, s, e))
  {
    if SubmitVerdict(p, s, e.form, e.kind, e.proposer, e.initial, e.time, e.admitted) == Done {
      SubmittedIs(p, s, e.form, e.kind, e.proposer, e.initial, e.time, e.bonded);
    }
  }

  lemma DepositSteps(p: Params, s: State, e: Event)
    requires Inv(p, s) && e.Deposit?
    ensures Stepped(p, s, e, Next(p, s, e))
  {
    if DepositVerdict(p, s, e.id, e.depositor, e.amount) == Done {
      DepositedIs(p, s, e.id, e.depositor, e.amount, e.time, e.bonded);
    }
  }

  lemma NextSteps(p: Params, s: State, e: Event)
    requires ParamsOk(p) && Inv(p, s)
    ensures Stepped(p, s, e, Next(p, s, e))
  {
    match e
    case Submit(_, _, _, _, _, _, _) => SubmitSteps(p, s, e);
    case Deposit(_, _, _, _, _) => DepositSteps(p, s, e);
    case Settle(tag) => SettleSteps(p, s, tag);
    case _ =>
  }

  /** A proposal passes or is rejected in a step that closes it so, and is gone in one that drops it;
      and there is no other way, and no way back. */
  lemma FateStep(p: Params, s: State, e: Event, id: nat, t: State)
    requires Stepped(p, s, e, t) && Numbered(s.proposals, s.nextId)
    ensures Is(t, id, Passed) <==>
              Is(s, id, Passed) || (e == Settle(Tag(id, Some(Pass))) && Is(s, id, VotingPeriod))
    ensures Is(t, id, Rejected) <==>
              || Is(s, id, Rejected)
              || (e in {Settle(Tag(id, Some(Reject))), Settle(Tag(id, Some(RejectVeto)))} && Is(s, id, VotingPeriod))
    ensures Gone(t, id) <==> Gone(s, id) || (e == Settle(Tag(id, None)) && Is(s, id, DepositPeriod))
  {
  }

  // ---- runs ----

  /** Step k of a run closes the proposal with a result while it is under vote, or drops it in its
      deposit period. */
  ghost predicate SettledAt(p: Params, s: State, events: seq<Event>, k: int, id: nat, result: Option<Result>)
  {
    && 0 <= k < |events| && events[k] == Settle(Tag(id, result))
    && Is(Run(p, s, events[..k]), id, if result == None then DepositPeriod else VotingPeriod)
  }

  ghost predicate SettledIn(p: Params, s: State, events: seq<Event>, id: nat, result: Option<Result>)
  {
    exists k :: SettledAt(p, s, events, k, id, result)
  }

  lemma SettledInMore(p: Params, s: State, events: seq<Event>, id: nat, result: Option<Result>)
    requires events != []
    ensures var n := |events| - 1;
            SettledIn(p, s, events, id, result) <==>
              SettledIn(p, s, events[..n], id, result) || SettledAt(p, s, events, n, id, result)
  {
    var n := |events| - 1;
    forall k | 0 <= k < n
      ensures SettledAt(p, s, events[..n], k, id, result) <==> SettledAt(p, s, events, k, id, result)
    {
      assert events[..n][..k] == events[..k];
    }
    if SettledIn(p, s, events[..n], id, result) {
      var k :| SettledAt(p, s, events[..n], k, id, result);
      assert SettledAt(p, s, events, k, id, result);
    }
    if SettledIn(p, s, events, id, result) && !SettledAt(p, s, events, n, id, result) {
      var k :| SettledAt(p, s, events, k, id, result);
      assert SettledAt(p, s, events[..n], k, id, result);
    }
  }

  /** In every run a proposal has passed exactly if a step closed it with Pass, is rejected exactly if
      one closed it with another result, and is gone exactly if one dropped it; before that it was
      under vote, or in its deposit period. What has passed, is rejected or gone stays so. */
  lemma {:induction false} RunFates(p: Params, s: State, events: seq<Event>, id: nat)
    requires ParamsOk(p) && Inv(p, s) && AllSigned(p, events)
    ensures var t := Run(p, s, events);
            && (Is(t, id, Passed) <==> Is(s, id, Passed) || SettledIn(p, s, events, id, Some(Pass)))
            && (Is(t, id, Rejected) <==>
                  || Is(s, id, Rejected)
                  || SettledIn(p, s, events, id, Some(Reject)) || SettledIn(p, s, events, id, Some(RejectVeto)))
            && (Gone(t, id) <==> Gone(s, id) || SettledIn(p, s, events, id, None))
  {
    if events != [] {
      var n := |events| - 1;
      var init := events[..n];
      RunFates(p, s, init, id);
      LastStep(p, s, events, id);
      SettledInMore(p, s, events, id, None);
      SettledInMore(p, s, events, id, Some(Pass));
      SettledInMore(p, s, events, id, Some(Reject));
      SettledInMore(p, s, events, id, Some(RejectVeto));
    }
  }

  lemma LastStep(p: Params, s: State, events: seq<Event>, id: nat)
    requires ParamsOk(p) && Inv(p, s) && AllSigned(p, events) && events != []
    ensures var n := |events| - 1;
            var x, t := Run(p, s, events[..n]), Run(p, s, events);
            && (Is(t, id, Passed) <==> Is(x, id, Passed) || SettledAt(p, s, events, n, id, Some(Pass)))
            && (Is(t, id, Rejected) <==>
                  || Is(x, id, Rejected)
                  || SettledAt(p, s, events, n, id, Some(Reject)) || SettledAt(p, s, events, n, id, Some(RejectVeto)))
            && (Gone(t, id) <==> Gone(x, id) || SettledAt(p, s, events, n, id, None))
  {
    var n := |events| - 1;
    var x := Run(p, s, events[..n]);
    RunKeeps(p, s, events[..n]);
    NextSteps(p, x, events[n]);
    FateStep(p, x, events[n], id, Next(p, x, events[n]));
  }

  // ---- how it began ----

  /** A step makes this proposal. */
  ghost predicate Made(p: Params, s: State, e: Event, id: nat, proposal: Proposal)
  {
    && e.Submit? && id == s.nextId && proposal.form == e.form && proposal.kind == e.kind
    && proposal.depositEnd == e.time + TermsOf(p, e.kind).depositPeriod
  }

  /** It brings it under vote: for the voting period from its time, by the validators bonded then. */
  ghost predicate Begun(p: Params, s: State, e: Event, t: State, id: nat, votingEnd: int, voters: seq<Address>)
  {
    && (e.Submit? || (e.Deposit? && e.id == id)) && !Is(s, id, VotingPeriod) && Is(t, id, VotingPeriod)
    && votingEnd == e.time + TermsOf(p, t.proposals[id].kind).votingPeriod && voters == e.bonded
  }

  /** A proposal in its deposit period has not got the minimal deposit. */
  ghost predicate Waits(p: Params, proposal: Proposal)
  {
    proposal.status == DepositPeriod ==> proposal.totalDeposit < TermsOf(p, proposal.kind).minDeposit
  }

  /** The proposal is made in this step, or keeps its form, kind and deposit end. */
  ghost predicate Stays(p: Params, s: State, e: Event, id: nat, proposal: Proposal)
  {
    if id !in s.proposals then Made(p, s, e, id, proposal)
    else
      var before := s.proposals[id];
      proposal.form == before.form && proposal.kind == before.kind && proposal.depositEnd == before.depositEnd
  }

  /** Its vote begins in this step, or has begun before with the same end and voters. */
  ghost predicate VoteStays(p: Params, s: State, e: Event, t: State, id: nat)
    requires id in t.proposals
  {
    var proposal := t.proposals[id];
    || (id in t.snapshots && Begun(p, s, e, t, id, proposal.votingEnd, t.snapshots[id]))
    || (&& id in s.proposals && s.proposals[id].status != DepositPeriod
        && proposal.votingEnd == s.proposals[id].votingEnd
        && (proposal.status == VotingPeriod ==> s.proposals[id].status == VotingPeriod)
        && (id in t.snapshots ==> id in s.snapshots && t.snapshots[id] == s.snapshots[id]))
  }

  lemma StaysStep(p: Params, s: State, e: Event, t: State, id: nat)
    requires Stepped(p, s, e, t) && Numbered(s.proposals, s.nextId) && id in t.proposals
    ensures Stays(p, s, e, id, t.proposals[id])
  {
  }

  lemma VoteBegins(p: Params, s: State, e: Event, t: State, id: nat)
    requires Stepped(p, s, e, t) && Numbered(s.proposals, s.nextId) && id in t.proposals
    ensures t.proposals[id].status != DepositPeriod ==> VoteStays(p, s, e, t, id)
  {
  }

  lemma WaitsStep(p: Params, s: State, e: Event, t: State, id: nat)
    requires Stepped(p, s, e, t) && Numbered(s.proposals, s.nextId) && id in t.proposals
    ensures (id in s.proposals ==> Waits(p, s.proposals[id])) ==> Waits(p, t.proposals[id])
  {
  }

  ghost predicate MadeIn(p: Params, s: State, events: seq<Event>, id: nat, proposal: Proposal)
  {
    exists k :: 0 <= k < |events| && Made(p, Run(p, s, events[..k]), events[k], id, proposal)
  }

  ghost predicate BegunAt(p: Params, s: State, events: seq<Event>, k: int, id: nat, votingEnd: int,
                          voters: seq<Address>)
  {
    && 0 <= k < |events|
    && Begun(p, Run(p, s, events[..k]), events[k], Run(p, s, events[..k + 1]), id, votingEnd, voters)
  }

  /** A vote with this end began in the run; while it is on, its voters are those bonded then. */
  ghost predicate BegunIn(p: Params, s: State, events: seq<Event>, id: nat, votingEnd: int,
                          snapshots: map<nat, seq<Address>>)
  {
    exists k, voters :: BegunAt(p, s, events, k, id, votingEnd, voters) && (id in snapshots ==> voters == snapshots[id])
  }

  lemma MadeInMore(p: Params, s: State, events: seq<Event>, id: nat, before: Proposal, proposal: Proposal)
    requires events != [] && MadeIn(p, s, events[..|events| - 1], id, before)
    requires proposal.form == before.form && proposal.kind == before.kind && proposal.depositEnd == before.depositEnd
    ensures MadeIn(p, s, events, id, proposal)
  {
    var init := events[..|events| - 1];
    var k :| 0 <= k < |init| && Made(p, Run(p, s, init[..k]), init[k], id, before);
    assert init[..k] == events[..k];
    assert Made(p, Run(p, s, events[..k]), events[k], id, proposal);
  }

  lemma BegunInMore(p: Params, s: State, events: seq<Event>, id: nat, votingEnd: int,
                    snapshots: map<nat, seq<Address>>, after: map<nat, seq<Address>>)
    requires events != [] && BegunIn(p, s, events[..|events| - 1], id, votingEnd, snapshots)
    requires id in after ==> id in snapshots && after[id] == snapshots[id]
    ensures BegunIn(p, s, events, id, votingEnd, after)
  {
    var init := events[..|events| - 1];
    var k, voters :| BegunAt(p, s, init, k, id, votingEnd, voters) && (id in snapshots ==> voters == snapshots[id]);
    assert init[..k] == events[..k] && init[..k + 1] == events[..k + 1];
    assert BegunAt(p, s, events, k, id, votingEnd, voters);
  }

  /** In every run from genesis a proposal's deposit period ends its kind's deposit period after its
      submission, and its vote the voting period after it began; its voters are those bonded then.
      And as long as it is in the deposit period, it has not got the minimal deposit. */
  lemma {:induction false} RunBegins(p: Params, s: State, events: seq<Event>, id: nat)
    requires ParamsOk(p) && Inv(p, s) && AllSigned(p, events) && s.proposals == map[]
    requires id in Run(p, s, events).proposals
    ensures var t := Run(p, s, events);
            && MadeIn(p, s, events, id, t.proposals[id]) && Waits(p, t.proposals[id])
            && (t.proposals[id].status != DepositPeriod ==>
                  BegunIn(p, s, events, id, t.proposals[id].votingEnd, t.snapshots))
  {
    var n := |events| - 1;
    var init, e := events[..n], events[n];
    var x := Run(p, s, init);
    var t := Next(p, x, e);
    RunKeeps(p, s, init);
    NextSteps(p, x, e);
    StaysStep(p, x, e, t, id);
    VoteBegins(p, x, e, t, id);
    WaitsStep(p, x, e, t, id);
    assert events[..n + 1] == events;
    if id in x.proposals {
      RunBegins(p, s, init, id);
      MadeInMore(p, s, events, id, x.proposals[id], t.proposals[id]);
    } else {
      assert Made(p, Run(p, s, events[..n]), events[n], id, t.proposals[id]);
    }
    if t.proposals[id].status != DepositPeriod {
      if id in t.snapshots && Begun(p, x, e, t, id, t.proposals[id].votingEnd, t.snapshots[id]) {
        assert BegunAt(p, s, events, n, id, t.proposals[id].votingEnd, t.snapshots[id]);
      } else {
        BegunInMore(p, s, events, id, t.proposals[id].votingEnd, x.snapshots, t.snapshots);
      }
    }
  }
}
