/** Closing a proposal: what its tally finds, whether it can be executed, and who is slashed for
    not voting. `powers` are the bonded validators' powers at the tally of each proposal: closing
    one slashes validators, so they differ from one to the next. */
module GovClosing {
  import opened Bytes
  import opened Chain
  import opened Sums
  import opened Decimals
  import opened GovSpec
  import opened GovSteps
  import opened GovFacts
  import Tally

  type PowersAt = nat -> Tally.Powers

  // ---- the tally ----

  function VotesOn(s: State, id: nat): Tally.Votes
  {
    if id in s.votes then s.votes[id] else map[]
  }

  ghost predicate Countable(powers: Tally.Powers)
  {
    Sum(powers) < DEC_BOUND
  }

  ghost function Finding(p: Params, s: State, id: nat, powers: Tally.Powers): Outcome<Result>
    requires id in s.proposals
  {
    Tally.TallyOf(ProcedureOf(p, s.proposals[id].kind).tallying, powers, VotesOn(s, id))
  }

  /** What the tally finds for every proposal. */
  ghost function Findings(p: Params, s: State, powers: PowersAt): nat -> Result
  {
    id => if id in s.proposals && Finding(p, s, id, powers(id)).Returns?
          then Finding(p, s, id, powers(id)).value else Reject
  }

  // ---- executing ----

  /** Execute asserts, by the kind, of which type a proposal is; its message decided that. */
  predicate Executable(form: Form, kind: Kind)
  {
    match kind
    case ParameterChange => form.Basic?
    case SystemHalt => true
    case TxTaxUsage => form.Usage?
    case SoftwareUpgrade => form.Upgrade?
  }

  // ---- slashing ----

  /** A call of Slash: for a proposal, a validator with its rounded power. */
  datatype Penalty = Penalty(id: nat, validator: Address, power: int)

  function Snapshot(s: State, id: nat): seq<Address>
  {
    if id in s.snapshots then s.snapshots[id] else []
  }

  /** Bonded, and without a vote. */
  predicate Missed(powers: Tally.Powers, votes: Tally.Votes, a: Address)
  {
    a in powers && a !in votes
  }

  /** RoundInt64 returns. */
  predicate RoundsToInt64(d: int)
  {
    -(INT64_BOUND as int) <= Rounded(d) < INT64_BOUND
  }

  predicate Punishable(snapshot: seq<Address>, powers: Tally.Powers, votes: Tally.Votes)
  {
    forall i :: 0 <= i < |snapshot| && Missed(powers, votes, snapshot[i]) ==> RoundsToInt64(powers[snapshot[i]])
  }

  function Penalties(id: nat, snapshot: seq<Address>, powers: Tally.Powers, votes: Tally.Votes): seq<Penalty>
  {
    if snapshot == [] then []
    else
      var a := snapshot[|snapshot| - 1];
      Penalties(id, snapshot[..|snapshot| - 1], powers, votes) +
      (if Missed(powers, votes, a) then [Penalty(id, a, Rounded(powers[a]))] else [])
  }

  /** The loop over the validators that were bonded when the vote began. */
  method SlashAbsent(id: nat, snapshot: seq<Address>, powers: Tally.Powers, voters: set<Address>,
                     ghost votes: Tally.Votes)
    returns (v: Verdict, penalties: seq<Penalty>)
    requires voters == Tally.Voters(powers, votes)
    ensures v == if Punishable(snapshot, powers, votes) then Done else Panic
    ensures v == Done ==> penalties == Penalties(id, snapshot, powers, votes)
  {
    penalties := [];
    for i := 0 to |snapshot|
      invariant Punishable(snapshot[..i], powers, votes)
      invariant penalties == Penalties(id, snapshot[..i], powers, votes)
    {
      assert snapshot[..i + 1][..i] == snapshot[..i];
      var a := snapshot[i];
      if a !in voters && a in powers {
        if !RoundsToInt64(powers[a]) {
          return Panic, penalties;
        }
        penalties := penalties + [Penalty(id, a, Rounded(powers[a]))];
      }
    }
    assert snapshot[..|snapshot|] == snapshot;
    v := Done;
  }

  /** Exactly the bonded validators of the snapshot that did not vote are slashed. */
  lemma {:induction false} PenaltiesAre(id: nat, snapshot: seq<Address>, powers: Tally.Powers, votes: Tally.Votes,
                                        x: Penalty)
    ensures x in Penalties(id, snapshot, powers, votes) <==>
            && x.id == id && x.validator in snapshot && Missed(powers, votes, x.validator)
            && x.power == Rounded(powers[x.validator])
  {
    if snapshot != [] {
      var init := snapshot[..|snapshot| - 1];
      PenaltiesAre(id, init, powers, votes, x);
      assert snapshot == init + [snapshot[|snapshot| - 1]];
    }
  }

  /** No validator twice. */
  ghost predicate Once(penalties: seq<Penalty>)
  {
    forall i, j :: 0 <= i < j < |penalties| ==>
                     penalties[i].id != penalties[j].id || penalties[i].validator != penalties[j].validator
  }

  lemma {:induction false} PenaltiesOnce(id: nat, snapshot: seq<Address>, powers: Tally.Powers, votes: Tally.Votes)
    requires Distinct(snapshot)
    ensures Once(Penalties(id, snapshot, powers, votes))
  {
    if snapshot != [] {
      var init, a := snapshot[..|snapshot| - 1], snapshot[|snapshot| - 1];
      PenaltiesOnce(id, init, powers, votes);
      var earlier := Penalties(id, init, powers, votes);
      forall i | 0 <= i < |earlier|
        ensures earlier[i].validator != a
      {
        PenaltiesAre(id, init, powers, votes, earlier[i]);
      }
    }
  }

  // ---- all that are closed in a block ----

  ghost function PenaltiesFor(s: State, powers: PowersAt, t: Tag): seq<Penalty>
  {
    if t.result == None then [] else Penalties(t.id, Snapshot(s, t.id), powers(t.id), VotesOn(s, t.id))
  }

  ghost function AllPenalties(s: State, powers: PowersAt, tags: seq<Tag>): seq<Penalty>
  {
    if tags == [] then []
    else AllPenalties(s, powers, tags[..|tags| - 1]) + PenaltiesFor(s, powers, tags[|tags| - 1])
  }

  lemma PenaltiesMore(s: State, powers: PowersAt, tags: seq<Tag>, t: Tag)
    ensures AllPenalties(s, powers, tags + [t]) == AllPenalties(s, powers, tags) + PenaltiesFor(s, powers, t)
  {
    assert (tags + [t])[..|tags|] == tags;
  }

  lemma {:induction false} NoPenalties(s: State, powers: PowersAt, tags: seq<Tag>)
    requires forall t :: t in tags ==> t.result == None
    ensures AllPenalties(s, powers, tags) == []
  {
    if tags != [] {
      NoPenalties(s, powers, tags[..|tags| - 1]);
    }
  }

  /** A bonded validator of a proposal's snapshot that did not vote on it, and its rounded power. */
  ghost predicate Deserved(s: State, powers: PowersAt, x: Penalty)
  {
    && x.validator in Snapshot(s, x.id) && Missed(powers(x.id), VotesOn(s, x.id), x.validator)
    && x.power == Rounded(powers(x.id)[x.validator])
  }

  ghost predicate Closes(tags: seq<Tag>, id: nat)
  {
    exists t :: t in tags && t.id == id && t.result != None
  }

  lemma {:induction false} AllPenaltiesAre(s: State, powers: PowersAt, tags: seq<Tag>, x: Penalty)
    ensures x in AllPenalties(s, powers, tags) <==> Closes(tags, x.id) && Deserved(s, powers, x)
  {
    if tags != [] {
      var init, t := tags[..|tags| - 1], tags[|tags| - 1];
      assert tags == init + [t];
      AllPenaltiesAre(s, powers, init, x);
      PenaltiesAre(t.id, Snapshot(s, t.id), powers(t.id), VotesOn(s, t.id), x);
      ClosesMore(init, t, x.id);
    }
  }

  lemma ClosesMore(init: seq<Tag>, t: Tag, id: nat)
    ensures Closes(init + [t], id) <==> Closes(init, id) || (t.id == id && t.result != None)
  {
    if Closes(init, id) {
      var u :| u in init && u.id == id && u.result != None;
      assert u in init + [t];
    }
    if t.id == id && t.result != None {
      assert t in init + [t];
    }
  }

  /** Nobody is slashed twice for one proposal. */
  lemma {:induction false} AllPenaltiesOnce(s: State, powers: PowersAt, tags: seq<Tag>)
    requires forall i, j :: 0 <= i < j < |tags| ==> tags[i].id != tags[j].id
    requires DistinctSnapshots(s)
    ensures Once(AllPenalties(s, powers, tags))
  {
    if tags != [] {
      var init, t := tags[..|tags| - 1], tags[|tags| - 1];
      AllPenaltiesOnce(s, powers, init);
      PenaltiesOnce(t.id, Snapshot(s, t.id), powers(t.id), VotesOn(s, t.id));
      OtherIds(s, powers, init, t);
    }
  }

  lemma OtherIds(s: State, powers: PowersAt, init: seq<Tag>, t: Tag)
    requires forall i :: 0 <= i < |init| ==> init[i].id != t.id
    ensures forall x :: x in AllPenalties(s, powers, init) ==> x.id != t.id
    ensures forall x :: x in PenaltiesFor(s, powers, t) ==> x.id == t.id
  {
    forall x | x in AllPenalties(s, powers, init)
      ensures x.id != t.id
    {
      AllPenaltiesAre(s, powers, init, x);
    }
    forall x | x in PenaltiesFor(s, powers, t)
      ensures x.id == t.id
    {
      PenaltiesAre(t.id, Snapshot(s, t.id), powers(t.id), VotesOn(s, t.id), x);
    }
  }

  // ---- what can be closed ----

  /** Nothing panics in closing a proposal but its refund: the powers can be added up, what passes
      can be executed, and the power of nobody who is slashed exceeds an int64. */
  ghost predicate Closable(p: Params, s: State, powers: PowersAt, id: nat)
  {
    && Countable(powers(id))
    && (id in s.proposals && Findings(p, s, powers)(id) == Pass ==>
          Executable(s.proposals[id].form, s.proposals[id].kind))
    && Punishable(Snapshot(s, id), powers(id), VotesOn(s, id))
  }

  /** What the tally finds, by the thresholds of the proposal's kind. */
  ghost function TallyFor(p: Params, s: State, id: nat, powers: Tally.Powers): Outcome<Result>
    requires id in s.proposals
  {
    Tally.TallyOf(TermsOf(p, s.proposals[id].kind).tallying, powers, VotesOn(s, id))
  }

  /** The same, written out. */
  ghost predicate Finishable(p: Params, s: State, powers: PowersAt, id: nat)
    requires id in s.proposals
  {
    && Sum(powers(id)) < DEC_BOUND
    && (TallyFor(p, s, id, powers(id)) == Returns(Pass) ==> Fulfillable(s.proposals[id].form, s.proposals[id].kind))
    && forall a :: a in Snapshot(s, id) && a in powers(id) && a !in VotesOn(s, id) ==>
         -0x8000_0000_0000_0000 <= Rounded(powers(id)[a]) < 0x8000_0000_0000_0000
  }

  lemma ClosableIff(p: Params, s: State, powers: PowersAt, id: nat)
    requires id in s.proposals
    ensures Closable(p, s, powers, id) <==> Finishable(p, s, powers, id)
    ensures Findings(p, s, powers)(id) == Pass <==> TallyFor(p, s, id, powers(id)) == Returns(Pass)
  {
    TermsAre(p, s.proposals[id].kind);
    var snapshot := Snapshot(s, id);
    if Finishable(p, s, powers, id) {
      forall i | 0 <= i < |snapshot| && Missed(powers(id), VotesOn(s, id), snapshot[i])
        ensures RoundsToInt64(powers(id)[snapshot[i]])
      {
        assert snapshot[i] in snapshot;
      }
    }
  }

  ghost predicate AllClosable(p: Params, s: State, powers: PowersAt, due: set<Entry>)
  {
    forall e :: e in due ==> Closable(p, s, powers, e.id)
  }

  lemma ClosableLess(p: Params, s: State, powers: PowersAt, due: set<Entry>, e: Entry)
    requires e in due
    ensures AllClosable(p, s, powers, due) <==>
            Closable(p, s, powers, e.id) && AllClosable(p, s, powers, due - {e})
  {
    assert forall d :: d in due ==> d == e || d in due - {e};
  }

  /** What one proposal's closing sees of the state. */
  predicate SameFor(s: State, s': State, id: nat)
  {
    && id in s.proposals && id in s'.proposals && s'.proposals[id] == s.proposals[id]
    && s'.votes == s.votes && Snapshot(s', id) == Snapshot(s, id)
  }

  lemma SameFinding(p: Params, s: State, s': State, powers: PowersAt, id: nat)
    requires SameFor(s, s', id)
    ensures VotesOn(s', id) == VotesOn(s, id) && Finding(p, s', id, powers(id)) == Finding(p, s, id, powers(id))
  {
  }

  /** One validator with the power 2^63 that does not vote stops the chain, although all powers can
      be added up. */
  lemma PowerCanBeTooLarge(p: Params, s: State, id: nat, a: Address)
    requires Snapshot(s, id) == [a] && VoteOf(s.votes, id, a) == None
    ensures Countable(map[a := INT64_BOUND * ONE])
    ensures !Closable(p, s, n => map[a := INT64_BOUND * ONE], id)
  {
    var powers: Tally.Powers := map[a := INT64_BOUND * ONE];
    SumTake(powers, a);
    assert powers - {a} == map[];
    RoundedIsNearestEven(INT64_BOUND * ONE);
    assert Missed(powers, VotesOn(s, id), Snapshot(s, id)[0]);
  }

  /** A tax usage message can carry a parameter change: it makes a proposal, which comes under vote
      with a sufficient deposit, and stops the chain if it passes. */
  lemma KindCanBeWrong(p: Params, s: State, proposer: Address, amount: nat, now: int, bonded: seq<Address>,
                       powers: PowersAt)
    requires SubmitVerdict(p, s, Usage, ParameterChange, proposer, amount, now, true) == Done
    requires ProcedureOf(p, ParameterChange).minDeposit <= amount
    ensures var s' := Submitted(p, s, Usage, ParameterChange, proposer, amount, now, bonded);
            && UnderVote(s', s.nextId)
            && (Findings(p, s', powers)(s.nextId) == Pass ==> !Closable(p, s', powers, s.nextId))
  {
  }
}
