/** Runs of deliveries on the stores: no signed transaction takes effect twice. */
module FeeRuns {
  import opened KVStores
  import opened MultiStores
  import opened Gas
  import opened TxSpec
  import opened Handlers
  import opened Transactions
  import opened BaseApps
  import opened Auth
  import opened AuthPrograms
  import opened FeePrograms
  import opened FeeHandlers
  import Fees

  /** A delivery: what is offered, the gas meter of the context and that of the block. */
  datatype Turn = Turn(o: Offer, start: Meter, blockGas: Meter)

  ghost function After(f: Formats, t: Turn, m: Stores): Stores
  {
    TxEffect(Deliver, TxOf(f, t.o), t.start, m, t.blockGas).state
  }

  ghost predicate Lands(f: Formats, t: Turn, m: Stores)
  {
    !TxLanding(TxOf(f, t.o), t.start, m, t.blockGas).Nothing?
  }

  /** Messages that land may create accounts but do not remove any and do not change sequences. */
  ghost predicate SequencesStay(f: Formats, t: Turn, m: Stores)
  {
    TxLanding(TxOf(f, t.o), t.start, m, t.blockGas).AnteAndMessages? ==>
      var x := AuthOf(f, AnteEndOf(TxOf(f, t.o), t.start, m).state).accounts;
      var y := AuthOf(f, Kept(TxOf(f, t.o), t.start, m, t.blockGas)).accounts;
      forall a :: a in x ==> a in y && y[a].sequence == x[a].sequence
  }

  /** The delivery is one with the fee settings in place, which stay, and no sequence is about to
      wrap around. */
  ghost predicate Fair(f: Formats, t: Turn, m: Stores)
  {
    && Deliverable(f, t.o, m, t.start) && FeeAuthKept(f, t.o, t.start, m, t.blockGas)
    && SequencesStay(f, t, m) && Fees.NoWrap(AuthOf(f, m))
  }

  /** The stores before the first of some deliveries and after each of them. */
  ghost predicate IsRun(f: Formats, ts: seq<Turn>, states: seq<Stores>)
  {
    && |states| == |ts| + 1
    && forall k :: 0 <= k < |ts| ==> states[k + 1] == After(f, ts[k], states[k])
  }

  ghost predicate AllFair(f: Formats, ts: seq<Turn>, states: seq<Stores>)
    requires |states| == |ts| + 1
  {
    forall k :: 0 <= k < |ts| ==> Fair(f, ts[k], states[k])
  }

  lemma TurnDelivers(f: Formats, t: Turn, m: Stores)
    requires Sound(f) && Fair(f, t, m)
    ensures var s, d := AuthOf(f, m), DeliveryOf(f, t.o, m, t.start, t.blockGas);
            && Fees.Deliver(s, d).state == AuthOf(f, After(f, t, m))
            && Fees.LandedOf(s, d).Nothing? == !Lands(f, t, m)
            && Fees.SequencesKept(s, d)
  {
    DeliveryIs(f, t.o, m, t.start, t.blockGas);
    LandingIs(f, t.o, m, t.start, t.blockGas);
    PreIs(f, t.o, m, t.start, t.blockGas);
    AnteIs(f, t.o, m, t.start, t.blockGas);
  }

  /** A delivery lowers no sequence, and one that lands raises those of its signers. */
  lemma TurnGrows(f: Formats, t: Turn, m: Stores)
    requires Sound(f) && Fair(f, t, m)
    ensures Fees.SequencesGrow(AuthOf(f, m), AuthOf(f, After(f, t, m)))
    ensures Lands(f, t, m) ==>
      && AnteVerdict(AuthOf(f, m), t.o.tx, t.o.height).Done?
      && Fees.SequencesGrow(AnteState(AuthOf(f, m), t.o.tx), AuthOf(f, After(f, t, m)))
  {
    var s, d := AuthOf(f, m), DeliveryOf(f, t.o, m, t.start, t.blockGas);
    TurnDelivers(f, t, m);
    Fees.DeliverGrows(s, d);
    if Lands(f, t, m) {
      Fees.LandedMeans(s, d);
    }
  }

  /** One step between two states, as far as the sequences are concerned. */
  ghost predicate StepGrows(s: AuthState, t: AuthState, tx: StdTx, height: nat, lands: bool)
  {
    && Fees.NoWrap(s) && Fees.SequencesGrow(s, t)
    && (lands ==> AnteVerdict(s, tx, height).Done? && Fees.SequencesGrow(AnteState(s, tx), t))
  }

  lemma TurnStep(f: Formats, t: Turn, m: Stores, after: Stores)
    requires Sound(f) && Fair(f, t, m) && after == After(f, t, m)
    ensures StepGrows(AuthOf(f, m), AuthOf(f, after), t.o.tx, t.o.height, Lands(f, t, m))
  {
    TurnGrows(f, t, m);
  }

  lemma {:induction false} GrowAlong(states: seq<AuthState>, i: nat, j: nat)
    requires forall k :: 0 <= k < |states| - 1 ==> Fees.SequencesGrow(states[k], states[k + 1])
    requires i <= j < |states|
    ensures Fees.SequencesGrow(states[i], states[j])
    decreases j
  {
    if i < j {
      GrowAlong(states, i, j - 1);
      assert Fees.SequencesGrow(states[j - 1], states[j - 1 + 1]);
    }
  }

  ghost function Read(f: Formats, states: seq<Stores>): (r: seq<AuthState>)
    ensures |r| == |states| && forall k :: 0 <= k < |r| ==> r[k] == AuthOf(f, states[k])
  {
    seq(|states|, k requires 0 <= k < |states| => AuthOf(f, states[k]))
  }

  lemma RunGrows(f: Formats, ts: seq<Turn>, states: seq<Stores>, i: nat, j: nat)
    requires Sound(f) && IsRun(f, ts, states) && AllFair(f, ts, states) && i <= j <= |ts|
    ensures Fees.SequencesGrow(AuthOf(f, states[i]), AuthOf(f, states[j]))
  {
    forall k | 0 <= k < |ts|
      ensures Fees.SequencesGrow(Read(f, states)[k], Read(f, states)[k + 1])
    {
      TurnStep(f, ts[k], states[k], states[k + 1]);
    }
    GrowAlong(Read(f, states), i, j);
  }

  /** In no run does a signed transaction land again that has landed, in whatever block, with
      whatever messages and gas it is offered, and whatever was delivered in between. */
  lemma LandsOnce(f: Formats, ts: seq<Turn>, states: seq<Stores>, i: nat, j: nat)
    requires Sound(f) && IsRun(f, ts, states) && AllFair(f, ts, states)
    requires i < j < |ts| && ts[i].o.tx == ts[j].o.tx && Lands(f, ts[i], states[i])
    ensures !Lands(f, ts[j], states[j])
  {
    TurnStep(f, ts[i], states[i], states[i + 1]);
    TurnStep(f, ts[j], states[j], states[j + 1]);
    RunGrows(f, ts, states, i + 1, j);
    Fees.PassedOnce(AuthOf(f, states[i]), ts[i].o.tx, ts[i].o.height, AuthOf(f, states[i + 1]), AuthOf(f, states[j]),
                    ts[j].o.height);
  }

  /** So none of them repeats one that landed. */
  ghost predicate NoneTwice(f: Formats, ts: seq<Turn>, states: seq<Stores>)
    requires |states| == |ts| + 1
  {
    forall i, j :: 0 <= i < j < |ts| && ts[i].o.tx == ts[j].o.tx ==>
      !(Lands(f, ts[i], states[i]) && Lands(f, ts[j], states[j]))
  }

  lemma FairRunsLandOnce(f: Formats, ts: seq<Turn>, states: seq<Stores>)
    requires Sound(f) && IsRun(f, ts, states) && AllFair(f, ts, states)
    ensures NoneTwice(f, ts, states)
  {
    forall i, j | 0 <= i < j < |ts| && ts[i].o.tx == ts[j].o.tx && Lands(f, ts[i], states[i])
      ensures !Lands(f, ts[j], states[j])
    {
      LandsOnce(f, ts, states, i, j);
    }
  }

  method DeliverTurn(f: Formats, t: Turn, ms: seq<KVStore>) returns (result: Result)
    requires Usable(ms)
    modifies AllOf(ms)`cache, Own(ms)
    ensures Usable(ms) && Views(ms) == After(f, t, old(Views(ms)))
    ensures result == ResultOf(f, t, old(Views(ms)))
  {
    PreOnlyReads(f, t.o.tx);
    var blockGas;
    blockGas, result := RunTxOn(Deliver, TxOf(f, t.o), ms, t.start, t.blockGas);
  }

  ghost function ResultOf(f: Formats, t: Turn, m: Stores): Result
  {
    TxEffect(Deliver, TxOf(f, t.o), t.start, m, t.blockGas).result
  }

  /** The first k deliveries: the stores around them and their results. */
  ghost predicate RunTo(f: Formats, ts: seq<Turn>, k: nat, states: seq<Stores>, results: seq<Result>)
  {
    && k <= |ts| && |states| == k + 1 && |results| == k
    && (forall i :: 0 <= i < k ==> states[i + 1] == After(f, ts[i], states[i]))
    && (forall i :: 0 <= i < k ==> results[i] == ResultOf(f, ts[i], states[i]))
  }

  lemma RunOn(f: Formats, ts: seq<Turn>, k: nat, states: seq<Stores>, results: seq<Result>,
              next: Stores, result: Result)
    requires RunTo(f, ts, k, states, results) && k < |ts|
    requires next == After(f, ts[k], states[k]) && result == ResultOf(f, ts[k], states[k])
    ensures RunTo(f, ts, k + 1, states + [next], results + [result])
  {
  }

  /** Deliveries on real stores with their caches, one after the other. */
  method DeliverAll(f: Formats, ts: seq<Turn>, ms: seq<KVStore>)
    returns (results: seq<Result>, ghost states: seq<Stores>)
    requires Sound(f) && Usable(ms)
    modifies AllOf(ms)`cache, Own(ms)
    ensures Usable(ms) && IsRun(f, ts, states) && states[0] == old(Views(ms)) && states[|ts|] == Views(ms)
    ensures |results| == |ts| && forall k :: 0 <= k < |ts| ==> results[k] == ResultOf(f, ts[k], states[k])
    ensures AllFair(f, ts, states) ==> NoneTwice(f, ts, states)
  {
    results, states := [], [Views(ms)];
    for k := 0 to |ts|
      invariant Usable(ms) && RunTo(f, ts, k, states, results)
      invariant states[0] == old(Views(ms)) && states[k] == Views(ms)
    {
      var result := DeliverTurn(f, ts[k], ms);
      RunOn(f, ts, k, states, results, Views(ms), result);
      results, states := results + [result], states + [Views(ms)];
    }
    if AllFair(f, ts, states) {
      FairRunsLandOnce(f, ts, states);
    }
  }
}
