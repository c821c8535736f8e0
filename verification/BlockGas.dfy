/** The gas of a block: what its transactions are charged together, and which of them it refuses. */
module BlockGas {
  import opened Bytes
  import opened Gas
  import opened TxSpec
  import opened Handlers
  import opened Transactions
  import opened TxReports
  import opened Blocks

  predicate InOneBlock(events: seq<Event>)
  {
    forall i :: 0 <= i < |events| ==> !events[i].BeginBlock? && !events[i].Commit?
  }

  /** What each delivery of a block is charged, in their order. */
  ghost function Charges(events: seq<Event>, s: AppState): seq<nat>
    requires s.deliver.Some? && InOneBlock(events)
  {
    if events == [] then []
    else
      var rest := Charges(events[1..], Next(events[0], s));
      if !events[0].DeliverTx? then rest
      else [ChargeFor(events[0].tx, events[0].start, s.deliver.value, s.blockGas)] + rest
  }

  /** A uint64 counter after some additions; one that does not fit sets it to zero. */
  function Counted(c: nat, charges: seq<nat>): nat
    decreases charges
  {
    if charges == [] then c
    else Counted(if c + charges[0] < 0x1_0000_0000_0000_0000 then c + charges[0] else 0, charges[1..])
  }

  /** The block's meter counts what is charged for deliveries, and nothing else. */
  lemma {:induction false} MeterCounts(events: seq<Event>, s: AppState)
    requires s.deliver.Some? && InOneBlock(events) && s.blockGas.consumed < 0x1_0000_0000_0000_0000
    ensures LegalRun(events, true) && Run(events, s).deliver.Some?
    ensures Run(events, s).blockGas == s.blockGas.(consumed := Counted(s.blockGas.consumed, Charges(events, s)))
  {
    if events != [] {
      var e := events[0];
      var s' := Next(e, s);
      if e.DeliverTx? {
        TxIs(Deliver, e.tx, e.start, s.deliver.value, s.blockGas);
        var rest := Charges(events[1..], s');
        var charge := ChargeFor(e.tx, e.start, s.deliver.value, s.blockGas);
        assert ([charge] + rest)[1..] == rest;
      }
      MeterCounts(events[1..], s');
    }
  }

  /** The counter shows the total exactly when that is a uint64. */
  lemma {:induction false} CountsTotalIff(c: nat, charges: seq<nat>)
    requires c < 0x1_0000_0000_0000_0000
    ensures Counted(c, charges) < 0x1_0000_0000_0000_0000
    ensures Counted(c, charges) == c + Total(charges) <==> c + Total(charges) < 0x1_0000_0000_0000_0000
    decreases charges
  {
    if charges != [] {
      CountsTotalIff(if c + charges[0] < 0x1_0000_0000_0000_0000 then c + charges[0] else 0, charges[1..]);
    }
  }

  /** A state at the beginning of a block. */
  ghost function Begun(s: AppState, maxGas: nat): AppState
  {
    s.(deliver := Some(s.committed), blockGas := Meter(0, maxGas > 0, maxGas))
  }

  /** In a block with a gas limit a delivery is refused, out of gas and without a trace, exactly when
      what is counted for those before it has come to the limit. */
  lemma FullBlockRefuses(s: AppState, maxGas: nat, events: seq<Event>, tx: Tx, start: Meter)
    requires s.deliver.None? && maxGas > 0 && InOneBlock(events)
    ensures LegalRun([BeginBlock(maxGas)] + events, false)
    ensures var t, e := Run([BeginBlock(maxGas)] + events, s), DeliverTx(tx, start);
            && t.deliver.Some?
            && if Counted(0, Charges(events, Begun(s, maxGas))) >= maxGas
               then Next(e, t) == t && Report(e, t) == Some(Result(12, 0, 0))
               else if tx.rejected.Some? then Next(e, t) == t && Report(e, t) == Some(Result(tx.rejected.value, 0, 0))
               else
                 var end := EndingOf(Deliver, tx, start, t.deliver.value);
                 && Report(e, t).value.gasWanted == end.wanted && Report(e, t).value.gasUsed == end.ctx.meter.consumed
                 && Next(e, t).blockGas == Added(t.blockGas, Capped(end.ctx.meter))
  {
    var all := [BeginBlock(maxGas)] + events;
    assert all[1..] == events;
    assert Next(all[0], s) == Begun(s, maxGas);
    MeterCounts(events, Begun(s, maxGas));
    var t := Run(all, s);
    CountsTotalIff(0, Charges(events, Begun(s, maxGas)));
    TxIs(Deliver, tx, start, t.deliver.value, t.blockGas);
  }

  /** So a block whose deliveries are charged its limit or more together takes no more, as long as
      the total is a uint64. */
  lemma FullByTotal(s: AppState, maxGas: nat, events: seq<Event>, tx: Tx, start: Meter)
    requires s.deliver.None? && maxGas > 0 && InOneBlock(events)
    requires maxGas <= Total(Charges(events, Begun(s, maxGas))) < 0x1_0000_0000_0000_0000
    ensures LegalRun([BeginBlock(maxGas)] + events, false)
    ensures var t, e := Run([BeginBlock(maxGas)] + events, s), DeliverTx(tx, start);
            t.deliver.Some? && Next(e, t) == t && Report(e, t) == Some(Result(12, 0, 0))
  {
    CountsTotalIff(0, Charges(events, Begun(s, maxGas)));
    FullBlockRefuses(s, maxGas, events, tx, start);
  }

  /** It is one if no single charge comes within the limit of the largest uint64, since a full block
      charges nothing. */
  lemma {:induction false} TotalFits(events: seq<Event>, s: AppState)
    requires s.deliver.Some? && InOneBlock(events)
    requires s.blockGas.limited && s.blockGas.consumed < 0x1_0000_0000_0000_0000
    requires forall c :: c in Charges(events, s) ==> c + s.blockGas.limit <= 0x1_0000_0000_0000_0000
    ensures s.blockGas.consumed + Total(Charges(events, s)) < 0x1_0000_0000_0000_0000
  {
    if events != [] {
      var e := events[0];
      var s' := Next(e, s);
      var rest := Charges(events[1..], s');
      if e.DeliverTx? {
        TxIs(Deliver, e.tx, e.start, s.deliver.value, s.blockGas);
        var charge := ChargeFor(e.tx, e.start, s.deliver.value, s.blockGas);
        assert s'.blockGas == Added(s.blockGas, charge);
        assert charge in Charges(events, s);
        assert ([charge] + rest)[1..] == rest;
      } else {
        assert s'.blockGas == s.blockGas;
      }
      assert forall c :: c in rest ==> c in Charges(events, s);
      TotalFits(events[1..], s');
    }
  }

  /** A transaction with one message that consumes some gas and does nothing else. */
  function Burning(amount: nat): Tx
  {
    var burn := Program((answers: seq<Answer>) => if |answers| == 0 then Burn(amount) else Finish(GOOD), 2);
    Tx(0, None, None, [], [Routed(burn)], (info, result) => None)
  }

  lemma BurningIsCharged(amount: nat, s: AppState)
    requires s.deliver.Some? && amount < 0x1_0000_0000_0000_0000
    requires s.blockGas.limited && s.blockGas.consumed < s.blockGas.limit
    ensures ChargeFor(Burning(amount), INFINITE, s.deliver.value, s.blockGas) == amount
  {
    var tx, m := Burning(amount), s.deliver.value;
    var p := tx.msgs[0].handler;
    assert p.next([]) == Burn(amount);
    assert [] + [Ack] == [Ack];
    var p1 := p.(steps := 1);
    assert p1.next([Ack]) == Finish(GOOD);
    assert Exec(p1, [Ack], m, Meter(amount, false, 0)) == (m, Meter(amount, false, 0), Finished(GOOD));
    assert Exec(p, [], m, INFINITE) == (m, Meter(amount, false, 0), Finished(GOOD));
    assert tx.msgs[1..] == [];
    assert MsgsDone(tx.msgs, m, INFINITE).1 == Meter(amount, false, 0);
  }

  /** A total that is not a uint64 empties the meter: two transactions of a block with a limit of ten
      are charged 1 and 2^64 - 1, and a third one is let in. */
  lemma OverflowReopensBlock(s: AppState)
    requires s.deliver.None?
    ensures var events := [DeliverTx(Burning(1), INFINITE), DeliverTx(Burning(0xffff_ffff_ffff_ffff), INFINITE)];
            && Charges(events, Begun(s, 10)) == [1, 0xffff_ffff_ffff_ffff]
            && LegalRun(events, true) && Run(events, Begun(s, 10)).blockGas == Meter(0, true, 10)
  {
    var e, f := DeliverTx(Burning(1), INFINITE), DeliverTx(Burning(0xffff_ffff_ffff_ffff), INFINITE);
    var events, s0 := [e, f], Begun(s, 10);
    BurningIsCharged(1, s0);
    TxIs(Deliver, e.tx, INFINITE, s0.deliver.value, s0.blockGas);
    var s1 := Next(e, s0);
    BurningIsCharged(0xffff_ffff_ffff_ffff, s1);
    assert events[1..] == [f] && [f][1..] == [];
    assert Charges([], Next(f, s1)) == [];
    assert Charges([f], s1) == [0xffff_ffff_ffff_ffff];
    assert Charges(events, s0) == [1, 0xffff_ffff_ffff_ffff];
    assert [1, 0xffff_ffff_ffff_ffff][1..] == [0xffff_ffff_ffff_ffff];
    MeterCounts(events, s0);
    assert Counted(1, [0xffff_ffff_ffff_ffff]) == 0;
  }
}
