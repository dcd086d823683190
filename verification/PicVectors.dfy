/**
 When a restored pair of 8259As keeps its vectors within a byte (`rusty_box/src/pic.rs`,
 lines 989-1079 and 1131-1198). Restoring checks the initialization phase, not the bases.
 */
module PicVectors {
  import opened Base
  import opened Wire
  import opened Pic8259
  import opened PicPair
  import opened PicRuns
  import opened PicCodec

  lemma DataKeepsBases(p: Pair, v: byte, isMaster: bool)
    requires BasesFit(p)
    ensures BasesFit(WriteData(p, v, isMaster))
  {
    var c := Of(p, isMaster);
    if c.program.inInit {
      assert Icw(c, v).program == IcwProgram(c.program, v);
      assert v - v % 8 <= 248;
    } else {
      ServicedSame(p, isMaster, c.(imr := Lines(v)));
    }
  }

  lemma StepKeepsBases(p: Pair, op: Op)
    requires BasesFit(p)
    ensures BasesFit(Step(p, op))
  {
    match op
    case Raise(n) => RaiseSame(p, n);
    case Lower(n) =>
    case Command(v, m) =>
      if !HasBit(v, 4) {
        if v / 8 % 4 == 1 {
          Ocw3Same(p, v, m);
        } else {
          Ocw2Same(p, v, m);
        }
      }
    case Data(v, m) => DataKeepsBases(p, v, m);
    case Read(m) => ReadSame(p, m);
    case Mode(m, v) =>
    case Inta => IacSame(p);
    case HardReset =>
  }

  lemma {:induction false} RunKeepsBases(p: Pair, ops: seq<Op>)
    requires BasesFit(p)
    ensures Iac(Run(p, ops)).vector < 256
    decreases |ops|
  {
    if ops == [] {
      VectorFits(p);
    } else {
      StepKeepsBases(p, ops[0]);
      RunKeepsBases(Step(p, ops[0]), ops[1..]);
    }
  }

  /** ICW1 empties the master, so the acknowledge after it is spurious, seven past the base. */
  lemma MasterOverflows(p: Pair)
    requires p.master.program.offset > 248
    ensures Iac(Run(p, [Command(0x10, true)])).vector > 255
  {
    var q := Step(p, Command(0x10, true));
    assert HasBit(0x10, 4);
    assert q.master.irr - q.master.imr == {};
    assert [Command(0x10, true)][1..] == [];
    assert Run(p, [Command(0x10, true)]) == Run(q, []);
  }

  lemma BothRestarted(p: Pair)
    requires p.master.master && !p.slave.master
    ensures var q := Step(Step(p, Command(0x10, true)), Command(0x10, false));
            && q.master.master && !q.slave.master && q.slave.program.offset == p.slave.program.offset
            && Empty(q.master) && Empty(q.slave)
  {
    assert HasBit(0x10, 4);
  }

  lemma SlaveTakesRequest(q: Pair)
    requires !q.slave.master && q.slave.irr == {} && q.slave.imr == {} && q.slave.isr == {} && !q.slave.intPin
    ensures var c := q.slave.(irqIn := q.slave.irqIn + {0}, irr := {0});
            Step(q, Raise(8)) == RaiseMaster(q.(slave := c.(intPin := true, irq := 0)), 2)
  {
    var c := q.slave.(irqIn := q.slave.irqIn + {0}, irr := {0});
    assert EligibleSet(c) == {0};
    assert Serve(c) == Served(c.(intPin := true, irq := 0), RaiseCascade);
    assert RaiseIrq(q, 8) == ServiceSlave(q.(slave := c));
  }

  lemma MasterTakesCascade(q: Pair)
    requires q.master.master && q.master.irr == {} && q.master.imr == {} && q.master.isr == {} && !q.master.intPin
    ensures var r := RaiseMaster(q, 2);
            r.master.irr == {2} && r.master.imr == {} && r.master.irq == 2 && r.slave == q.slave
  {
    var m := q.master.(irqIn := q.master.irqIn + {2}, irr := {2});
    assert EligibleSet(m) == {2};
  }

  predicate Empty(c: Chip) {
    c.irr == {} && c.imr == {} && c.isr == {} && !c.intPin
  }

  /** On two empty chips a request on the slave's first line goes straight through. */
  lemma RequestGoesThrough(q: Pair)
    requires q.master.master && !q.slave.master && Empty(q.master) && Empty(q.slave)
    ensures var r := Step(q, Raise(8));
            && r.master.irr == {2} && r.master.imr == {} && r.master.irq == 2
            && r.slave.irr == {0} && 0 in r.slave.irqIn && r.slave.program == q.slave.program
  {
    var c := q.slave.(irqIn := q.slave.irqIn + {0}, irr := {0});
    SlaveTakesRequest(q);
    MasterTakesCascade(q.(slave := c.(intPin := true, irq := 0)));
  }

  /** Withdrawn before the acknowledge, it leaves the slave's spurious vector. */
  lemma WithdrawnIsSpurious(r: Pair)
    requires r.master.irr == {2} && r.master.imr == {} && r.master.irq == 2 && r.slave.irr == {0} && 0 in r.slave.irqIn
    ensures Iac(Step(r, Lower(8))).vector == r.slave.program.offset + 7
  {
    var q := r.(slave := r.slave.(irqIn := r.slave.irqIn - {0}, irr := {}));
    assert Step(r, Lower(8)) == q;
    TakenKeepsLatch(q);
    assert q.master.irr - q.master.imr == {2};
    assert q.slave.irr - q.slave.imr == {};
  }

  lemma SlaveOverflows(p: Pair)
    requires p.master.master && !p.slave.master && p.slave.program.offset > 248
    ensures Iac(Run(p, [Command(0x10, true), Command(0x10, false), Raise(8), Lower(8)])).vector > 255
  {
    var ops := [Command(0x10, true), Command(0x10, false), Raise(8), Lower(8)];
    var q := Step(Step(p, ops[0]), ops[1]);
    BothRestarted(p);
    RequestGoesThrough(q);
    WithdrawnIsSpurious(Step(q, ops[2]));
    RunOfFour(p, ops);
  }

  lemma FittingBasesFit(p: Pair)
    requires BasesFit(p)
    ensures forall ops: seq<Op> :: Iac(Run(p, ops)).vector < 256
  {
    forall ops: seq<Op> ensures Iac(Run(p, ops)).vector < 256 {
      RunKeepsBases(p, ops);
    }
  }

  lemma OtherBasesOverflow(p: Pair)
    requires p.master.master && !p.slave.master && !BasesFit(p)
    ensures exists ops: seq<Op> :: Iac(Run(p, ops)).vector > 255
  {
    if p.master.program.offset > 248 {
      MasterOverflows(p);
    } else {
      SlaveOverflows(p);
    }
  }

  /**
   Any base comes back as it was saved. No run from the restored pair asks for a vector
   beyond a byte exactly when both bases are at most 248, aligned or not.
   */
  lemma RestoredVectorsFitExactly(p: Pair)
    requires Restorable(p)
    ensures Decode(Encode(p)) == Some(Parsed(Restored(p, []), []))
    ensures (forall ops: seq<Op> :: Iac(Run(p, ops)).vector < 256) <==> BasesFit(p)
  {
    RestoresAsSaved(p);
    if BasesFit(p) {
      FittingBasesFit(p);
    } else {
      OtherBasesOverflow(p);
    }
  }

  lemma RestoresAsSaved(p: Pair)
    requires Restorable(p)
    ensures Decode(Encode(p)) == Some(Parsed(Restored(p, []), []))
  {
    SaveThenRestore(p, []);
    assert Encode(p) + [] == Encode(p);
  }
}
