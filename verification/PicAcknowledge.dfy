/**
 What the vector answered to an acknowledge means (`rusty_box/src/pic.rs`, lines 625-657,
 818-857 and 989-1079): the base written as ICW2 plus the line that goes into service, and that
 line is the most urgent request there was when INT rose.
 */
module PicAcknowledge {
  import opened Base
  import opened Pic8259
  import opened PicPair
  import opened PicRuns
  import opened PicCodec

  // ---- One acknowledge ----

  /** From `c` to `d` the chip took line `l`: into service unless EOI is automatic, and off the requests if it is an edge. */
  predicate Took(c: Chip, d: Chip, l: Line) {
    && d.isr == (if c.autoEoi then c.isr else c.isr + {l})
    && d.irr == (if l in c.edgeLevel then c.irr else c.irr - {l})
  }

  lemma AcknowledgeTakes(c: Chip)
    ensures Took(c, Acknowledge(c), c.irq) && Acknowledge(c).program == c.program
  {
  }

  lemma ServeKeepsRegisters(c: Chip)
    ensures var d := Serve(c).chip; d.isr == c.isr && d.irr == c.irr && d.program == c.program && d.edgeLevel == c.edgeLevel
  {
  }

  lemma ServiceMasterKeepsRegisters(p: Pair)
    ensures var q := ServiceMaster(p); q.master.isr == p.master.isr && q.master.irr == p.master.irr && q.slave == p.slave
  {
    ServeKeepsRegisters(p.master);
  }

  /** Servicing the slave moves nothing at the master but the request on line 2. */
  lemma ServiceSlaveKeepsRegisters(p: Pair)
    ensures var q := ServiceSlave(p);
            && q.slave.isr == p.slave.isr && q.slave.irr == p.slave.irr && q.master.isr == p.master.isr
            && q.master.irr - {2} == p.master.irr - {2}
  {
    ServeKeepsRegisters(p.slave);
    var r := p.(slave := Serve(p.slave).chip);
    if Serve(p.slave).action == RaiseCascade {
      var c := r.master.(irqIn := r.master.irqIn + {2});
      ServiceMasterKeepsRegisters(r.(master := c.(irr := c.irr + {2})));
    }
  }

  /** Answered by the master: the vector is its base and the line it took; the slave is not touched. */
  lemma MasterVector(p: Pair)
    requires !MasterSpurious(p) && p.master.irq != 2
    ensures var q, v, base := Iac(p).pair, Iac(p).vector, p.master.program.offset;
            base <= v < base + 8 && v != base + 2 && Took(p.master, q.master, v - base) && q.slave == p.slave
  {
    AcknowledgeTakes(p.master.(intPin := false));
    ServiceMasterKeepsRegisters(Taken(p));
  }

  lemma CascadeVector(p: Pair)
    requires p.slave.irr - p.slave.imr != {}
    ensures var q, v, base := IacCascade(p).pair, IacCascade(p).vector, p.slave.program.offset;
            && base <= v < base + 8 && Took(p.slave, q.slave, v - base)
            && q.master.isr == p.master.isr && q.master.irr - {2} == p.master.irr - {2}
  {
    var r := p.(master := p.master.(irqIn := p.master.irqIn - {2}), slave := p.slave.(intPin := false));
    var s := r.(slave := Acknowledge(r.slave));
    AcknowledgeTakes(r.slave);
    ServiceSlaveKeepsRegisters(s);
    ServiceMasterKeepsRegisters(ServiceSlave(s));
    assert IacCascade(p) == Ack(ServiceMaster(ServiceSlave(s)), r.slave.irq + r.slave.program.offset);
  }

  lemma TakenMaster(p: Pair)
    requires p.master.irq == 2
    ensures var t := Taken(p);
            && t.slave == p.slave && t.master.irq == 2 && t.master.irr - {2} == p.master.irr - {2}
            && t.master.isr == if p.master.autoEoi then p.master.isr else p.master.isr + {2}
  {
    AcknowledgeTakes(p.master.(intPin := false));
  }

  /** Answered by the slave: the vector is its base and the line it took; the master took line 2. */
  lemma SlaveVector(p: Pair)
    requires !MasterSpurious(p) && p.master.irq == 2 && !SlaveSpurious(p)
    ensures var q, v, base := Iac(p).pair, Iac(p).vector, p.slave.program.offset;
            && base <= v < base + 8 && Took(p.slave, q.slave, v - base)
            && q.master.isr == (if p.master.autoEoi then p.master.isr else p.master.isr + {2})
            && q.master.irr - {2} == p.master.irr - {2}
  {
    var t := Taken(p);
    TakenMaster(p);
    CascadeVector(t);
    assert Iac(p) == IacCascade(t);
  }

  /** A line that came into service, or whose request was taken off, is the one the vector names. */
  predicate NamedBy(c: Chip, d: Chip, l: Line, vector: nat) {
    (l in d.isr && l !in c.isr) || (l in c.irr && l !in d.irr) ==> vector == c.program.offset + l
  }

  /** An acknowledge that is not spurious names the line that went into service, on whichever chip it is. */
  lemma VectorNamesTheLine(p: Pair, l: Line)
    requires !MasterSpurious(p) && !SlaveSpurious(p)
    ensures l != 2 ==> NamedBy(p.master, Iac(p).pair.master, l, Iac(p).vector)
    ensures NamedBy(p.slave, Iac(p).pair.slave, l, Iac(p).vector)
  {
    if p.master.irq != 2 {
      MasterVector(p);
    } else {
      SlaveVector(p);
      var q := Iac(p).pair;
      if l != 2 {
        assert l in q.master.irr <==> l in q.master.irr - {2};
        assert l in p.master.irr <==> l in p.master.irr - {2};
      }
    }
  }

  /** The spurious ones: seven past the base of the chip that has nothing, which takes nothing into service. */
  lemma SpuriousVector(p: Pair)
    requires MasterSpurious(p) || SlaveSpurious(p)
    ensures MasterSpurious(p) ==>
              Iac(p).vector == p.master.program.offset + 7 && Iac(p).pair.master.isr == p.master.isr && Iac(p).pair.slave == p.slave
    ensures SlaveSpurious(p) ==>
              Iac(p).vector == p.slave.program.offset + 7 && Iac(p).pair.slave.isr == p.slave.isr
  {
    TakenKeepsLatch(p);
  }

  // ---- Which line that is ----

  /** INT rises exactly when something is eligible, for the line none outranks. */
  lemma LatchesMostUrgent(c: Chip, l: Line)
    requires !c.intPin
    ensures Serve(c).chip.intPin <==> EligibleSet(c) != {}
    ensures Serve(c).chip.intPin ==>
              var irq := Serve(c).chip.irq;
              Eligible(c, irq) && (Eligible(c, l) ==> Rank(c, irq) <= Rank(c, l))
  {
    if Saturated(c) {
      SaturatedIsQuiet(c);
    }
    if Eligible(c, l) {
      assert l in EligibleSet(c);
    }
  }

  /** The vector of a pair with something to deliver, from what it has latched. */
  lemma LatchedVector(q: Pair)
    requires !MasterSpurious(q) && !SlaveSpurious(q)
    ensures Iac(q).vector == if q.master.irq != 2 then q.master.program.offset + q.master.irq else q.slave.program.offset + q.slave.irq
  {
    TakenKeepsLatch(q);
  }

  /** So acknowledged at once, the vector is of an eligible request that no eligible request outranks. */
  lemma PromptVector(p: Pair, l: Line)
    requires !p.master.intPin && ServiceMaster(p).master.intPin && ServiceMaster(p).master.irq != 2
    ensures var v, base := Iac(ServiceMaster(p)).vector, p.master.program.offset;
            && base <= v < base + 8 && Eligible(p.master, v - base)
            && (Eligible(p.master, l) ==> Rank(p.master, v - base) <= Rank(p.master, l))
  {
    LatchesMostUrgent(p.master, l);
    var q := ServiceMaster(p);
    ServeSettles(p.master);
    assert q.master.irq in q.master.irr - q.master.imr;
    LatchedVector(q);
  }

  /** Nothing masked, requested or in service. */
  predicate Idle(c: Chip) {
    c.imr == {} && c.isr == {} && c.irr == {} && !c.intPin
  }

  lemma OnlyRequestIsLatched(c: Chip, l: Line)
    requires c.irr == {l} && c.imr == {} && c.isr == {} && !c.intPin
    ensures Serve(c) == Served(c.(intPin := true, irq := l), if c.master then RaiseIntr else RaiseCascade)
  {
    assert EligibleSet(c) == {l};
  }

  lemma MasterRaised(p: Pair, l: Line) returns (q: Pair)
    requires Idle(p.master)
    ensures q == RaiseMaster(p, l) && q.slave == p.slave && q.master.program == p.master.program
    ensures q.master.irr == {l} && q.master.imr == {} && q.master.irq == l
  {
    q := RaiseMaster(p, l);
    var c := p.master.(irqIn := p.master.irqIn + {l});
    assert c.irr + {l} == {l};
    OnlyRequestIsLatched(c.(irr := {l}), l);
  }

  lemma SlaveRaised(p: Pair, l: Line) returns (q: Pair)
    requires Idle(p.slave) && Idle(p.master) && !p.slave.master
    ensures q == RaiseSlave(p, l) && q.slave.program == p.slave.program
    ensures q.slave.irr == {l} && q.slave.imr == {} && q.slave.irq == l && q.master.irr == {2} && q.master.imr == {} && q.master.irq == 2
  {
    var c := p.slave.(irqIn := p.slave.irqIn + {l});
    assert c.irr + {l} == {l};
    OnlyRequestIsLatched(c.(irr := {l}), l);
    q := MasterRaised(p.(slave := c.(irr := {l}, intPin := true, irq := l)), 2);
    assert RaiseSlave(p, l) == q;
  }

  /** On an idle pair the acknowledge of a raised line answers that line: 0 to 7 from the master's base, 8 to 15 from the slave's. */
  lemma RaisedLineIsAnswered(p: Pair, n: byte)
    requires Idle(p.master) && Idle(p.slave) && !p.slave.master && n < 16 && n != 2
    ensures Iac(RaiseIrq(p, n)).vector == if n < 8 then p.master.program.offset + n else p.slave.program.offset + (n - 8)
  {
    if n < 8 {
      var q := MasterRaised(p, n);
      assert n in q.master.irr - q.master.imr;
      LatchedVector(q);
    } else {
      var l: Line := n - 8;
      var q := SlaveRaised(p, l);
      assert 2 in q.master.irr - q.master.imr && l in q.slave.irr - q.slave.imr;
      LatchedVector(q);
    }
  }

  // ---- Programming the bases ----

  /** Nobody starts a new initialization. */
  predicate LeavesProgram(op: Op) {
    !op.HardReset? && (op.Command? ==> !HasBit(op.value, 4))
  }

  lemma DataSame(p: Pair, v: byte, m: bool)
    requires !Of(p, m).program.inInit
    ensures SamePrograms(p, WriteData(p, v, m))
  {
    ServicedSame(p, m, Of(p, m).(imr := Lines(v)));
  }

  lemma StepSame(p: Pair, op: Op)
    requires LeavesProgram(op) && !p.master.program.inInit && !p.slave.program.inInit
    ensures SamePrograms(p, Step(p, op))
  {
    match op
    case Raise(n) => RaiseSame(p, n);
    case Lower(n) =>
    case Command(v, m) =>
      if v / 8 % 4 == 1 {
        Ocw3Same(p, v, m);
      } else {
        Ocw2Same(p, v, m);
      }
    case Data(v, m) => DataSame(p, v, m);
    case Read(m) => ReadSame(p, m);
    case Mode(m, v) =>
    case Inta => IacSame(p);
  }

  lemma {:induction false} RunSame(p: Pair, ops: seq<Op>)
    requires !p.master.program.inInit && !p.slave.program.inInit && forall k :: 0 <= k < |ops| ==> LeavesProgram(ops[k])
    ensures SamePrograms(p, Run(p, ops))
    decreases |ops|
  {
    if ops != [] {
      StepSame(p, ops[0]);
      RunSame(Step(p, ops[0]), ops[1..]);
      SameTrans(p, Step(p, ops[0]), Run(p, ops));
    }
  }

  /** What software writes to initialize a chip: the fourth word only if the first announces it. */
  datatype Words = Words(icw1: byte, icw2: byte, icw3: byte, icw4: byte)

  function Sequence(u: Words, m: bool): seq<Op> {
    [Command(u.icw1, m), Data(u.icw2, m), Data(u.icw3, m)] + if HasBit(u.icw1, 0) then [Data(u.icw4, m)] else []
  }

  /** Initialized with those words: vectors from the multiple of eight the second gives, automatic EOI as the fourth says. */
  predicate InitializedWith(c: Chip, u: Words) {
    && !c.program.inInit
    && c.program.offset % 8 == 0 && c.program.offset <= u.icw2 < c.program.offset + 8
    && (c.autoEoi <==> HasBit(u.icw1, 0) && HasBit(u.icw4, 1))
    && c.imr == {} && c.isr == {} && c.irr == {} && c.lowest == 7 && !c.intPin
  }

  lemma ThreeWords(p: Pair, u: Words, m: bool)
    requires HasBit(u.icw1, 4)
    ensures var q := Step(Step(Step(p, Command(u.icw1, m)), Data(u.icw2, m)), Data(u.icw3, m));
            var c := Of(q, m);
            && c.program.offset == u.icw2 - u.icw2 % 8 && !c.autoEoi && Of(q, !m).program == Of(p, !m).program
            && c.imr == {} && c.isr == {} && c.irr == {} && c.lowest == 7 && !c.intPin && c.master == Of(p, m).master
            && c.program.inInit == HasBit(u.icw1, 0) && (HasBit(u.icw1, 0) ==> c.program.byteExpected == 4)
  {
    var q1 := Step(p, Command(u.icw1, m));
    assert q1 == Icw1(p, u.icw1, m);
    var q2 := Step(q1, Data(u.icw2, m));
    assert q2 == With(q1, m, Icw(Of(q1, m), u.icw2));
    assert Step(q2, Data(u.icw3, m)) == With(q2, m, Icw(Of(q2, m), u.icw3));
  }

  /** The sequence initializes its chip and leaves the other's program alone. */
  lemma SequenceInitializes(p: Pair, u: Words, m: bool)
    requires HasBit(u.icw1, 4)
    ensures var q := Run(p, Sequence(u, m));
            InitializedWith(Of(q, m), u) && Of(q, !m).program == Of(p, !m).program && Of(q, m).master == Of(p, m).master
  {
    var ops := Sequence(u, m);
    var p1 := Step(p, ops[0]);
    var p2 := Step(p1, ops[1]);
    var p3 := Step(p2, ops[2]);
    ThreeWords(p, u, m);
    assert ops[0..] == ops;
    RunFrom(p, ops, 0);
    RunFrom(p1, ops, 1);
    RunFrom(p2, ops, 2);
    if HasBit(u.icw1, 0) {
      RunFrom(p3, ops, 3);
      assert ops[4..] == [];
      assert Step(p3, ops[3]) == With(p3, m, Icw(Of(p3, m), u.icw4));
    } else {
      assert ops[3..] == [];
    }
  }

  /** The block of eight vectors the byte lies in. */
  predicate BlockOf(base: nat, v: byte) {
    base % 8 == 0 && base <= v < base + 8
  }

  /**
   Both chips initialized, then any run that initializes neither again: every acknowledge
   answers from the block of eight its chip was given as ICW2, with the line that goes
   into service, or with the last of the block if there is nothing to deliver.
   */
  lemma ProgrammedVectors(p: Pair, u: Words, v: Words, ops: seq<Op>) returns (r: Pair)
    requires HasBit(u.icw1, 4) && HasBit(v.icw1, 4) && forall k :: 0 <= k < |ops| ==> LeavesProgram(ops[k])
    ensures r == Run(Run(Run(p, Sequence(u, true)), Sequence(v, false)), ops)
    ensures BlockOf(r.master.program.offset, u.icw2) && BlockOf(r.slave.program.offset, v.icw2)
    ensures var vector, q := Iac(r).vector, Iac(r).pair;
            var m, s := vector - r.master.program.offset, vector - r.slave.program.offset;
            if MasterSpurious(r) then m == 7 && q.master.isr == r.master.isr && q.slave == r.slave
            else if r.master.irq != 2 then 0 <= m < 8 && Took(r.master, q.master, m) && q.slave == r.slave
            else if SlaveSpurious(r) then s == 7 && q.slave.isr == r.slave.isr
            else 0 <= s < 8 && Took(r.slave, q.slave, s)
  {
    SequenceInitializes(p, u, true);
    var q := Run(p, Sequence(u, true));
    SequenceInitializes(q, v, false);
    var i := Run(q, Sequence(v, false));
    RunSame(i, ops);
    r := Run(i, ops);
    if MasterSpurious(r) || SlaveSpurious(r) {
      SpuriousVector(r);
    } else if r.master.irq != 2 {
      MasterVector(r);
    } else {
      SlaveVector(r);
    }
  }

  // ---- Whether the line is still requested ----

  /** While INT is high the latched line is requested and not masked. */
  predicate Fresh(c: Chip) {
    c.intPin ==> c.irq in c.irr && c.irq !in c.imr
  }

  predicate FreshPair(p: Pair) {
    Fresh(p.master) && Fresh(p.slave)
  }

  /** The line INT is high for is withdrawn by its device. */
  predicate LowersLatched(c: Chip, l: Line) {
    c.intPin && c.irq == l && l in c.irqIn
  }

  /** The line INT is high for is masked, and INT does not drop with it. */
  predicate MasksLatched(c: Chip, mask: set<Line>) {
    c.intPin && c.irq in mask && (Saturated(c.(imr := mask)) || c.irr - mask != {})
  }

  /** INT drops with it, and takes away the request line 2 is latched for at the master. */
  predicate CascadeDropsLatched(p: Pair, mask: set<Line>) {
    && p.slave.intPin && p.slave.irq in mask && !MasksLatched(p.slave, mask)
    && LowersLatched(p.master, 2)
  }

  /** The steps that leave INT high for a line no longer waiting. */
  predicate GoesStale(p: Pair, op: Op) {
    match op
    case Lower(n) => if n < 8 then LowersLatched(p.master, n) else n < 16 && LowersLatched(p.slave, n - 8)
    case Data(v, m) =>
      && !Of(p, m).program.inInit
      && (MasksLatched(Of(p, m), Lines(v)) || (!m && CascadeDropsLatched(p, Lines(v))))
    case _ => false
  }

  lemma ServeFresh(c: Chip)
    requires Fresh(c)
    ensures Fresh(Serve(c).chip) && Serve(c).action != ClearIntr && Serve(c).action != LowerCascade
  {
    if c.intPin {
      assert c.irq in c.irr - c.imr;
    } else {
      LatchesMostUrgent(c, 0);
    }
  }

  lemma ServiceMasterFresh(p: Pair)
    requires FreshPair(p)
    ensures FreshPair(ServiceMaster(p))
  {
    ServeFresh(p.master);
  }

  lemma RaiseMasterFresh(p: Pair, l: Line)
    requires FreshPair(p)
    ensures FreshPair(RaiseMaster(p, l))
  {
    var c := p.master.(irqIn := p.master.irqIn + {l});
    ServiceMasterFresh(p.(master := c.(irr := c.irr + {l})));
  }

  lemma ServiceSlaveFresh(p: Pair)
    requires FreshPair(p)
    ensures FreshPair(ServiceSlave(p))
  {
    ServeFresh(p.slave);
    RaiseMasterFresh(p.(slave := Serve(p.slave).chip), 2);
  }

  lemma ServicedFresh(p: Pair, m: bool, d: Chip)
    requires FreshPair(With(p, m, d))
    ensures FreshPair(ServiceChip(With(p, m, d), m))
  {
    if m {
      ServiceMasterFresh(With(p, m, d));
    } else {
      ServiceSlaveFresh(With(p, m, d));
    }
  }

  predicate SameLatch(c: Chip, d: Chip) {
    d.irq == c.irq && d.irr == c.irr && d.imr == c.imr && d.intPin == c.intPin
  }

  lemma Ocw2KeepsLatch(c: Chip, v: byte)
    ensures SameLatch(c, Ocw2Chip(c, v))
  {
  }

  lemma Ocw3KeepsLatch(c: Chip, op: nat, mask: nat)
    ensures SameLatch(c, Ocw3Modes(c, op, mask))
  {
  }

  lemma RetunedFresh(p: Pair, m: bool, d: Chip)
    requires FreshPair(p) && SameLatch(Of(p, m), d)
    ensures FreshPair(With(p, m, d)) && FreshPair(ServiceChip(With(p, m, d), m))
  {
    ServicedFresh(p, m, d);
  }

  lemma Ocw3Fresh(p: Pair, v: byte, m: bool)
    requires FreshPair(p)
    ensures FreshPair(Ocw3(p, v, m))
  {
    var c := Of(p, m);
    if HasBit(v, 2) {
      RetunedFresh(p, m, c.(modes := c.modes.(polled := true)));
    } else {
      Ocw3KeepsLatch(c, v % 4, v / 32 % 4);
      RetunedFresh(p, m, Ocw3Modes(c, v % 4, v / 32 % 4));
    }
  }

  lemma Ocw2Fresh(p: Pair, v: byte, m: bool)
    requires FreshPair(p)
    ensures FreshPair(Ocw2(p, v, m))
  {
    Ocw2KeepsLatch(Of(p, m), v);
    RetunedFresh(p, m, Ocw2Chip(Of(p, m), v));
  }

  lemma CommandFresh(p: Pair, v: byte, m: bool)
    requires FreshPair(p)
    ensures FreshPair(WriteCmd(p, v, m))
  {
    if HasBit(v, 4) {
      assert WriteCmd(p, v, m) == Icw1(p, v, m);
    } else if v / 8 % 4 == 1 {
      Ocw3Fresh(p, v, m);
    } else {
      Ocw2Fresh(p, v, m);
    }
  }

  lemma IacFresh(p: Pair)
    requires FreshPair(p)
    ensures FreshPair(Iac(p).pair)
  {
    if !MasterSpurious(p) {
      var t := Taken(p);
      if p.master.irq != 2 {
        ServiceMasterFresh(t);
      } else {
        var r := t.(master := t.master.(irqIn := t.master.irqIn - {2}), slave := t.slave.(intPin := false));
        var s := r.(slave := Acknowledge(r.slave));
        ServiceSlaveFresh(s);
        ServiceMasterFresh(ServiceSlave(s));
      }
    }
  }

  lemma ReadFresh(p: Pair, m: bool)
    requires FreshPair(p)
    ensures FreshPair(ReadPort(p, m))
  {
    var d := Retire(Of(p, m));
    RetunedFresh(p, m, d.(modes := d.modes.(polled := false)));
  }

  lemma RaiseFresh(p: Pair, n: byte)
    requires FreshPair(p)
    ensures FreshPair(RaiseIrq(p, n))
  {
    if n < 8 {
      RaiseMasterFresh(p, n);
    } else if n < 16 {
      var l: Line := n - 8;
      var c := p.slave.(irqIn := p.slave.irqIn + {l});
      ServiceSlaveFresh(p.(slave := c.(irr := c.irr + {l})));
    }
  }

  lemma LowerLineFresh(c: Chip, l: Line)
    requires Fresh(c)
    ensures Fresh(LowerLine(c, l)) <==> !LowersLatched(c, l)
  {
  }

  lemma MaskedFresh(c: Chip, mask: set<Line>)
    requires Fresh(c)
    ensures Fresh(Serve(c.(imr := mask)).chip) <==> !MasksLatched(c, mask)
    ensures Serve(c.(imr := mask)).action == LowerCascade || Serve(c.(imr := mask)).action == ClearIntr <==>
            c.intPin && c.irq in mask && !MasksLatched(c, mask)
  {
    var d := c.(imr := mask);
    if !c.intPin || c.irq !in mask {
      ServeFresh(d);
    }
  }

  lemma MaskMasterFresh(p: Pair, mask: set<Line>)
    requires FreshPair(p)
    ensures FreshPair(ServiceMaster(p.(master := p.master.(imr := mask)))) <==> !MasksLatched(p.master, mask)
  {
    MaskedFresh(p.master, mask);
  }

  lemma MaskSlaveFresh(p: Pair, mask: set<Line>)
    requires FreshPair(p) && !p.slave.master
    ensures FreshPair(ServiceSlave(p.(slave := p.slave.(imr := mask)))) <==>
            !MasksLatched(p.slave, mask) && !CascadeDropsLatched(p, mask)
  {
    var c := p.slave.(imr := mask);
    var q := p.(slave := Serve(c).chip);
    MaskedFresh(p.slave, mask);
    if Serve(c).action == LowerCascade {
      LowerLineFresh(p.master, 2);
    } else if Serve(c).action == RaiseCascade {
      RaiseMasterFresh(q, 2);
    }
  }

  lemma LowerFresh(p: Pair, n: byte)
    requires FreshPair(p)
    ensures FreshPair(LowerIrq(p, n)) <==> !GoesStale(p, Lower(n))
  {
    if n < 8 {
      LowerLineFresh(p.master, n);
    } else if n < 16 {
      LowerLineFresh(p.slave, n - 8);
    }
  }

  lemma DataFresh(p: Pair, v: byte, m: bool)
    requires FreshPair(p) && !p.slave.master
    ensures FreshPair(WriteData(p, v, m)) <==> !GoesStale(p, Data(v, m))
  {
    var c := Of(p, m);
    if c.program.inInit {
      assert WriteData(p, v, m) == With(p, m, Icw(c, v));
      assert SameLatch(c, Icw(c, v));
    } else if m {
      MaskMasterFresh(p, Lines(v));
      assert WriteData(p, v, m) == ServiceMaster(p.(master := c.(imr := Lines(v))));
    } else {
      MaskSlaveFresh(p, Lines(v));
      assert WriteData(p, v, m) == ServiceSlave(p.(slave := c.(imr := Lines(v))));
    }
  }

  /**
   INT stays high only for a line that is waiting, exactly until a device withdraws that
   line, or it is masked while INT stays up for another.
   */
  lemma FreshExactly(p: Pair, op: Op)
    requires FreshPair(p) && !p.slave.master
    ensures FreshPair(Step(p, op)) <==> !GoesStale(p, op)
  {
    match op
    case Raise(n) => RaiseFresh(p, n);
    case Lower(n) => LowerFresh(p, n);
    case Command(v, m) => CommandFresh(p, v, m);
    case Data(v, m) => DataFresh(p, v, m);
    case Read(m) => ReadFresh(p, m);
    case Mode(m, v) =>
    case Inta => IacFresh(p);
    case HardReset =>
  }

  ghost predicate NeverStale(p: Pair, ops: seq<Op>)
    decreases |ops|
  {
    ops == [] || (!GoesStale(p, ops[0]) && NeverStale(Step(p, ops[0]), ops[1..]))
  }

  lemma {:induction false} RunStaysFresh(p: Pair, ops: seq<Op>)
    requires FreshPair(p) && PairProgrammed(p) && NeverStale(p, ops)
    ensures FreshPair(Run(p, ops))
    decreases |ops|
  {
    if ops != [] {
      FreshExactly(p, ops[0]);
      StepStaysProgrammed(p, ops[0]);
      RunStaysFresh(Step(p, ops[0]), ops[1..]);
    }
  }

  /** So in any such run from power-on an acknowledge of a raised INT is never spurious at the master and takes a line that waits. */
  lemma AcknowledgesWhatWaits(ops: seq<Op>) returns (p: Pair)
    requires NeverStale(New(), ops)
    ensures p == Run(New(), ops)
    ensures p.master.intPin ==> !MasterSpurious(p)
    ensures p.master.intPin && p.master.irq != 2 ==>
              var l := Iac(p).vector - p.master.program.offset; 0 <= l < 8 && l in p.master.irr && l !in p.master.imr
  {
    RunStaysFresh(New(), ops);
    p := Run(New(), ops);
    if p.master.intPin {
      assert p.master.irq in p.master.irr - p.master.imr;
      if p.master.irq != 2 {
        MasterVector(p);
        assert Iac(p).vector == p.master.irq + p.master.program.offset;
      }
    }
  }

  lemma OpenThree(p: Pair)
    requires p == New().(master := New().master.(imr := {}))
    ensures var q := Step(Step(Step(p, Raise(3)), Raise(5)), Lower(3));
            q.master == p.master.(irqIn := {5}, irr := {5}, intPin := true, irq := 3)
  {
    OpenMaster(p);
    var q1 := Step(p, Raise(3));
    var q2 := Step(q1, Raise(5));
    assert q2.master == q1.master.(irqIn := {3, 5}, irr := {3, 5});
  }

  /** And otherwise it can: lines 3 and 5 rise and 3 is withdrawn; the vector is still line 3's, and 3 goes into service. */
  lemma StaleLineIsTakenReachably()
    ensures var p := Run(New(), [Data(0, true), Raise(3), Raise(5), Lower(3)]);
            3 !in p.master.irr && Iac(p).vector == 0x0B && 3 in Iac(p).pair.master.isr && 5 in Iac(p).pair.master.irr
  {
    var ops := [Data(0, true), Raise(3), Raise(5), Lower(3)];
    var p1 := Step(New(), ops[0]);
    assert Lines(0) == {};
    assert p1 == New().(master := New().master.(imr := {}));
    OpenThree(p1);
    RunOfFour(New(), ops);
    var p := Run(New(), ops);
    assert p.master.irr - p.master.imr == {5};
    MasterVector(p);
  }
}
