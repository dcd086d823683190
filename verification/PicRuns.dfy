/**
 Whole runs of the interrupt controller pair: no interrupt is lost across the cascade,
 and exactly where one can be stranded.
 */
module PicRuns {
  import opened Base
  import opened Pic8259
  import opened PicPair

  datatype Op =
    | Raise(n: byte)
    | Lower(n: byte)
    | Command(value: byte, isMaster: bool)
    | Data(value: byte, isMaster: bool)
    | Read(isMaster: bool)
    | Mode(isMaster: bool, mode: byte)
    | Inta
    | HardReset

  function Step(p: Pair, op: Op): Pair {
    match op
    case Raise(n) => RaiseIrq(p, n)
    case Lower(n) => LowerIrq(p, n)
    case Command(v, m) => WriteCmd(p, v, m)
    case Data(v, m) => WriteData(p, v, m)
    case Read(m) => ReadPort(p, m)
    case Mode(m, v) => SetMode(p, m, v)
    case Inta => Iac(p).pair
    case HardReset => Reset(p)
  }

  function Run(p: Pair, ops: seq<Op>): Pair
    decreases |ops|
  {
    if ops == [] then p else Run(Step(p, ops[0]), ops[1..])
  }

  // ---- No lost interrupt ----

  /** A chip with INT low has nothing eligible. */
  predicate Settled(c: Chip) {
    c.intPin || EligibleSet(c) == {}
  }

  /** The slave's INT pin and the master's request on line 2 are the same wire. */
  predicate Coherent(p: Pair) {
    && p.master.master && !p.slave.master
    && (p.slave.intPin <==> 2 in p.master.irr)
    && (2 in p.master.irr ==> 2 in p.master.irqIn)
    && 2 !in p.master.edgeLevel
  }

  lemma SaturatedIsQuiet(c: Chip)
    requires Saturated(c)
    ensures EligibleSet(c) == {}
  {
    RankAt(c, 0);
    forall l | l in c.irr ensures !Eligible(c, l) {
      assert Highest(c) == At(c, 0);
    }
  }

  /** Eligibility looks at the registers, not at the INT pin or the latched line. */
  lemma EligibleIgnoresPins(c: Chip, intPin: bool, irq: Line)
    ensures EligibleSet(c.(intPin := intPin, irq := irq)) == EligibleSet(c)
  {
    var d := c.(intPin := intPin, irq := irq);
    assert forall l :: Rank(d, l) == Rank(c, l);
    assert forall l | l in c.irr :: Eligible(d, l) <==> Eligible(c, l);
  }

  lemma MaskedIsQuiet(c: Chip)
    requires c.irr - c.imr == {}
    ensures EligibleSet(c) == {}
  {
    forall l | l in c.irr ensures l in c.imr {
      assert l !in c.irr - c.imr;
    }
  }

  /** Servicing a chip always settles it, whatever state it was in. */
  lemma ServeSettles(c: Chip)
    ensures Settled(Serve(c).chip)
    ensures var r := Serve(c).chip; r == c.(intPin := r.intPin, irq := r.irq)
  {
    if Saturated(c) {
      SaturatedIsQuiet(c);
    } else if c.intPin && c.irr - c.imr == {} {
      MaskedIsQuiet(c);
      EligibleIgnoresPins(c, false, c.irq);
    }
  }

  /** Fewer requests, or special mask mode cancelled: nothing becomes eligible. */
  lemma EligibleShrinks(c: Chip, d: Chip)
    requires d.irr <= c.irr && d.imr == c.imr && d.isr == c.isr && d.lowest == c.lowest
    requires d.specialMask ==> c.specialMask
    ensures EligibleSet(d) <= EligibleSet(c)
    ensures Settled(c) && c.intPin == d.intPin ==> Settled(d)
  {
    forall l | l in EligibleSet(d) ensures l in EligibleSet(c) {
      assert forall s :: Rank(d, s) == Rank(c, s);
    }
  }

  // ---- Servicing keeps the cascade coherent ----

  lemma ServiceMasterKeeps(p: Pair)
    requires Coherent(p)
    ensures Coherent(ServiceMaster(p)) && Settled(ServiceMaster(p).master) && ServiceMaster(p).slave == p.slave
  {
    ServeSettles(p.master);
  }

  /** The slave pulls line 2 up: the request is new to the master, so the master is serviced. */
  lemma CascadeUp(p: Pair)
    requires p.master.master && !p.slave.master && p.slave.intPin && 2 !in p.master.irr && 2 !in p.master.edgeLevel
    ensures var q := SetCascade(p, true); Coherent(q) && Settled(q.master) && q.slave == p.slave
  {
    var c := p.master.(irqIn := p.master.irqIn + {2});
    ServiceMasterKeeps(p.(master := c.(irr := c.irr + {2})));
  }

  /** The slave lets line 2 go: the request is withdrawn with it. */
  lemma CascadeDown(p: Pair)
    requires p.master.master && !p.slave.master && !p.slave.intPin && 2 !in p.master.edgeLevel
    requires 2 in p.master.irr && 2 in p.master.irqIn
    ensures var q := SetCascade(p, false);
            Coherent(q) && (Settled(p.master) ==> Settled(q.master)) && q.slave == p.slave
  {
    EligibleShrinks(p.master, LowerLine(p.master, 2));
  }

  lemma ServiceSlaveKeeps(p: Pair)
    requires Coherent(p)
    ensures var q := ServiceSlave(p);
            Coherent(q) && Settled(q.slave) && (Settled(p.master) ==> Settled(q.master))
  {
    var s := Serve(p.slave);
    ServeSettles(p.slave);
    if s.action == RaiseCascade {
      CascadeUp(p.(slave := s.chip));
    } else if s.action == LowerCascade {
      CascadeDown(p.(slave := s.chip));
    }
  }

  /** A chip about to be serviced may differ in masks, service, priority and modes, not in its wires. */
  predicate SameWires(c: Chip, d: Chip) {
    && d.master == c.master && d.intPin == c.intPin && d.irr == c.irr && d.irqIn == c.irqIn
    && d.edgeLevel == c.edgeLevel
  }

  /** Change one chip and service it. */
  lemma ServicedKeeps(p: Pair, isMaster: bool, d: Chip)
    requires Coherent(p) && SameWires(Of(p, isMaster), d)
    ensures var q := ServiceChip(With(p, isMaster, d), isMaster);
            && Coherent(q) && Settled(Of(q, isMaster))
            && (Settled(Of(p, !isMaster)) ==> Settled(Of(q, !isMaster)))
  {
    if isMaster {
      ServiceMasterKeeps(With(p, true, d));
    } else {
      ServiceSlaveKeeps(With(p, false, d));
    }
  }

  // ---- Every step ----

  /** Commands that reorder priorities without servicing. */
  predicate SetsPriority(op: Op) {
    op.Command? && 0xC0 <= op.value <= 0xC7
  }

  /**
   Line 2 follows the slave's INT, priorities are not reordered behind the chip's
   back, and neither chip is reprogrammed while the slave asserts.
   */
  predicate Permitted(p: Pair, op: Op) {
    match op
    case Raise(n) => n == 2 ==> p.slave.intPin
    case Lower(n) => n == 2 ==> !p.slave.intPin
    case Command(v, _) => !SetsPriority(op) && (HasBit(v, 4) ==> !p.slave.intPin)
    case Mode(m, v) => m ==> 2 !in Lines(v)
    case _ => true
  }

  /** The one exit that leaves the master unserviced, with something eligible left to strand. */
  predicate Exempt(p: Pair, op: Op) {
    op.Inta? && SlaveSpurious(p) && exists l: Line :: Eligible(Reordered(p.master), l) && !Silenced(p.master, l)
  }

  /** What every permitted step keeps, the exempt one included. */
  predicate Wired(p: Pair) {
    Coherent(p) && Settled(p.slave)
  }

  predicate Kept(p: Pair, q: Pair) {
    Wired(q) && (Settled(p.master) ==> Settled(q.master))
  }

  lemma RaiseKeeps(p: Pair, n: byte)
    requires Wired(p) && (n == 2 ==> p.slave.intPin)
    ensures Kept(p, RaiseIrq(p, n))
  {
    if n < 8 {
      var c := p.master.(irqIn := p.master.irqIn + {n});
      EligibleShrinks(p.master, c);
      if n !in c.irr {
        ServiceMasterKeeps(p.(master := c.(irr := c.irr + {n})));
      }
    } else if n < 16 {
      var l: Line := n - 8;
      var c := p.slave.(irqIn := p.slave.irqIn + {l});
      EligibleShrinks(p.slave, c);
      if l !in c.irr {
        ServiceSlaveKeeps(p.(slave := c.(irr := c.irr + {l})));
      }
    }
  }

  lemma LowerKeeps(p: Pair, n: byte)
    requires Wired(p) && (n == 2 ==> !p.slave.intPin)
    ensures Kept(p, LowerIrq(p, n))
  {
    if n < 8 {
      EligibleShrinks(p.master, LowerLine(p.master, n));
    } else if n < 16 {
      EligibleShrinks(p.slave, LowerLine(p.slave, n - 8));
    }
  }

  /** Changes that neither service nor make anything eligible. */
  lemma QuietKeeps(p: Pair, isMaster: bool, d: Chip)
    requires Wired(p) && SameWires(Of(p, isMaster), d)
    requires var c := Of(p, isMaster);
             d.imr == c.imr && d.isr == c.isr && d.lowest == c.lowest && (d.specialMask ==> c.specialMask)
    ensures Kept(p, With(p, isMaster, d))
  {
    EligibleShrinks(Of(p, isMaster), d);
  }

  lemma Ocw2ChipWires(c: Chip, v: byte)
    ensures var d := Ocw2Chip(c, v);
            && SameWires(c, d) && d.imr == c.imr && d.specialMask == c.specialMask
            && (!IsEoi(v) ==> d.isr == c.isr)
            && (!IsEoi(v) && !(0xC0 <= v <= 0xC7) ==> d.lowest == c.lowest)
  {
  }

  lemma Ocw2Keeps(p: Pair, v: byte, isMaster: bool)
    requires Wired(p) && !(0xC0 <= v <= 0xC7)
    ensures Kept(p, Ocw2(p, v, isMaster))
  {
    var d := Ocw2Chip(Of(p, isMaster), v);
    Ocw2ChipWires(Of(p, isMaster), v);
    if IsEoi(v) {
      ServicedKeeps(p, isMaster, d);
    } else {
      QuietKeeps(p, isMaster, d);
    }
  }

  lemma Ocw3ModesAreModes(c: Chip, op: nat, mask: nat)
    ensures var d := Ocw3Modes(c, op, mask);
            && SameWires(c, d) && d.imr == c.imr && d.isr == c.isr && d.lowest == c.lowest
            && (mask != 3 && d.specialMask ==> c.specialMask)
  {
  }

  lemma Ocw3Keeps(p: Pair, v: byte, isMaster: bool)
    requires Wired(p)
    ensures Kept(p, Ocw3(p, v, isMaster))
  {
    var c := Of(p, isMaster);
    if HasBit(v, 2) {
      QuietKeeps(p, isMaster, c.(modes := c.modes.(polled := true)));
    } else {
      var d := Ocw3Modes(c, v % 4, v / 32 % 4);
      Ocw3ModesAreModes(c, v % 4, v / 32 % 4);
      if v / 32 % 4 == 3 {
        ServicedKeeps(p, isMaster, d);
      } else {
        QuietKeeps(p, isMaster, d);
      }
    }
  }

  lemma Icw1Keeps(p: Pair, v: byte, isMaster: bool)
    requires Wired(p) && !p.slave.intPin
    ensures Kept(p, Icw1(p, v, isMaster))
  {
    EligibleShrinks(p.master, p.master.(irqIn := p.master.irqIn - {2}));
  }

  lemma DataKeeps(p: Pair, v: byte, isMaster: bool)
    requires Wired(p)
    ensures Kept(p, WriteData(p, v, isMaster))
  {
    var c := Of(p, isMaster);
    if c.program.inInit {
      QuietKeeps(p, isMaster, Icw(c, v));
    } else {
      ServicedKeeps(p, isMaster, c.(imr := Lines(v)));
    }
  }

  lemma ReadKeeps(p: Pair, isMaster: bool)
    requires Wired(p)
    ensures Kept(p, ReadPort(p, isMaster))
  {
    var c := Of(p, isMaster);
    if c.modes.polled {
      var d := Retire(c);
      ServicedKeeps(p, isMaster, d.(modes := d.modes.(polled := false)));
    }
  }

  lemma ModeKeeps(p: Pair, isMaster: bool, v: byte)
    requires Wired(p) && (isMaster ==> 2 !in Lines(v))
    ensures Kept(p, SetMode(p, isMaster, v))
  {
    var c := Of(p, isMaster);
    EligibleShrinks(c, c.(edgeLevel := Lines(v)));
  }

  lemma IacCascadeSound(p: Pair)
    requires p.master.master && !p.slave.master && 2 !in p.master.irr && 2 !in p.master.edgeLevel
    ensures var q := IacCascade(p).pair;
            && Coherent(q) && Settled(q.slave)
            && (p.slave.irr - p.slave.imr != {} ==> Settled(q.master))
  {
    var r := p.(master := p.master.(irqIn := p.master.irqIn - {2}), slave := p.slave.(intPin := false));
    if r.slave.irr - r.slave.imr == {} {
      MaskedIsQuiet(r.slave);
    } else {
      var s := r.(slave := Acknowledge(r.slave));
      assert Coherent(s);
      ServiceSlaveKeeps(s);
      ServiceMasterKeeps(ServiceSlave(s));
    }
  }

  /** An acknowledge keeps the wires in step always, and settles the master unless the slave came up empty. */
  lemma IntaKeeps(p: Pair)
    requires Wired(p)
    ensures Wired(Iac(p).pair) && (!SlaveSpurious(p) ==> Settled(Iac(p).pair.master))
  {
    if MasterSpurious(p) {
      var q := p.master.(intPin := false);
      MaskedIsQuiet(q);
    } else if p.master.irq != 2 {
      assert Coherent(Taken(p));
      ServiceMasterKeeps(Taken(p));
    } else {
      IacCascadeSound(Taken(p));
    }
  }

  lemma StepKeeps(p: Pair, op: Op)
    requires Wired(p) && Permitted(p, op)
    ensures Wired(Step(p, op))
    ensures !Exempt(p, op) ==> Kept(p, Step(p, op))
  {
    match op
    case Raise(n) => RaiseKeeps(p, n);
    case Lower(n) => LowerKeeps(p, n);
    case Command(v, m) =>
      if HasBit(v, 4) {
        Icw1Keeps(p, v, m);
      } else if v / 8 % 4 == 1 {
        Ocw3Keeps(p, v, m);
      } else {
        Ocw2Keeps(p, v, m);
      }
    case Data(v, m) => DataKeeps(p, v, m);
    case Read(m) => ReadKeeps(p, m);
    case Mode(m, v) => ModeKeeps(p, m, v);
    case Inta =>
      IntaKeeps(p);
      if SlaveSpurious(p) {
        SlaveSpuriousStrandsUnlessSilenced(p);
      }
    case HardReset =>
  }

  /** The slave's INT comes up, and with it a new request at the master. */
  predicate RaisesCascade(p: Pair, op: Op) {
    !p.slave.intPin && Step(p, op).slave.intPin
  }

  predicate SetsSpecialMask(v: byte) {
    !HasBit(v, 4) && v / 8 % 4 == 1 && !HasBit(v, 2) && v / 32 % 4 == 3
  }

  /** Steps after which the master is settled whatever state it was in: those that service it or empty it. */
  predicate ServicesMaster(p: Pair, op: Op) {
    RaisesCascade(p, op) ||
    match op
    case Raise(n) => n < 8 && n !in p.master.irr
    case Inta => !SlaveSpurious(p)
    case Data(_, m) => m && !p.master.program.inInit
    case Command(v, m) => m && (HasBit(v, 4) || SetsSpecialMask(v) || IsEoi(v))
    case Read(m) => m && p.master.modes.polled
    case HardReset => true
    case _ => false
  }

  lemma EoiIsNoIcw(v: byte)
    requires IsEoi(v)
    ensures !HasBit(v, 4) && v / 8 % 4 != 1
  {
    assert HasBit(v, 4) == HasBit(v / 2 / 2, 2) == HasBit(v / 2 / 2 / 2 / 2, 0);
  }

  lemma ServiceSlaveRaises(p: Pair)
    requires Coherent(p) && !p.slave.intPin && ServiceSlave(p).slave.intPin
    ensures Settled(ServiceSlave(p).master)
  {
    var s := Serve(p.slave);
    assert s.action == RaiseCascade;
    CascadeUp(p.(slave := s.chip));
  }

  lemma SlaveWriteRaises(p: Pair, d: Chip)
    requires Coherent(p) && SameWires(p.slave, d) && !p.slave.intPin && ServiceSlave(With(p, false, d)).slave.intPin
    ensures Settled(ServiceSlave(With(p, false, d)).master)
  {
    ServiceSlaveRaises(With(p, false, d));
  }

  lemma SlaveCommandRaises(p: Pair, v: byte, m: bool)
    requires Wired(p) && !p.slave.intPin && WriteCmd(p, v, m).slave.intPin
    ensures Settled(WriteCmd(p, v, m).master)
  {
    var c := p.slave;
    assert !m;
    if !HasBit(v, 4) && v / 8 % 4 == 1 {
      Ocw3ModesAreModes(c, v % 4, v / 32 % 4);
      SlaveWriteRaises(p, Ocw3Modes(c, v % 4, v / 32 % 4));
    } else {
      Ocw2ChipWires(c, v);
      SlaveWriteRaises(p, Ocw2Chip(c, v));
    }
  }

  lemma SlaveRaiseRaises(p: Pair, n: byte)
    requires Wired(p) && !p.slave.intPin && RaiseIrq(p, n).slave.intPin
    ensures Settled(RaiseIrq(p, n).master)
  {
    assert 8 <= n < 16;
    var c, l: Line := p.slave, n - 8;
    ServiceSlaveRaises(p.(slave := c.(irqIn := c.irqIn + {l}, irr := c.irr + {l})));
  }

  lemma SlaveDataRaises(p: Pair, v: byte, m: bool)
    requires Wired(p) && !p.slave.intPin && WriteData(p, v, m).slave.intPin
    ensures Settled(WriteData(p, v, m).master)
  {
    assert !m;
    SlaveWriteRaises(p, p.slave.(imr := Lines(v)));
  }

  lemma SlaveReadRaises(p: Pair, m: bool)
    requires Wired(p) && !p.slave.intPin && ReadPort(p, m).slave.intPin
    ensures Settled(ReadPort(p, m).master)
  {
    assert !m;
    var d := Retire(p.slave);
    SlaveWriteRaises(p, d.(modes := d.modes.(polled := false)));
  }

  lemma AcknowledgeRaises(p: Pair)
    requires Wired(p) && !p.slave.intPin && Iac(p).pair.slave.intPin
    ensures Settled(Iac(p).pair.master)
  {
    IntaKeeps(p);
    assert !SlaveSpurious(p);
  }

  lemma CascadeRaisedSettles(p: Pair, op: Op)
    requires Wired(p) && RaisesCascade(p, op)
    ensures Settled(Step(p, op).master)
  {
    match op
    case Raise(n) => SlaveRaiseRaises(p, n);
    case Command(v, m) => SlaveCommandRaises(p, v, m);
    case Data(v, m) => SlaveDataRaises(p, v, m);
    case Read(m) => SlaveReadRaises(p, m);
    case Inta => AcknowledgeRaises(p);
  }

  lemma MasterCommandSettles(p: Pair, v: byte)
    requires Wired(p) && (HasBit(v, 4) || SetsSpecialMask(v) || IsEoi(v))
    ensures Settled(WriteCmd(p, v, true).master)
  {
    if HasBit(v, 4) {
      MaskedIsQuiet(Icw1(p, v, true).master);
    } else if SetsSpecialMask(v) {
      Ocw3ModesAreModes(p.master, v % 4, 3);
      ServicedKeeps(p, true, Ocw3Modes(p.master, v % 4, 3));
    } else {
      EoiIsNoIcw(v);
      EoiSettles(p, v);
    }
  }

  lemma ServicedIsSettled(p: Pair, op: Op)
    requires ServicesMaster(p, op) && Wired(p)
    ensures Settled(Step(p, op).master)
  {
    if RaisesCascade(p, op) {
      CascadeRaisedSettles(p, op);
    } else {
      match op
      case Raise(n) => ServeSettles(p.master.(irqIn := p.master.irqIn + {n}, irr := p.master.irr + {n}));
      case Inta => IntaKeeps(p);
      case Data(v, m) => ServicedKeeps(p, true, p.master.(imr := Lines(v)));
      case Command(v, m) => MasterCommandSettles(p, v);
      case Read(m) => ServicedKeeps(p, true, Retire(p.master).(modes := Retire(p.master).modes.(polled := false)));
      case HardReset =>
    }
  }

  lemma EoiSettles(p: Pair, v: byte)
    requires IsEoi(v) && Coherent(p)
    ensures Settled(Ocw2(p, v, true).master)
  {
    Ocw2ChipWires(p.master, v);
    ServicedKeeps(p, true, Ocw2Chip(p.master, v));
  }

  // ---- Runs ----

  ghost predicate RunPermitted(p: Pair, ops: seq<Op>)
    decreases |ops|
  {
    ops == [] || (Permitted(p, ops[0]) && RunPermitted(Step(p, ops[0]), ops[1..]))
  }

  /** Whether a slave-spurious exit still owes the master a service at the end of the run. */
  function Owed(p: Pair, ops: seq<Op>, owed: bool): bool
    decreases |ops|
  {
    if ops == [] then owed
    else Owed(Step(p, ops[0]), ops[1..], Exempt(p, ops[0]) || (owed && !ServicesMaster(p, ops[0])))
  }

  lemma {:induction false} RunKeeps(p: Pair, ops: seq<Op>, owed: bool)
    requires Wired(p) && RunPermitted(p, ops) && (owed || Settled(p.master))
    ensures Wired(Run(p, ops)) && (Owed(p, ops, owed) || Settled(Run(p, ops).master))
    decreases |ops|
  {
    if ops != [] {
      StepKeeps(p, ops[0]);
      if ServicesMaster(p, ops[0]) {
        ServicedIsSettled(p, ops[0]);
      }
      RunKeeps(Step(p, ops[0]), ops[1..], Exempt(p, ops[0]) || (owed && !ServicesMaster(p, ops[0])));
    }
  }

  /**
   No interrupt is lost across the cascade. At any point of any permitted run, if
   the slave has an eligible request then its INT is high and line 2 is requested at
   the master; and if the master has an eligible request, the cascade's or another,
   it is asserting INT, unless a slave-spurious exit stranded a request and nothing has
   serviced or emptied the master since.
   */
  lemma NoLostInterrupt(ops: seq<Op>)
    requires RunPermitted(New(), ops)
    ensures var p := Run(New(), ops);
            && (EligibleSet(p.slave) != {} ==> p.slave.intPin && 2 in p.master.irr)
            && (EligibleSet(p.master) != {} && !Owed(New(), ops, false) ==> p.master.intPin)
            && (EligibleSet(p.slave) != {} && Eligible(p.master, 2) && !Owed(New(), ops, false) ==> p.master.intPin)
  {
    RunKeeps(New(), ops, false);
    var p := Run(New(), ops);
    if Eligible(p.master, 2) {
      assert 2 in EligibleSet(p.master);
    }
  }

  // ---- Where it can go wrong ----

  /**
   Outside special mask mode a chip has nothing eligible exactly when nothing is
   requested and unmasked, or the first line in service is at least as urgent as the
   first such request.
   */
  lemma QuietExactlyWhenOutranked(c: Chip)
    requires !c.specialMask
    ensures EligibleSet(c) == {} <==>
            || c.irr - c.imr == {}
            || (c.isr != {} && Rank(c, MostUrgent(c, c.isr)) <= Rank(c, MostUrgent(c, c.irr - c.imr)))
  {
    var wanted := c.irr - c.imr;
    if wanted == {} {
      MaskedIsQuiet(c);
    } else {
      var l := MostUrgent(c, wanted);
      if c.isr == {} || Rank(c, l) < Rank(c, MostUrgent(c, c.isr)) {
        assert l in EligibleSet(c);
      } else {
        var s := MostUrgent(c, c.isr);
        forall m | m in c.irr ensures !Eligible(c, m) {
          assert m in c.imr || m in wanted;
        }
      }
    }
  }

  /** The order in force once the cascade is acknowledged. */
  function Reordered(c: Chip): Chip {
    if c.autoEoi && c.modes.rotateOnAutoEoi then c.(lowest := 2) else c
  }

  /** Lines the acknowledged cascade silences: itself when its request is consumed, and without automatic EOI those it outranks. */
  predicate Silenced(c: Chip, l: Line) {
    || (l == 2 && (2 !in c.edgeLevel || !c.autoEoi))
    || (!c.autoEoi && !c.specialMask && Rank(c, 2) < Rank(c, l))
  }

  lemma SpuriousMaster(p: Pair)
    requires SlaveSpurious(p)
    ensures var d := Acknowledge(p.master.(intPin := false));
            Iac(p).pair.master == d.(irqIn := d.irqIn - {2}) && !d.intPin
  {
  }

  /** What is left eligible on a chip once line 2 is acknowledged. */
  lemma AcknowledgedEligible(c: Chip, l: Line)
    requires c.irq == 2
    ensures Eligible(Acknowledge(c), l) <==> Eligible(Reordered(c), l) && !Silenced(c, l)
  {
    var d, r := Acknowledge(c), Reordered(c);
    assert d.lowest == r.lowest && d.imr == r.imr && d.specialMask == r.specialMask;
    assert l in d.irr <==> l in c.irr && !(l == 2 && 2 !in c.edgeLevel);
    if c.autoEoi {
      assert d.isr == c.isr;
      assert forall m :: Rank(d, m) == Rank(r, m);
    } else {
      assert d.isr == c.isr + {2} && r == c;
      assert forall m :: Rank(d, m) == Rank(c, m);
      if !c.specialMask && l != 2 {
        assert Rank(c, l) != Rank(c, 2);
      }
    }
  }

  lemma EligibleIgnoresLines(c: Chip, lines: set<Line>, l: Line)
    ensures Eligible(c.(irqIn := lines, intPin := false), l) <==> Eligible(c, l)
  {
    assert forall m :: Rank(c.(irqIn := lines, intPin := false), m) == Rank(c, m);
  }

  lemma SpuriousEligible(p: Pair, l: Line)
    requires SlaveSpurious(p)
    ensures !Iac(p).pair.master.intPin
    ensures Eligible(Iac(p).pair.master, l) <==> Eligible(Reordered(p.master), l) && !Silenced(p.master, l)
  {
    var c := p.master;
    var d := Acknowledge(c);
    SpuriousMaster(p);
    AcknowledgedEligible(c, l);
    EligibleIgnoresLines(d, d.irqIn - {2}, l);
    assert Iac(p).pair.master == d.(irqIn := d.irqIn - {2}, intPin := false);
  }

  /** The slave-spurious exit leaves the master settled exactly when the cascade silences everything eligible. */
  lemma SlaveSpuriousStrandsUnlessSilenced(p: Pair)
    requires SlaveSpurious(p)
    ensures Settled(Iac(p).pair.master) <==> forall l :: Eligible(Reordered(p.master), l) ==> Silenced(p.master, l)
  {
    var d := Iac(p).pair.master;
    forall l: Line ensures Eligible(d, l) <==> Eligible(Reordered(p.master), l) && !Silenced(p.master, l) {
      SpuriousEligible(p, l);
    }
    SpuriousEligible(p, 0);
    if Settled(d) {
      forall l | Eligible(Reordered(p.master), l) ensures Silenced(p.master, l) {
        assert l !in EligibleSet(d);
      }
    }
  }

  /** A pair in which that happens is two device edges away from programming both masks open. */
  lemma SlaveSpuriousIsReachable()
    ensures var p := Run(New(), [Data(0, true), Data(0, false), Raise(8), Raise(0), Lower(8)]);
            SlaveSpurious(p) && !Settled(Iac(p).pair.master)
  {
    var ops := [Data(0, true), Data(0, false), Raise(8), Raise(0), Lower(8)];
    var p1 := Step(New(), Data(0, true));
    assert Lines(0) == {};
    assert p1 == New().(master := New().master.(imr := {}));
    var p2 := Step(p1, Data(0, false));
    assert p2 == p1.(slave := p1.slave.(imr := {}));
    var p3 := Step(p2, Raise(8));
    OpenPairRaise(p2);
    var p4 := Step(p3, Raise(0));
    assert p4 == p3.(master := p3.master.(irqIn := {0, 2}, irr := {0, 2}));
    var p5 := Step(p4, Lower(8));
    assert p5 == p4.(slave := p4.slave.(irqIn := {}, irr := {}));
    RunOfFive(New(), ops);
    assert Eligible(Reordered(p5.master), 0) && !Silenced(p5.master, 0);
    SlaveSpuriousStrandsUnlessSilenced(p5);
  }

  lemma OpenPairRaise(p: Pair)
    requires p == New().(master := New().master.(imr := {}), slave := New().slave.(imr := {}))
    ensures RaiseIrq(p, 8) ==
            p.(irqPending := true,
               master := p.master.(irqIn := {2}, irr := {2}, intPin := true, irq := 2),
               slave := p.slave.(irqIn := {0}, irr := {0}, intPin := true, irq := 0))
  {
    var c := p.slave.(irqIn := {0}, irr := {0});
    OnlyRequest(c, 0);
    var d := p.master.(irqIn := {2}, irr := {2});
    OnlyRequest(d, 2);
  }

  lemma OnlyRequest(c: Chip, l: Line)
    requires c.irr == {l} && c.imr == {} && c.isr == {} && !c.intPin && !c.specialMask
    ensures Serve(c).chip == c.(intPin := true, irq := l)
    ensures Serve(c).action == if c.master then RaiseIntr else RaiseCascade
  {
    assert EligibleSet(c) == {l};
  }

  lemma RunOfFive(p: Pair, ops: seq<Op>)
    requires |ops| == 5
    ensures Run(p, ops) == Step(Step(Step(Step(Step(p, ops[0]), ops[1]), ops[2]), ops[3]), ops[4])
  {
    var p1 := Step(p, ops[0]);
    var p2 := Step(p1, ops[1]);
    var p3 := Step(p2, ops[2]);
    var p4 := Step(p3, ops[3]);
    assert ops[0..] == ops;
    RunFrom(p, ops, 0);
    RunFrom(p1, ops, 1);
    RunFrom(p2, ops, 2);
    RunFrom(p3, ops, 3);
    RunFrom(p4, ops, 4);
    assert ops[5..] == [];
  }

  lemma RunOfFour(p: Pair, ops: seq<Op>)
    requires |ops| == 4
    ensures Run(p, ops) == Step(Step(Step(Step(p, ops[0]), ops[1]), ops[2]), ops[3])
  {
    var p1 := Step(p, ops[0]);
    var p2 := Step(p1, ops[1]);
    var p3 := Step(p2, ops[2]);
    assert ops[0..] == ops && ops[4..] == [];
    RunFrom(p, ops, 0);
    RunFrom(p1, ops, 1);
    RunFrom(p2, ops, 2);
    RunFrom(p3, ops, 3);
  }

  lemma RunFrom(p: Pair, ops: seq<Op>, k: nat)
    requires k < |ops|
    ensures Run(p, ops[k..]) == Run(Step(p, ops[k]), ops[k + 1..])
  {
    assert ops[k..][0] == ops[k] && ops[k..][1..] == ops[k + 1..];
  }

  /** In special mask mode a chip has nothing eligible exactly when every unmasked request is already in service. */
  lemma QuietUnderSpecialMask(c: Chip)
    requires c.specialMask
    ensures EligibleSet(c) == {} <==> c.irr - c.imr <= c.isr
  {
    if EligibleSet(c) == {} {
      forall l | l in c.irr - c.imr ensures l in c.isr {
        assert l !in EligibleSet(c);
      }
    }
  }

  /**
   Reordering priorities is not followed by a service, so it can strand a request. It
   leaves the chip settled exactly when INT was high already, or nothing was requested
   unmasked, or every such request was in service or, outside special mask mode, the
   first line in service comes no later in the new order than the first such request.
   */
  lemma SetPriorityStrandsUnlessOutranked(p: Pair, v: byte, isMaster: bool)
    requires 0xC0 <= v <= 0xC7
    ensures var c := Of(p, isMaster);
            var reordered, wanted := c.(lowest := v - 0xC0), c.irr - c.imr;
            Settled(Of(Ocw2(p, v, isMaster), isMaster)) <==>
            || c.intPin || wanted == {}
            || (if c.specialMask then wanted <= c.isr
                else c.isr != {} && Rank(reordered, MostUrgent(reordered, c.isr)) <= Rank(reordered, MostUrgent(reordered, wanted)))
  {
    var c := Of(p, isMaster);
    var reordered := c.(lowest := v - 0xC0);
    assert Of(Ocw2(p, v, isMaster), isMaster) == reordered;
    if c.specialMask {
      QuietUnderSpecialMask(reordered);
    } else {
      QuietExactlyWhenOutranked(reordered);
    }
  }

  lemma OpenMaster(p: Pair)
    requires p == New().(master := New().master.(imr := {}))
    ensures Step(p, Raise(3)) ==
            p.(irqPending := true, master := p.master.(irqIn := {3}, irr := {3}, intPin := true, irq := 3))
  {
    var c := p.master.(irqIn := {3}, irr := {3});
    OnlyRequest(c, 3);
  }

  lemma AcknowledgeThree(p: Pair)
    requires p.master == New().master.(imr := {}, irqIn := {3}, irr := {3}, intPin := true, irq := 3)
    ensures Step(p, Inta) == p.(irqCleared := true, master := p.master.(irr := {}, isr := {3}, intPin := false))
  {
    var c := p.master.(irr := {}, isr := {3}, intPin := false);
    MaskedIsQuiet(c);
    assert p.master.irr - p.master.imr == {3};
  }

  lemma FiveWaits(p: Pair)
    requires p.master == New().master.(imr := {}, irqIn := {3}, isr := {3}, irq := 3)
    ensures Step(p, Raise(5)) == p.(master := p.master.(irqIn := {3, 5}, irr := {5}))
  {
    var c := p.master.(irqIn := {3, 5}, irr := {5});
    assert p.master.irqIn + {5} == {3, 5};
    assert Rank(c, 5) == 5 && Rank(c, 3) == 3;
    assert !Eligible(c, 5);
    assert EligibleSet(c) == {};
  }

  /** A short run from power-on ends in such a stranding: line 3 in service, line 5 waiting behind it, then put ahead. */
  lemma SetPriorityStrandsReachably()
    ensures !Settled(Run(New(), [Data(0, true), Raise(3), Inta, Raise(5), Command(0xC4, true)]).master)
  {
    var ops := [Data(0, true), Raise(3), Inta, Raise(5), Command(0xC4, true)];
    var p1 := Step(New(), Data(0, true));
    assert Lines(0) == {};
    assert p1 == New().(master := New().master.(imr := {}));
    var p2 := Step(p1, Raise(3));
    OpenMaster(p1);
    var p3 := Step(p2, Inta);
    AcknowledgeThree(p2);
    var p4 := Step(p3, Raise(5));
    FiveWaits(p3);
    var p5 := Step(p4, Command(0xC4, true));
    assert p5 == p4.(master := p4.master.(lowest := 4));
    assert Rank(p5.master, 5) == 0 && Rank(p5.master, 3) == 6;
    assert 5 in EligibleSet(p5.master);
    RunOfFive(New(), ops);
  }

  lemma RaiseTwoExactly(p: Pair)
    requires Wired(p)
    ensures Wired(RaiseIrq(p, 2)) <==> p.slave.intPin
  {
    var c := p.master.(irqIn := p.master.irqIn + {2});
    if !p.slave.intPin {
      ServeSettles(c.(irr := c.irr + {2}));
    }
  }

  /** Initializing either chip while the slave asserts parts line 2 from the slave's INT, and otherwise does not. */
  lemma Icw1Exactly(p: Pair, v: byte, isMaster: bool)
    requires Wired(p)
    ensures Wired(Icw1(p, v, isMaster)) <==> !p.slave.intPin
  {
    if !p.slave.intPin {
      Icw1Keeps(p, v, isMaster);
    }
  }

  /** Apart from reordering priorities, a step keeps line 2 and the slave's INT in step exactly when it is permitted. */
  lemma WiresExactly(p: Pair, op: Op)
    requires Wired(p) && !SetsPriority(op)
    ensures Wired(Step(p, op)) <==> Permitted(p, op)
  {
    if Permitted(p, op) {
      StepKeeps(p, op);
    } else if op.Raise? {
      RaiseTwoExactly(p);
    } else if op.Command? {
      Icw1Exactly(p, op.value, op.isMaster);
    }
  }

  /** From power-on: the slave has a request, the master is initialized, and nothing at the master tells of it any more. */
  lemma ReprogrammingLosesReachably()
    ensures var p := Run(New(), [Data(0, true), Data(0, false), Raise(8), Command(0x10, true)]);
            0 in EligibleSet(p.slave) && 2 !in p.master.irr && !p.master.intPin
  {
    var ops := [Data(0, true), Data(0, false), Raise(8), Command(0x10, true)];
    var p1 := Step(New(), Data(0, true));
    assert Lines(0) == {};
    assert p1 == New().(master := New().master.(imr := {}));
    var p2 := Step(p1, Data(0, false));
    assert p2 == p1.(slave := p1.slave.(imr := {}));
    var p3 := Step(p2, Raise(8));
    OpenPairRaise(p2);
    assert HasBit(0x10, 4);
    RunOfFour(New(), ops);
    assert 0 in EligibleSet(p3.slave);
  }
}
