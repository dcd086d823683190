/**
 Fully nested service is a stack. With fixed priority, manual end of interrupt and
 no special mask, and acknowledging only while INT is high, the levels in service at
 the master are exactly those acknowledged and not yet retired, each outranking the
 one before, and a non-specific end of interrupt retires the latest.
 */
module PicNesting {
  import opened Base
  import opened Pic8259
  import opened PicPair
  import opened PicRuns

  /** `stack` lists the levels in service in the order they were acknowledged. */
  ghost predicate Nested(c: Chip, stack: seq<Line>) {
    && c.lowest == 7 && !c.specialMask && !c.autoEoi
    && (forall i, j :: 0 <= i < j < |stack| ==> stack[j] < stack[i])
    && (forall l :: l in c.isr <==> l in stack)
    && (c.intPin ==> forall l | l in c.isr :: c.irq < l)
  }

  function Pop(stack: seq<Line>): seq<Line> {
    if stack == [] then [] else stack[..|stack| - 1]
  }

  function Without(stack: seq<Line>, l: Line): seq<Line> {
    if stack == [] then []
    else if stack[0] == l then Without(stack[1..], l)
    else [stack[0]] + Without(stack[1..], l)
  }

  /** The history of acknowledges and retirements, told without looking at the in-service register. */
  function StackStep(stack: seq<Line>, p: Pair, op: Op): seq<Line> {
    match op
    case Inta => if MasterSpurious(p) then stack else stack + [p.master.irq]
    case Command(v, m) =>
      if !m then stack
      else if HasBit(v, 4) then []
      else if v / 8 % 4 == 1 then stack
      else if v == 0x20 then Pop(stack)
      else if 0x60 <= v <= 0x67 then Without(stack, v - 0x60)
      else stack
    case Read(m) => if m && p.master.modes.polled then Pop(stack) else stack
    case HardReset => []
    case _ => stack
  }

  /** Commands that would leave fixed priority, manual end of interrupt or normal masking. */
  predicate KeepsFixedPriority(p: Pair, op: Op) {
    match op
    case Inta => p.master.intPin
    case Command(v, m) =>
      m && !HasBit(v, 4) ==>
        && v != 0xA0 && !(0xC0 <= v <= 0xC7) && !(0xE0 <= v <= 0xE7)
        && !(v / 8 % 4 == 1 && v / 32 % 4 == 3)
    case Data(v, m) => m && p.master.program.inInit && p.master.program.byteExpected == 4 ==> !HasBit(v, 1)
    case _ => true
  }

  // ---- The chip ----

  lemma FixedRank(c: Chip, l: Line)
    requires c.lowest == 7
    ensures Rank(c, l) == l
  {
  }

  lemma ServeNests(c: Chip, stack: seq<Line>)
    requires Nested(c, stack)
    ensures Nested(Serve(c).chip, stack)
  {
    var r := Serve(c).chip;
    if r.intPin && !c.intPin {
      forall l | l in c.isr ensures r.irq < l {
        assert Eligible(c, r.irq);
        FixedRank(c, l);
        FixedRank(c, r.irq);
      }
    }
  }

  lemma RetireNests(c: Chip, stack: seq<Line>)
    requires Nested(c, stack)
    ensures Nested(Retire(c), Pop(stack))
    ensures stack != [] ==> c.isr != {} && MostUrgent(c, c.isr) == stack[|stack| - 1]
  {
    if stack != [] {
      var top := stack[|stack| - 1];
      assert top in c.isr;
      forall m | m in c.isr ensures Rank(c, top) <= Rank(c, m) {
        FixedRank(c, top);
        FixedRank(c, m);
      }
      MostUrgentIsUnique(c, c.isr, top, MostUrgent(c, c.isr));
      forall l ensures l in Retire(c).isr <==> l in Pop(stack) {
        assert l in stack <==> l == top || l in Pop(stack);
      }
    } else {
      assert c.isr == {};
    }
  }

  lemma {:induction false} WithoutRemoves(stack: seq<Line>, l: Line)
    requires forall i, j :: 0 <= i < j < |stack| ==> stack[j] < stack[i]
    ensures forall m :: m in Without(stack, l) <==> m in stack && m != l
    ensures forall i, j :: 0 <= i < j < |Without(stack, l)| ==> Without(stack, l)[j] < Without(stack, l)[i]
  {
    if stack != [] {
      var rest := Without(stack[1..], l);
      WithoutRemoves(stack[1..], l);
      forall m ensures m in stack <==> m == stack[0] || m in stack[1..] {
      }
      forall j | 0 <= j < |rest| ensures rest[j] < stack[0] {
        assert rest[j] in rest;
      }
    }
  }

  lemma SpecificRetireNests(c: Chip, stack: seq<Line>, l: Line)
    requires Nested(c, stack)
    ensures Nested(c.(isr := c.isr - {l}), Without(stack, l))
  {
    WithoutRemoves(stack, l);
  }

  /** The level acknowledged outranks everything in service. */
  lemma AcknowledgeNests(c: Chip, stack: seq<Line>)
    requires Nested(c, stack) && c.intPin
    ensures forall k :: 0 <= k < |stack| ==> c.irq < stack[k]
    ensures Nested(Acknowledge(c.(intPin := false)), stack + [c.irq])
  {
    forall k | 0 <= k < |stack| ensures c.irq < stack[k] {
      assert stack[k] in c.isr;
    }
  }

  // ---- The pair ----

  lemma ServiceMasterNests(p: Pair, stack: seq<Line>)
    requires Nested(p.master, stack)
    ensures Nested(ServiceMaster(p).master, stack)
  {
    ServeNests(p.master, stack);
  }

  lemma RaiseMasterNests(p: Pair, l: Line, stack: seq<Line>)
    requires Nested(p.master, stack)
    ensures Nested(RaiseMaster(p, l).master, stack)
  {
    var c := p.master.(irqIn := p.master.irqIn + {l});
    if l !in c.irr {
      ServiceMasterNests(p.(master := c.(irr := c.irr + {l})), stack);
    }
  }

  lemma ServiceSlaveNests(p: Pair, stack: seq<Line>)
    requires Nested(p.master, stack)
    ensures Nested(ServiceSlave(p).master, stack)
  {
    RaiseMasterNests(p.(slave := Serve(p.slave).chip), 2, stack);
  }

  lemma ServiceChipNests(p: Pair, isMaster: bool, stack: seq<Line>)
    requires Nested(p.master, stack)
    ensures Nested(ServiceChip(p, isMaster).master, stack)
  {
    if isMaster {
      ServiceMasterNests(p, stack);
    } else {
      ServiceSlaveNests(p, stack);
    }
  }

  lemma IacCascadeNests(p: Pair, stack: seq<Line>)
    requires Nested(p.master, stack)
    ensures Nested(IacCascade(p).pair.master, stack)
  {
    var r := p.(master := p.master.(irqIn := p.master.irqIn - {2}), slave := p.slave.(intPin := false));
    if r.slave.irr - r.slave.imr != {} {
      var s := r.(slave := Acknowledge(r.slave));
      ServiceSlaveNests(s, stack);
      ServiceMasterNests(ServiceSlave(s), stack);
    }
  }

  lemma IntaNests(p: Pair, stack: seq<Line>)
    requires Nested(p.master, stack) && p.master.intPin
    ensures Nested(Iac(p).pair.master, StackStep(stack, p, Inta))
    ensures !MasterSpurious(p) ==> forall k :: 0 <= k < |stack| ==> p.master.irq < stack[k]
  {
    AcknowledgeNests(p.master, stack);
    if !MasterSpurious(p) {
      var pushed := stack + [p.master.irq];
      if p.master.irq != 2 {
        ServiceMasterNests(Taken(p), pushed);
      } else {
        IacCascadeNests(Taken(p), pushed);
      }
    }
  }

  lemma SlaveCommandNests(p: Pair, v: byte, stack: seq<Line>)
    requires Nested(p.master, stack)
    ensures Nested(WriteCmd(p, v, false).master, stack)
  {
    if !HasBit(v, 4) {
      var c := p.slave;
      if v / 8 % 4 == 1 {
        ServiceSlaveNests(With(p, false, Ocw3Modes(c, v % 4, v / 32 % 4)), stack);
      } else {
        ServiceSlaveNests(With(p, false, Ocw2Chip(c, v)), stack);
      }
    }
  }

  lemma MasterCommandNests(p: Pair, v: byte, stack: seq<Line>)
    requires Nested(p.master, stack) && KeepsFixedPriority(p, Command(v, true))
    ensures Nested(WriteCmd(p, v, true).master, StackStep(stack, p, Command(v, true)))
  {
    var c := p.master;
    if HasBit(v, 4) {
    } else if v / 8 % 4 == 1 {
      if !HasBit(v, 2) {
        Ocw3ModesAreModes(c, v % 4, v / 32 % 4);
      }
    } else {
      assert WriteCmd(p, v, true) == Ocw2(p, v, true);
      MasterOcw2Nests(p, v, stack);
    }
  }

  lemma MasterOcw2Nests(p: Pair, v: byte, stack: seq<Line>)
    requires Nested(p.master, stack) && v != 0xA0 && !(0xC0 <= v <= 0xC7) && !(0xE0 <= v <= 0xE7)
    ensures Nested(Ocw2(p, v, true).master,
                   if v == 0x20 then Pop(stack) else if 0x60 <= v <= 0x67 then Without(stack, v - 0x60) else stack)
  {
    var c := p.master;
    if v == 0x20 {
      RetireNests(c, stack);
      ServiceMasterNests(With(p, true, Retire(c)), Pop(stack));
    } else if 0x60 <= v <= 0x67 {
      SpecificRetireNests(c, stack, v - 0x60);
      ServiceMasterNests(With(p, true, c.(isr := c.isr - {v - 0x60})), Without(stack, v - 0x60));
    }
  }

  lemma RaiseNests(p: Pair, n: byte, stack: seq<Line>)
    requires Nested(p.master, stack)
    ensures Nested(RaiseIrq(p, n).master, stack)
  {
    if n < 8 {
      RaiseMasterNests(p, n, stack);
    } else if n < 16 {
      var l: Line := n - 8;
      var c := p.slave.(irqIn := p.slave.irqIn + {l});
      ServiceSlaveNests(p.(slave := c.(irr := c.irr + {l})), stack);
    }
  }

  lemma DataNests(p: Pair, v: byte, m: bool, stack: seq<Line>)
    requires Nested(p.master, stack) && KeepsFixedPriority(p, Data(v, m))
    ensures Nested(WriteData(p, v, m).master, stack)
  {
    var c := Of(p, m);
    if !c.program.inInit {
      ServiceChipNests(With(p, m, c.(imr := Lines(v))), m, stack);
    }
  }

  lemma ReadNests(p: Pair, m: bool, stack: seq<Line>)
    requires Nested(p.master, stack)
    ensures Nested(ReadPort(p, m).master, StackStep(stack, p, Read(m)))
  {
    if Of(p, m).modes.polled {
      var d := Retire(Of(p, m));
      var q := With(p, m, d.(modes := d.modes.(polled := false)));
      RetireNests(p.master, stack);
      assert ReadPort(p, m) == ServiceChip(q, m);
      ServiceChipNests(q, m, StackStep(stack, p, Read(m)));
    } else {
      assert ReadPort(p, m) == p;
    }
  }

  lemma StepNests(p: Pair, op: Op, stack: seq<Line>)
    requires Nested(p.master, stack) && KeepsFixedPriority(p, op)
    ensures Nested(Step(p, op).master, StackStep(stack, p, op))
  {
    match op
    case Raise(n) => RaiseNests(p, n, stack);
    case Lower(n) =>
    case Command(v, m) =>
      if m {
        MasterCommandNests(p, v, stack);
      } else {
        SlaveCommandNests(p, v, stack);
      }
    case Data(v, m) => DataNests(p, v, m, stack);
    case Read(m) => ReadNests(p, m, stack);
    case Mode(m, v) =>
    case Inta => IntaNests(p, stack);
    case HardReset =>
  }

  // ---- Runs ----

  ghost predicate RunKeepsFixedPriority(p: Pair, ops: seq<Op>)
    decreases |ops|
  {
    ops == [] || (KeepsFixedPriority(p, ops[0]) && RunKeepsFixedPriority(Step(p, ops[0]), ops[1..]))
  }

  function StackRun(stack: seq<Line>, p: Pair, ops: seq<Op>): seq<Line>
    decreases |ops|
  {
    if ops == [] then stack else StackRun(StackStep(stack, p, ops[0]), Step(p, ops[0]), ops[1..])
  }

  lemma {:induction false} RunNests(p: Pair, ops: seq<Op>, stack: seq<Line>)
    requires Nested(p.master, stack) && RunKeepsFixedPriority(p, ops)
    ensures Nested(Run(p, ops).master, StackRun(stack, p, ops))
    decreases |ops|
  {
    if ops != [] {
      StepNests(p, ops[0], stack);
      RunNests(Step(p, ops[0]), ops[1..], StackStep(stack, p, ops[0]));
    }
  }

  /**
   After any such run from power-on: the in-service register is the set of levels
   acknowledged and not yet retired; acknowledging now would push a level above all
   of them; and a non-specific end of interrupt would retire exactly the latest.
   */
  lemma ServiceIsAStack(ops: seq<Op>)
    requires RunKeepsFixedPriority(New(), ops)
    ensures var p, stack := Run(New(), ops), StackRun([], New(), ops);
            && (forall l :: l in p.master.isr <==> l in stack)
            && (p.master.intPin && !MasterSpurious(p) ==> forall k :: 0 <= k < |stack| ==> p.master.irq < stack[k])
            && (stack != [] ==> Ocw2(p, 0x20, true).master.isr == p.master.isr - {stack[|stack| - 1]})
  {
    var p, stack := Run(New(), ops), StackRun([], New(), ops);
    RunNests(New(), ops, []);
    RetireNests(p.master, stack);
    ServeSettles(Retire(p.master));
    if p.master.intPin {
      IntaNests(p, stack);
    }
  }
}
