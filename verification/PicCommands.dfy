/**
 What the commands of the 8259A mean (`rusty_box/src/pic.rs`, lines 607-830): which level
 an end of interrupt retires, which line a rotation makes the least urgent, and that
 what is written to the mask and selected for reading is what is read.
 */
module PicCommands {
  import opened Base
  import opened Pic8259
  import opened PicPair
  import opened PicRuns

  // ---- Commands ----

  lemma HighBits(v: byte)
    requires v % 32 < 8
    ensures v / 2 / 2 / 2 / 2 % 2 == 0 && v / 8 % 4 == 0
  {
    var q := v / 32;
    assert v == 32 * q + v % 32;
  }

  lemma CommandIsOcw2(p: Pair, v: byte, m: bool)
    requires v % 32 < 8
    ensures WriteCmd(p, v, m) == Ocw2(p, v, m)
  {
    assert HasBit(v, 4) == HasBit(v / 2 / 2, 2) == HasBit(v / 2 / 2 / 2 / 2, 0);
    HighBits(v);
  }

  /** Servicing keeps the levels in service and the order. */
  lemma ServiceKeepsOrder(p: Pair, m: bool)
    ensures var c, d := Of(p, m), Of(ServiceChip(p, m), m); d.isr == c.isr && d.lowest == c.lowest && d.imr == c.imr && d.modes == c.modes
  {
    ServeSettles(Of(p, m));
  }

  lemma Ocw2Effect(p: Pair, v: byte, m: bool)
    requires v % 32 < 8
    ensures var d, e := Ocw2Chip(Of(p, m), v), Of(WriteCmd(p, v, m), m); e.isr == d.isr && e.lowest == d.lowest && e.modes == d.modes
  {
    CommandIsOcw2(p, v, m);
    ServiceKeepsOrder(With(p, m, Ocw2Chip(Of(p, m), v)), m);
  }

  /** Least urgent of all. */
  predicate IsLast(c: Chip, l: Line) {
    forall k: Line :: Rank(c, k) <= Rank(c, l)
  }

  lemma LowestIsLast(c: Chip)
    ensures IsLast(c, c.lowest) && forall l: Line :: IsLast(c, l) ==> l == c.lowest
  {
    assert Rank(c, c.lowest) == 7;
    forall l: Line | IsLast(c, l) ensures l == c.lowest {
      assert Rank(c, c.lowest) <= Rank(c, l);
      assert At(c, Rank(c, l)) == l;
    }
  }

  /** A non-specific end of interrupt retires the most urgent level in service, and only that one. */
  lemma EndRetiresMostUrgent(p: Pair, m: bool, l: Line)
    ensures var c, d := Of(p, m), Of(WriteCmd(p, 0x20, m), m);
            d.lowest == c.lowest && (IsMostUrgent(c, c.isr, l) ==> d.isr == c.isr - {l}) && (c.isr == {} ==> d.isr == {})
  {
    Ocw2Effect(p, 0x20, m);
    var c := Of(p, m);
    if IsMostUrgent(c, c.isr, l) {
      MostUrgentIsUnique(c, c.isr, l, MostUrgent(c, c.isr));
    }
  }

  /** A specific one retires the level it names, and with rotation makes it the least urgent. */
  lemma SpecificEndRetires(p: Pair, m: bool, l: Line)
    ensures var c, d := Of(p, m), Of(WriteCmd(p, 0x60 + l, m), m); d.isr == c.isr - {l} && d.lowest == c.lowest
    ensures var c, d := Of(p, m), Of(WriteCmd(p, 0xE0 + l, m), m); d.isr == c.isr - {l} && IsLast(d, l)
  {
    Ocw2Effect(p, 0x60 + l, m);
    Ocw2Effect(p, 0xE0 + l, m);
    LowestIsLast(Of(WriteCmd(p, 0xE0 + l, m), m));
  }

  /** Setting the priority makes the line named the least urgent, and retires nothing. */
  lemma SetPriorityMakesLast(p: Pair, m: bool, l: Line)
    ensures var c, d := Of(p, m), Of(WriteCmd(p, 0xC0 + l, m), m); d.isr == c.isr && IsLast(d, l)
  {
    Ocw2Effect(p, 0xC0 + l, m);
    LowestIsLast(Of(WriteCmd(p, 0xC0 + l, m), m));
  }

  /**
   A rotating non-specific end of interrupt retires the most urgent level, and turns the
   order by one line. So the level it retires becomes the least urgent exactly when it was
   the most urgent line of all.
   */
  lemma RotatingEndTurnsByOne(p: Pair, m: bool, l: Line)
    requires IsMostUrgent(Of(p, m), Of(p, m).isr, l)
    ensures var c, d := Of(p, m), Of(WriteCmd(p, 0xA0, m), m);
            d.isr == c.isr - {l} && IsLast(d, Highest(c)) && (IsLast(d, l) <==> Rank(c, l) == 0)
  {
    var c := Of(p, m);
    Ocw2Effect(p, 0xA0, m);
    MostUrgentIsUnique(c, c.isr, l, MostUrgent(c, c.isr));
    LowestIsLast(Of(WriteCmd(p, 0xA0, m), m));
  }

  lemma ThreeInService() returns (p: Pair)
    ensures p == Run(New(), [Data(0, true), Raise(3), Inta])
    ensures p.master == New().master.(imr := {}, irqIn := {3}, isr := {3}, irq := 3)
  {
    var ops := [Data(0, true), Raise(3), Inta];
    var p1 := Step(New(), ops[0]);
    assert Lines(0) == {};
    assert p1 == New().(master := New().master.(imr := {}));
    OpenMaster(p1);
    var p2 := Step(p1, ops[1]);
    AcknowledgeThree(p2);
    p := Step(p2, ops[2]);
    assert ops[0..] == ops && ops[3..] == [];
    RunFrom(New(), ops, 0);
    RunFrom(p1, ops, 1);
    RunFrom(p2, ops, 2);
  }

  /** Otherwise it does not: with line 3 alone in service, line 0 is made the least urgent. */
  lemma RotationMissesReachably() returns (p: Pair)
    ensures p == Run(New(), [Data(0, true), Raise(3), Inta]) && p.master.isr == {3}
    ensures var d := WriteCmd(p, 0xA0, true).master; d.isr == {} && IsLast(d, 0) && !IsLast(d, 3)
  {
    p := ThreeInService();
    assert IsMostUrgent(p.master, p.master.isr, 3);
    RotatingEndTurnsByOne(p, true, 3);
  }

  /** The rotate-on-automatic-EOI switch, and what it does when the next line is taken. */
  lemma AutomaticRotation(p: Pair, m: bool)
    ensures Of(WriteCmd(p, 0x80, m), m).modes.rotateOnAutoEoi && !Of(WriteCmd(p, 0x00, m), m).modes.rotateOnAutoEoi
    ensures var c := Of(p, m); c.autoEoi && c.modes.rotateOnAutoEoi ==> IsLast(Acknowledge(c), c.irq)
    ensures var c := Of(p, m); !(c.autoEoi && c.modes.rotateOnAutoEoi) ==> Acknowledge(c).lowest == c.lowest
  {
    Ocw2Effect(p, 0x80, m);
    Ocw2Effect(p, 0x00, m);
    LowestIsLast(Acknowledge(Of(p, m)));
  }

  // ---- The mask and the selected register ----

  /** `v` with its low `l` bits dropped. */
  function Dropped(v: nat, l: nat): nat {
    if l == 0 then v else Dropped(v / 2, l - 1)
  }

  lemma {:induction false} DroppedBit(v: nat, l: nat)
    ensures HasBit(v, l) <==> Dropped(v, l) % 2 == 1
    ensures Dropped(v, l + 1) == Dropped(v, l) / 2
    decreases l
  {
    if l > 0 {
      DroppedBit(v / 2, l - 1);
    }
  }

  lemma NothingLeft(v: byte)
    ensures Dropped(v, 8) == 0
  {
    DroppedBit(v, 0);
    DroppedBit(v, 1);
    DroppedBit(v, 2);
    DroppedBit(v, 3);
    DroppedBit(v, 4);
    DroppedBit(v, 5);
    DroppedBit(v, 6);
    DroppedBit(v, 7);
  }

  lemma {:induction false} BitsOfLines(v: byte, l: nat)
    requires l <= 8
    ensures BitsFrom(Lines(v), l) == Dropped(v, l)
    decreases 8 - l
  {
    if l == 8 {
      NothingLeft(v);
    } else {
      DroppedBit(v, l);
      BitsOfLines(v, l + 1);
      assert l in ALL_LINES;
    }
  }

  /** A byte is the lines it stands for. */
  lemma ByteOfLines(v: byte)
    ensures ByteOf(Lines(v)) == v
  {
    BitsOfLines(v, 0);
  }

  /** Line `l` is masked exactly when bit `l` of the byte written is set, and the mask reads back as written. */
  lemma MaskReadsBack(p: Pair, v: byte, m: bool, l: Line)
    requires !Of(p, m).program.inInit
    ensures var c := Of(WriteData(p, v, m), m); (l in c.imr <==> HasBit(v, l)) && ByteOf(c.imr) == v
  {
    var d := Of(p, m).(imr := Lines(v));
    ServiceKeepsOrder(With(p, m, d), m);
    ByteOfLines(v);
    assert l in ALL_LINES;
  }

  /** A command with bit 3 set and bits 4 and 2 clear only sets modes, and services the chip if it enters special mask mode. */
  lemma Ocw3Effect(p: Pair, v: byte, m: bool)
    requires !HasBit(v, 4) && v / 8 % 4 == 1 && !HasBit(v, 2)
    ensures var c, d := Ocw3Modes(Of(p, m), v % 4, v / 32 % 4), Of(WriteCmd(p, v, m), m);
            d.modes == c.modes && d.specialMask == c.specialMask
  {
    var c := Ocw3Modes(Of(p, m), v % 4, v / 32 % 4);
    assert WriteCmd(p, v, m) == Ocw3(p, v, m);
    ServeSettles(c);
  }

  /** 0x0A selects the request register for reading, and 0x0B the levels in service. */
  lemma SelectsRegister(p: Pair, m: bool)
    ensures !Of(WriteCmd(p, 0x0A, m), m).modes.readIsr && Of(WriteCmd(p, 0x0B, m), m).modes.readIsr
  {
    Ocw3Effect(p, 0x0A, m);
    Ocw3Effect(p, 0x0B, m);
  }

  /** 0x68 enters special mask mode, and 0x48 leaves it. */
  lemma SwitchesSpecialMask(p: Pair, m: bool)
    ensures Of(WriteCmd(p, 0x68, m), m).specialMask && !Of(WriteCmd(p, 0x48, m), m).specialMask
  {
    Ocw3Effect(p, 0x68, m);
    Ocw3Effect(p, 0x48, m);
  }
}
