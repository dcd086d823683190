/**
 The cascaded pair of 8259As (`rusty_box/src/pic.rs`, lines 380-1079): the slave's
 INT output drives line 2 of the master.
 */
module PicPair {
  import opened Base
  import opened Pic8259

  datatype Pair = Pair(master: Chip, slave: Chip, irqPending: bool, irqCleared: bool)

  function PowerOn(master: bool): Chip {
    Chip(master, ALL_LINES, {}, {}, {}, {}, 0, 7, false, false, false,
         Program(if master then 0x08 else 0x70, false, false, 0),
         Modes(false, false, master, false, false, false))
  }

  function New(): Pair {
    Pair(PowerOn(true), PowerOn(false), false, false)
  }

  function Reset(p: Pair): Pair {
    p.(master := PowerOn(true), slave := PowerOn(false))
  }

  function Of(p: Pair, isMaster: bool): Chip {
    if isMaster then p.master else p.slave
  }

  function With(p: Pair, isMaster: bool, c: Chip): Pair {
    if isMaster then p.(master := c) else p.(slave := c)
  }

  // ---- Servicing, and the cascade ----

  function ServiceMaster(p: Pair): Pair {
    var s := Serve(p.master);
    var q := p.(master := s.chip);
    match s.action
    case RaiseIntr => q.(irqPending := true)
    case ClearIntr => q.(irqCleared := true)
    case _ => q
  }

  /** Nothing happens beyond the line itself unless the request is new. */
  function RaiseMaster(p: Pair, l: Line): Pair {
    var c := p.master.(irqIn := p.master.irqIn + {l});
    if l in c.irr then p.(master := c) else ServiceMaster(p.(master := c.(irr := c.irr + {l})))
  }

  function LowerLine(c: Chip, l: Line): Chip {
    if l in c.irqIn then c.(irqIn := c.irqIn - {l}, irr := c.irr - {l}) else c
  }

  function SetCascade(p: Pair, level: bool): Pair {
    if level then RaiseMaster(p, 2) else p.(master := LowerLine(p.master, 2))
  }

  function ServiceSlave(p: Pair): Pair {
    var s := Serve(p.slave);
    var q := p.(slave := s.chip);
    match s.action
    case RaiseCascade => SetCascade(q, true)
    case LowerCascade => SetCascade(q, false)
    case _ => q
  }

  function ServiceChip(p: Pair, isMaster: bool): Pair {
    if isMaster then ServiceMaster(p) else ServiceSlave(p)
  }

  function RaiseSlave(p: Pair, l: Line): Pair {
    var c := p.slave.(irqIn := p.slave.irqIn + {l});
    if l in c.irr then p.(slave := c) else ServiceSlave(p.(slave := c.(irr := c.irr + {l})))
  }

  function RaiseIrq(p: Pair, n: byte): Pair {
    if n < 8 then RaiseMaster(p, n) else if n < 16 then RaiseSlave(p, n - 8) else p
  }

  /** Lowering a line never re-runs service. */
  function LowerIrq(p: Pair, n: byte): Pair {
    if n < 8 then p.(master := LowerLine(p.master, n))
    else if n < 16 then p.(slave := LowerLine(p.slave, n - 8))
    else p
  }

  /** Whether a line change is one the I/O APIC hears of: any real edge but the cascade's. */
  predicate CrossesOnRaise(p: Pair, n: byte) {
    if n < 8 then n !in p.master.irr && n != 2 else n < 16 && (n - 8) as Line !in p.slave.irr
  }

  predicate CrossesOnLower(p: Pair, n: byte) {
    if n < 8 then n in p.master.irqIn && n != 2 else n < 16 && (n - 8) as Line in p.slave.irqIn
  }

  // ---- Port writes ----

  /** A new initialization sequence forgets requests, masks and service, but not special mask mode. */
  function Restarted(c: Chip, requires4: bool): Chip {
    c.(imr := {}, isr := {}, irr := {}, lowest := 7, intPin := false, autoEoi := false,
       program := c.program.(inInit := true, requires4 := requires4, byteExpected := 2),
       modes := c.modes.(rotateOnAutoEoi := false))
  }

  function Icw1(p: Pair, v: byte, isMaster: bool): Pair {
    var c := Of(p, isMaster);
    var q := With(p, isMaster, Restarted(c, HasBit(v, 0)));
    if isMaster then q.(irqCleared := true) else q.(master := q.master.(irqIn := q.master.irqIn - {2}))
  }

  /** Which register a read shows, and whether special mask mode is on. */
  function Ocw3Modes(c: Chip, op: nat, mask: nat): Chip {
    var d := if op == 2 then c.(modes := c.modes.(readIsr := false)) else if op == 3 then c.(modes := c.modes.(readIsr := true)) else c;
    if mask == 2 then d.(specialMask := false) else if mask == 3 then d.(specialMask := true) else d
  }

  function Ocw3(p: Pair, v: byte, isMaster: bool): Pair {
    var c := Of(p, isMaster);
    if HasBit(v, 2) then With(p, isMaster, c.(modes := c.modes.(polled := true)))
    else
      var mask := v / 32 % 4;
      var q := With(p, isMaster, Ocw3Modes(c, v % 4, mask));
      if mask == 3 then ServiceChip(q, isMaster) else q
  }

  function Rotated(c: Chip): Chip {
    c.(lowest := Highest(c))
  }

  /** Commands are matched on the whole byte; anything unlisted leaves the chip alone. */
  function Ocw2Chip(c: Chip, v: byte): Chip {
    if v == 0x00 || v == 0x80 then c.(modes := c.modes.(rotateOnAutoEoi := v != 0))
    else if v == 0x20 then Retire(c)
    else if v == 0xA0 then Rotated(Retire(c))
    else if 0x60 <= v <= 0x67 then c.(isr := c.isr - {v - 0x60})
    else if 0xC0 <= v <= 0xC7 then c.(lowest := v - 0xC0)
    else if 0xE0 <= v <= 0xE7 then c.(isr := c.isr - {v - 0xE0}, lowest := v - 0xE0)
    else c
  }

  /** The ends of interrupt, which are followed by a service; setting the priority is not. */
  predicate IsEoi(v: byte) {
    v == 0x20 || v == 0xA0 || 0x60 <= v <= 0x67 || 0xE0 <= v <= 0xE7
  }

  function Ocw2(p: Pair, v: byte, isMaster: bool): Pair {
    var q := With(p, isMaster, Ocw2Chip(Of(p, isMaster), v));
    if IsEoi(v) then ServiceChip(q, isMaster) else q
  }

  function WriteCmd(p: Pair, v: byte, isMaster: bool): Pair {
    if HasBit(v, 4) then Icw1(p, v, isMaster)
    else if v / 8 % 4 == 1 then Ocw3(p, v, isMaster)
    else Ocw2(p, v, isMaster)
  }

  /** ICW2, ICW3 and ICW4, by which is expected. */
  function IcwProgram(u: Program, v: byte): Program {
    if u.byteExpected == 2 then u.(offset := v - v % 8, byteExpected := 3)
    else if u.byteExpected == 3 then if u.requires4 then u.(byteExpected := 4) else u.(inInit := false)
    else if u.byteExpected == 4 then u.(inInit := false)
    else u
  }

  function Icw(c: Chip, v: byte): Chip {
    var d := c.(program := IcwProgram(c.program, v));
    if c.program.byteExpected == 4 then
      d.(autoEoi := HasBit(v, 1),
         modes := c.modes.(bufferedMode := HasBit(v, 2), masterSlave := HasBit(v, 3), sfnm := HasBit(v, 4)))
    else d
  }

  function WriteData(p: Pair, v: byte, isMaster: bool): Pair {
    var c := Of(p, isMaster);
    if c.program.inInit then With(p, isMaster, Icw(c, v))
    else ServiceChip(With(p, isMaster, c.(imr := Lines(v))), isMaster)
  }

  /** A read of either port of a polled chip retires a level; any other read changes nothing. */
  function ReadPort(p: Pair, isMaster: bool): Pair {
    var c := Of(p, isMaster);
    if c.modes.polled then
      var d := Retire(c);
      ServiceChip(With(p, isMaster, d.(modes := d.modes.(polled := false))), isMaster)
    else p
  }

  function SetMode(p: Pair, isMaster: bool, mode: byte): Pair {
    With(p, isMaster, Of(p, isMaster).(edgeLevel := Lines(mode)))
  }

  // ---- Acknowledge ----

  /** What acknowledging does to the chip that is acknowledged: the latched request goes into service. */
  function Acknowledge(c: Chip): Chip {
    var d := if c.irq in c.edgeLevel then c else c.(irr := c.irr - {c.irq});
    if !c.autoEoi then d.(isr := d.isr + {c.irq})
    else if c.modes.rotateOnAutoEoi then d.(lowest := c.irq)
    else d
  }

  datatype Ack = Ack(pair: Pair, vector: nat)

  predicate MasterSpurious(p: Pair) {
    p.master.irr - p.master.imr == {}
  }

  /** The acknowledge reached the slave, and the slave has nothing to deliver. */
  predicate SlaveSpurious(p: Pair) {
    !MasterSpurious(p) && p.master.irq == 2 && p.slave.irr - p.slave.imr == {}
  }

  /** The half of the cycle the slave answers, the master's line 2 already in service. */
  function IacCascade(p: Pair): Ack {
    var r := p.(master := p.master.(irqIn := p.master.irqIn - {2}), slave := p.slave.(intPin := false));
    if r.slave.irr - r.slave.imr == {} then Ack(r, r.slave.program.offset + 7)
    else Ack(ServiceMaster(ServiceSlave(r.(slave := Acknowledge(r.slave)))), r.slave.irq + r.slave.program.offset)
  }

  /** The pair with INT withdrawn and the master's latched request in service. */
  function Taken(p: Pair): Pair {
    p.(irqCleared := true, master := Acknowledge(p.master.(intPin := false)))
  }

  function Iac(p: Pair): Ack {
    if MasterSpurious(p) then
      Ack(p.(irqCleared := true, master := p.master.(intPin := false)), p.master.program.offset + 7)
    else if p.master.irq != 2 then Ack(ServiceMaster(Taken(p)), p.master.irq + p.master.program.offset)
    else IacCascade(Taken(p))
  }

  lemma TakenKeepsLatch(p: Pair)
    ensures Taken(p).master.irq == p.master.irq && Taken(p).master.program.offset == p.master.program.offset
    ensures Taken(p).slave == p.slave
  {
  }

  // ---- The controller itself ----

  class Controller {
    var master: Chip
    var slave: Chip
    var irqPending: bool
    var irqCleared: bool

    ghost function Value(): Pair
      reads this
    {
      Pair(master, slave, irqPending, irqCleared)
    }

    constructor ()
      ensures Value() == New()
    {
      master, slave := PowerOn(true), PowerOn(false);
      irqPending, irqCleared := false, false;
    }

    method ResetAll()
      modifies this
      ensures Value() == Reset(old(Value()))
    {
      master, slave := PowerOn(true), PowerOn(false);
    }

    method ServiceMasterChip()
      modifies this
      ensures Value() == ServiceMaster(old(Value()))
    {
      var c, action := Service(master);
      master := c;
      match action
      case RaiseIntr => irqPending := true;
      case ClearIntr => irqCleared := true;
      case _ =>
    }

    method RaiseMasterLine(l: Line)
      modifies this
      ensures Value() == RaiseMaster(old(Value()), l)
    {
      master := master.(irqIn := master.irqIn + {l});
      if l !in master.irr {
        master := master.(irr := master.irr + {l});
        ServiceMasterChip();
      }
    }

    /** `service_pic_dispatch` for the slave: its INT pin is the master's line 2. */
    method ServiceSlaveChip()
      modifies this
      ensures Value() == ServiceSlave(old(Value()))
    {
      var c, action := Service(slave);
      slave := c;
      match action
      case RaiseCascade => RaiseMasterLine(2);
      case LowerCascade => master := LowerLine(master, 2);
      case _ =>
    }

    method ServicePicDispatch(isMaster: bool)
      modifies this
      ensures Value() == ServiceChip(old(Value()), isMaster)
    {
      if isMaster {
        ServiceMasterChip();
      } else {
        ServiceSlaveChip();
      }
    }

    method Raise(n: byte) returns (crossed: bool)
      modifies this
      ensures Value() == RaiseIrq(old(Value()), n) && crossed == CrossesOnRaise(old(Value()), n)
    {
      crossed := false;
      if n < 8 {
        crossed := n !in master.irr && n != 2;
        RaiseMasterLine(n);
      } else if n < 16 {
        var l: Line := n - 8;
        slave := slave.(irqIn := slave.irqIn + {l});
        if l !in slave.irr {
          slave := slave.(irr := slave.irr + {l});
          ServiceSlaveChip();
          crossed := true;
        }
      }
    }

    method Lower(n: byte) returns (crossed: bool)
      modifies this
      ensures Value() == LowerIrq(old(Value()), n) && crossed == CrossesOnLower(old(Value()), n)
    {
      crossed := false;
      if n < 8 {
        if n in master.irqIn {
          master := master.(irqIn := master.irqIn - {n}, irr := master.irr - {n});
          crossed := n != 2;
        }
      } else if n < 16 {
        var l: Line := n - 8;
        if l in slave.irqIn {
          slave := slave.(irqIn := slave.irqIn - {l}, irr := slave.irr - {l});
          crossed := true;
        }
      }
    }

    method Put(isMaster: bool, c: Chip)
      modifies this
      ensures Value() == With(old(Value()), isMaster, c)
    {
      if isMaster {
        master := c;
      } else {
        slave := c;
      }
    }

    method WriteOcw2(v: byte, isMaster: bool)
      modifies this
      ensures Value() == Ocw2(old(Value()), v, isMaster)
    {
      var c := if isMaster then master else slave;
      if v == 0x00 || v == 0x80 {
        Put(isMaster, c.(modes := c.modes.(rotateOnAutoEoi := v != 0)));
      } else if v == 0x20 || v == 0xA0 {
        var d := ClearHighestInterrupt(c);
        if v == 0xA0 {
          d := d.(lowest := if d.lowest == 7 then 0 else d.lowest + 1);
        }
        Put(isMaster, d);
        ServicePicDispatch(isMaster);
      } else if v == 0x40 || v == 0x02 {
        return;
      } else if 0x60 <= v <= 0x67 {
        Put(isMaster, c.(isr := c.isr - {v - 0x60}));
        ServicePicDispatch(isMaster);
      } else if 0xC0 <= v <= 0xC7 {
        Put(isMaster, c.(lowest := v - 0xC0));
      } else if 0xE0 <= v <= 0xE7 {
        Put(isMaster, c.(isr := c.isr - {v - 0xE0}, lowest := v - 0xE0));
        ServicePicDispatch(isMaster);
      }
    }

    method WriteIcw1(v: byte, isMaster: bool)
      modifies this
      ensures Value() == Icw1(old(Value()), v, isMaster)
    {
      var c := if isMaster then master else slave;
      Put(isMaster, Restarted(c, HasBit(v, 0)));
      if isMaster {
        irqCleared := true;
      } else {
        master := master.(irqIn := master.irqIn - {2});
      }
    }

    method WriteOcw3(v: byte, isMaster: bool)
      modifies this
      ensures Value() == Ocw3(old(Value()), v, isMaster)
    {
      var c := if isMaster then master else slave;
      if HasBit(v, 2) {
        Put(isMaster, c.(modes := c.modes.(polled := true)));
        return;
      }
      var mask := v / 32 % 4;
      Put(isMaster, Ocw3Modes(c, v % 4, mask));
      if mask == 3 {
        ServicePicDispatch(isMaster);
      }
    }

    method WriteCommand(v: byte, isMaster: bool)
      modifies this
      ensures Value() == WriteCmd(old(Value()), v, isMaster)
    {
      if HasBit(v, 4) {
        WriteIcw1(v, isMaster);
      } else if v / 8 % 4 == 1 {
        WriteOcw3(v, isMaster);
      } else {
        WriteOcw2(v, isMaster);
      }
    }

    method WriteDataPort(v: byte, isMaster: bool)
      modifies this
      ensures Value() == WriteData(old(Value()), v, isMaster)
    {
      var c := if isMaster then master else slave;
      if c.program.inInit {
        Put(isMaster, Icw(c, v));
      } else {
        Put(isMaster, c.(imr := Lines(v)));
        ServicePicDispatch(isMaster);
      }
    }

    /** The value read: the latched line of a polled chip, else the selected register or the mask. */
    method Read(isMaster: bool, dataPort: bool, ioLen: nat) returns (value: nat)
      modifies this
      ensures Value() == ReadPort(old(Value()), isMaster)
      ensures var c := Of(old(Value()), isMaster);
              value == if c.modes.polled then
                         (var irq := Of(Value(), isMaster).irq; if ioLen == 1 then irq else irq * 256 + irq)
                       else if dataPort then ByteOf(c.imr)
                       else if c.modes.readIsr then ByteOf(c.isr) else ByteOf(c.irr)
    {
      var c := if isMaster then master else slave;
      if c.modes.polled {
        RetirePolled(c, isMaster);
        var irq := if isMaster then master.irq else slave.irq;
        return if ioLen == 1 then irq else irq * 256 + irq;
      }
      return if dataPort then ByteOf(c.imr) else if c.modes.readIsr then ByteOf(c.isr) else ByteOf(c.irr);
    }

    method RetirePolled(c: Chip, isMaster: bool)
      requires c == Of(Value(), isMaster) && c.modes.polled
      modifies this
      ensures Value() == ReadPort(old(Value()), isMaster)
    {
      var d := ClearHighestInterrupt(c);
      Put(isMaster, d.(modes := d.modes.(polled := false)));
      ServicePicDispatch(isMaster);
    }

    method SetTriggerMode(isMaster: bool, mode: byte)
      modifies this
      ensures Value() == SetMode(old(Value()), isMaster, mode)
    {
      Put(isMaster, (if isMaster then master else slave).(edgeLevel := Lines(mode)));
    }

    method AcknowledgeChip(isMaster: bool)
      modifies this
      ensures Value() == With(old(Value()), isMaster, Acknowledge(Of(old(Value()), isMaster)))
    {
      var c := if isMaster then master else slave;
      if c.irq !in c.edgeLevel {
        c := c.(irr := c.irr - {c.irq});
      }
      if !c.autoEoi {
        c := c.(isr := c.isr + {c.irq});
      } else if c.modes.rotateOnAutoEoi {
        c := c.(lowest := c.irq);
      }
      Put(isMaster, c);
    }

    method AcknowledgeCascade() returns (vector: nat)
      modifies this
      ensures Ack(Value(), vector) == IacCascade(old(Value()))
    {
      slave := slave.(intPin := false);
      master := master.(irqIn := master.irqIn - {2});
      if slave.irr - slave.imr == {} {
        return slave.program.offset + 7;
      }
      vector := slave.irq + slave.program.offset;
      AcknowledgeChip(false);
      ServiceSlaveChip();
      ServiceMasterChip();
    }

    /** The interrupt acknowledge cycle. */
    method InterruptAcknowledge() returns (vector: nat)
      modifies this
      ensures Ack(Value(), vector) == Iac(old(Value()))
    {
      ghost var p := Value();
      irqCleared := true;
      master := master.(intPin := false);
      if master.irr - master.imr == {} {
        return master.program.offset + 7;
      }
      AcknowledgeChip(true);
      assert Value() == Taken(p);
      TakenKeepsLatch(p);
      if master.irq != 2 {
        vector := master.irq + master.program.offset;
        ServiceMasterChip();
      } else {
        vector := AcknowledgeCascade();
      }
    }
  }
}
