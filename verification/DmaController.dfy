/**
 The DMA device itself (`rusty_box/src/dma.rs`): an object updated in place, each
 method proved to take the step the model describes.
 */
module DmaController {
  import opened Base
  import opened Dma8237
  import opened DmaLines

  // ---- Ports ----

  function UnitOf(port: nat): Unit {
    if port >= 0xC0 then Two else One
  }

  const PAGE_SLOT: seq<Slot> := [2, 3, 1, 0, 0, 0, 0]

  /** Which write a byte to a port is, if any. */
  function Decode(port: nat, v: byte): Option<Op> {
    var u := UnitOf(port);
    var k: Slot := v % 4;
    if port in {0x00, 0x02, 0x04, 0x06} then Some(AddressByte(One, port / 2, v))
    else if port in {0xC0, 0xC4, 0xC8, 0xCC} then Some(AddressByte(Two, (port - 0xC0) / 4, v))
    else if port in {0x01, 0x03, 0x05, 0x07} then Some(CountByte(One, port / 2, v))
    else if port in {0xC2, 0xC6, 0xCA, 0xCE} then Some(CountByte(Two, (port - 0xC0) / 4, v))
    else if port in {0x08, 0xD0} then Some(Command(u, v))
    else if port in {0x09, 0xD2} then Some(Request(u, k, (v / 4) % 2 == 1))
    else if port in {0x0A, 0xD4} then Some(SingleMask(u, k, (v / 4) % 2 == 1))
    else if port in {0x0B, 0xD6} then Some(ModeOf(u, k, Mode(v / 64, (v / 32) % 2 == 1, (v / 16) % 2 == 1, (v / 4) % 4)))
    else if port in {0x0C, 0xD8} then Some(ClearFlipFlop(u))
    else if port in {0x0D, 0xDA} then Some(Clear(u))
    else if port in {0x0E, 0xDC} then Some(AllMasks(u, {}))
    else if port in {0x0F, 0xDE} then Some(AllMasks(u, MaskOf(v)))
    else if port in {0x81, 0x82, 0x83, 0x87} then Some(PageByte(One, PAGE_SLOT[port - 0x81], v))
    else if port in {0x89, 0x8A, 0x8B, 0x8F} then Some(PageByte(Two, PAGE_SLOT[port - 0x89], v))
    else if port in {0x80, 0x84, 0x85, 0x86, 0x88, 0x8C, 0x8D, 0x8E} then Some(SparePage(port - 0x80, v))
    else None
  }

  function MaskOf(v: byte): set<Slot> {
    (if v % 2 == 1 then {0} else {}) + (if (v / 2) % 2 == 1 then {1} else {})
    + (if (v / 4) % 2 == 1 then {2} else {}) + (if (v / 8) % 2 == 1 then {3} else {})
  }

  function PortWrite(s: State, port: nat, v: byte): State {
    match Decode(port, v)
    case Some(op) => Step(s, op).state
    case None => s
  }

  /** A word to port 0x0B is a mode write and a flip-flop write; any other wide write is its low byte. */
  function PortWriteWide(s: State, port: nat, v: nat, ioLen: nat): State {
    if ioLen == 2 && port == 0x0B then PortWrite(PortWrite(s, 0x0B, v % 256), 0x0C, v / 256 % 256)
    else PortWrite(s, port, v % 256)
  }

  // ---- Programming a channel ----

  lemma {:induction false} OrWithZero(v: nat, width: nat)
    requires v < Pow2(width)
    ensures Or(0, v, width) == v
    decreases width
  {
    if width > 0 {
      OrWithZero(v / 2, width - 1);
    }
  }

  lemma OrsIntoEmpty(lo: byte, hi: byte)
    ensures HighByte(lo, hi) == lo + 256 * hi
  {
    assert Pow2(8) == 256;
    OrWithZero(hi, 8);
    assert OrByte(0, hi) == hi;
  }

  lemma Halves(x: u16, lo: byte, hi: byte)
    requires x == lo + 256 * hi
    ensures ReadHalf(false, x) == lo && ReadHalf(true, x) == hi
  {
  }

  /** Two bytes, low then high, through the flip-flop. */
  lemma TwoBytes(lo: byte, hi: byte)
    ensures HighByte(lo, hi) == lo + 256 * hi
    ensures ReadHalf(false, HighByte(lo, hi)) == lo && ReadHalf(true, HighByte(lo, hi)) == hi
  {
    OrsIntoEmpty(lo, hi);
    Halves(HighByte(lo, hi), lo, hi);
  }

  /** The address and count registers as a driver loads them, whatever they held and wherever the flip-flop stood. */
  lemma RegistersLoad(s: State, k: Slot, v: byte, alo: byte, ahi: byte, clo: byte, chi: byte)
    ensures var s1 := PortWrite(PortWrite(PortWrite(s, 0x0C, v), 2 * k, alo), 2 * k, ahi);
            var s2 := PortWrite(PortWrite(s1, 2 * k + 1, clo), 2 * k + 1, chi);
            && s2.low.chan[k] == s.low.chan[k].(base := alo + 256 * ahi, address := alo + 256 * ahi,
                                                baseCount := clo + 256 * chi, count := clo + 256 * chi)
            && !s2.low.flipFlop && s2.high == s.high && s2.low.mask == s.low.mask && s2.low.request == s.low.request
  {
    TwoBytes(alo, ahi);
    TwoBytes(clo, chi);
    AddressLoads(PortWrite(s, 0x0C, v), k, alo, ahi);
    CountLoads(PortWrite(PortWrite(PortWrite(s, 0x0C, v), 2 * k, alo), 2 * k, ahi), k, clo, chi);
  }

  lemma PortsOfChannel(s: State, k: Slot, v: byte)
    ensures PortWrite(s, 2 * k, v) == WriteAddress(s, One, k, v)
    ensures PortWrite(s, 2 * k + 1, v) == WriteCount(s, One, k, v)
  {
    assert k == 0 || k == 1 || k == 2 || k == 3;
    assert Decode(2 * k, v) == Some(AddressByte(One, k, v));
    assert Decode(2 * k + 1, v) == Some(CountByte(One, k, v));
  }

  lemma AddressLoads(s: State, k: Slot, lo: byte, hi: byte)
    requires !s.low.flipFlop
    ensures var x := HighByte(lo, hi);
            PortWrite(PortWrite(s, 2 * k, lo), 2 * k, hi) ==
            s.(low := s.low.(chan := s.low.chan[k := s.low.chan[k].(base := x, address := x)]))
  {
    var s1 := WriteAddress(s, One, k, lo);
    PortsOfChannel(s, k, lo);
    PortsOfChannel(s1, k, hi);
    var c, x := s.low.chan, HighByte(lo, hi);
    assert s1.low.chan[k := s1.low.chan[k].(base := x, address := x)] == c[k := c[k].(base := x, address := x)];
  }

  lemma CountLoads(s: State, k: Slot, lo: byte, hi: byte)
    requires !s.low.flipFlop
    ensures var x := HighByte(lo, hi);
            PortWrite(PortWrite(s, 2 * k + 1, lo), 2 * k + 1, hi) ==
            s.(low := s.low.(chan := s.low.chan[k := s.low.chan[k].(baseCount := x, count := x)]))
  {
    var s1 := WriteCount(s, One, k, lo);
    PortsOfChannel(s, k, lo);
    PortsOfChannel(s1, k, hi);
    var c, x := s.low.chan, HighByte(lo, hi);
    assert s1.low.chan[k := s1.low.chan[k].(baseCount := x, count := x)] == c[k := c[k].(baseCount := x, count := x)];
  }

  /** Two reads from a clear flip-flop rebuild any register and leave everything as it was. */
  lemma HalvesRebuild(s: State, u: Unit, x: u16)
    requires !Pick(s, u).flipFlop
    ensures var t := ToggleFlipFlop(s, u);
            ReadHalf(Pick(s, u).flipFlop, x) + 256 * ReadHalf(Pick(t, u).flipFlop, x) == x && ToggleFlipFlop(t, u) == s
  {
  }

  // ---- The device ----

  /** The scan for a requested unmasked channel, lowest first. */
  method ScanRequests(c: Chip) returns (r: Option<Slot>)
    ensures r.None? <==> Eligible(c) == {}
    ensures r.Some? ==> IsLowest(Eligible(c), r.value)
    ensures r == First(Eligible(c))
  {
    FirstIsLowest(Eligible(c));
    var k := 0;
    while k < 4
      invariant 0 <= k <= 4
      invariant forall j: Slot :: j < k ==> j !in Eligible(c)
    {
      if k in c.request && k !in c.mask {
        return Some(k);
      }
      k := k + 1;
    }
    return None;
  }

  class Controller {
    var low: Chip
    var high: Chip
    var hlda: bool
    var tc: bool
    var hrq: Option<bool>
    var wiring: Wiring

    function Contents(): State
      reads this
    {
      State(low, high, hlda, tc, hrq, wiring)
    }

    /** `new` followed by `init`. */
    constructor ()
      ensures Contents() == Init(New())
      ensures forall pin :: Coherent(Contents(), pin)
    {
      low := RESET_CHIP;
      high := RESET_CHIP.(chan := [IDLE.(used := true), IDLE, IDLE, IDLE]);
      hlda, tc, hrq, wiring := false, false, None, UNWIRED;
      new;
      InitializedIsCoherent();
    }

    /** `register_dma8_channel` and `register_dma16_channel`. */
    method Register(u: Unit, k: Slot) returns (ok: bool)
      modifies this
      ensures ok == Dma8237.Register(old(Contents()), u, k).Some?
      ensures Contents() == if ok then Dma8237.Register(old(Contents()), u, k).value else old(Contents())
    {
      var c := if u.One? then low else high;
      if c.chan[k].used {
        return false;
      }
      if u.One? {
        wiring := wiring.(byteWide := wiring.byteWide + {k});
      } else {
        wiring := wiring.(wordWide := wiring.wordWide + {k});
      }
      SetChip(u, c.(chan := c.chan[k := c.chan[k].(used := true)]));
      return true;
    }

    method SetChip(u: Unit, c: Chip)
      modifies this
      ensures Contents() == With(old(Contents()), u, c)
    {
      if u.One? {
        low := c;
      } else {
        high := c;
      }
    }

    method SetDrq(channel: nat, on: bool)
      modifies this
      ensures Contents() == Dma8237.SetDrq(old(Contents()), channel, on)
      decreases if channel > 3 then 1 else 3
    {
      if channel > 7 {
        return;
      }
      var u := if channel > 3 then Two else One;
      var k: Slot := channel % 4;
      var c := if u.One? then low else high;
      if !c.chan[k].used {
        SetChip(u, c.(drq := Change(c.drq, k, on)));
        return;
      }
      SetChip(u, c.(drq := Change(c.drq, k, on), request := Change(c.request, k, on)));
      ControlHrq(u);
    }

    method ControlHrq(u: Unit)
      modifies this
      ensures Contents() == Dma8237.ControlHrq(old(Contents()), u)
      decreases if u.Two? then 0 else 2
    {
      var c := if u.One? then low else high;
      if c.disabled {
        return;
      }
      if c.request == {} {
        if u.Two? {
          hrq := Some(false);
        } else {
          SetDrq(CASCADE, false);
        }
        return;
      }
      var k := ScanRequests(c);
      if k.Some? {
        if u.Two? {
          hrq := Some(true);
        } else {
          SetDrq(CASCADE, true);
        }
      }
    }

    /** The channel a hold goes to, acknowledging the cascade on the way. */
    method Arbitrate() returns (g: Option<Grant>)
      modifies this
      ensures Contents() == Acknowledged(old(Contents()))
      ensures g == Granted(old(Contents()))
    {
      hlda := true;
      var k := ScanRequests(high);
      if k.None? {
        return None;
      }
      if k.value != 0 {
        return Some(Grant(Two, k.value));
      }
      high := high.(dack := high.dack + {0});
      var j := ScanRequests(low);
      if j.None? {
        return None;
      }
      return Some(Grant(One, j.value));
    }

    method Expire(g: Grant)
      modifies this
      ensures Contents() == Dma8237.Expire(old(Contents()), g)
    {
      var c := if g.unit.One? then low else high;
      var chan := c.chan[g.slot];
      if chan.mode.autoinit {
        chan := chan.(address := chan.base, count := chan.baseCount);
      } else {
        c := c.(mask := c.mask + {g.slot});
      }
      SetChip(g.unit, c.(terminal := c.terminal + {g.slot}, dack := c.dack - {g.slot}, chan := c.chan[g.slot := chan]));
      tc, hlda, hrq := false, false, Some(false);
      if g.unit.One? {
        SetDrq(CASCADE, false);
        high := high.(dack := high.dack - {0});
      }
    }

    /** How far the device moves the channel, or nothing when the grant comes to nothing. */
    method Ask(g: Grant, a: Answer) returns (len: Option<nat>)
      ensures len == Moved(Contents(), g, a)
    {
      var c := (if g.unit.One? then low else high).chan[g.slot];
      var wired := g.slot in (if g.unit.One? then wiring.byteWide else wiring.wordWide);
      if c.mode.transfer == READ {
        return Some(if wired then a.len else MaxLen(g.unit, c));
      }
      if c.mode.transfer <= WRITE && wired {
        return Some(a.len);
      }
      return None;
    }

    method MoveChannel(g: Grant, a: Answer) returns (t: Option<Transfer>)
      modifies this
      ensures Outcome(Contents(), t) == Serve(old(Contents()), g, a)
    {
      var len := Ask(g, a);
      var chip := if g.unit.One? then low else high;
      var c := chip.chan[g.slot];
      tc := AtTerminalCount(g.unit, c);
      if len.None? {
        return None;
      }
      var moved := Advance(c, len.value);
      SetChip(g.unit, chip.(dack := chip.dack + {g.slot}, chan := chip.chan[g.slot := moved]));
      if moved.count == EXPIRED {
        Expire(g);
      }
      t := Some(Transfer(g, Physical(g.unit, c), len.value,
                         if c.mode.transfer == WRITE then Prefix(a.buffer, len.value) else [], moved.count == EXPIRED));
    }

    /** `raise_hlda`, the device's part in it being `a`. */
    method RaiseHlda(a: Answer) returns (t: Option<Transfer>)
      modifies this
      ensures Outcome(Contents(), t) == Dma8237.RaiseHlda(old(Contents()), a)
    {
      var g := Arbitrate();
      if g.None? {
        return None;
      }
      t := MoveChannel(g.value, a);
    }

    /** `write`, a byte at a time. */
    method WritePort(port: nat, v: byte)
      modifies this
      ensures Contents() == PortWrite(old(Contents()), port, v)
    {
      var d := Decode(port, v);
      if d.None? {
        return;
      }
      var op := d.value;
      if op.AddressByte? || op.CountByte? || op.ModeOf? || op.PageByte? {
        WriteChannel(op);
        return;
      }
      if op.SparePage? {
        wiring := wiring.(spare := wiring.spare[op.index := op.value]);
        return;
      }
      var c := if op.unit.One? then low else high;
      match op {
        case Command(u, value) =>
          SetChip(u, c.(command := value, disabled := (value / 4) % 2 == 1));
          ControlHrq(u);
        case Request(u, k, on) =>
          SetChip(u, c.(request := Change(c.request, k, on)));
          ControlHrq(u);
        case SingleMask(u, k, on) =>
          SetChip(u, c.(mask := Change(c.mask, k, on)));
          ControlHrq(u);
        case AllMasks(u, mask) =>
          SetChip(u, c.(mask := mask));
          ControlHrq(u);
        case ClearFlipFlop(u) =>
          SetChip(u, c.(flipFlop := false));
        case Clear(u) =>
          SetChip(u, c.(mask := ALL, disabled := false, command := 0, request := {}, terminal := {}, flipFlop := false));
      }
    }

    /** `write`: the one word write that is split, and every other taken by its low byte. */
    method Write(port: nat, v: nat, ioLen: nat)
      modifies this
      ensures Contents() == PortWriteWide(old(Contents()), port, v, ioLen)
    {
      if ioLen == 2 && port == 0x0B {
        WritePort(port, v % 256);
        WritePort(port + 1, v / 256 % 256);
        return;
      }
      WritePort(port, v % 256);
    }

    method WriteChannel(op: Op)
      requires op.AddressByte? || op.CountByte? || op.ModeOf? || op.PageByte?
      modifies this
      ensures Contents() == Step(old(Contents()), op).state
    {
      var c := if op.unit.One? then low else high;
      var k := op.slot;
      var ch := c.chan[k];
      match op {
        case AddressByte(u, _, v) =>
          if !c.flipFlop {
            ch := ch.(base := v, address := v);
          } else {
            ch := ch.(base := HighByte(ch.base, v), address := HighByte(ch.address, v));
          }
          SetChip(u, c.(flipFlop := !c.flipFlop, chan := c.chan[k := ch]));
        case CountByte(u, _, v) =>
          if !c.flipFlop {
            ch := ch.(baseCount := v, count := v);
          } else {
            ch := ch.(baseCount := HighByte(ch.baseCount, v), count := HighByte(ch.count, v));
          }
          SetChip(u, c.(flipFlop := !c.flipFlop, chan := c.chan[k := ch]));
        case ModeOf(u, _, m) =>
          SetChip(u, c.(chan := c.chan[k := ch.(mode := m)]));
        case PageByte(u, _, v) =>
          SetChip(u, c.(chan := c.chan[k := ch.(page := v)]));
      }
    }

    /** Reading the current address (or count) gives its halves in turn. */
    method ReadCurrent(u: Unit, k: Slot, count: bool) returns (v: byte)
      modifies this
      ensures Contents() == ToggleFlipFlop(old(Contents()), u)
      ensures var c := old(Pick(Contents(), u));
              v == ReadHalf(c.flipFlop, if count then c.chan[k].count else c.chan[k].address)
    {
      var c := if u.One? then low else high;
      v := ReadHalf(c.flipFlop, if count then c.chan[k].count else c.chan[k].address);
      SetChip(u, c.(flipFlop := !c.flipFlop));
    }

    /** Collecting the filed level. */
    method TakeHrq() returns (r: Option<bool>)
      modifies this
      ensures r == old(hrq) && Contents() == old(Contents()).(hrq := None)
    {
      r, hrq := hrq, None;
    }
  }
}
