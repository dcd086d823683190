/**
 What a driver's port writes come to (`rusty_box/src/dma.rs`, lines 742-903): the whole
 sequence that programs a channel, and each control port, for both chips.
 */
module DmaDriver {
  import opened Base
  import opened Arith
  import opened Dma8237
  import opened DmaLines
  import opened DmaController
  import opened DmaConservation

  // ---- The ports of the PC, by chip and channel ----

  function AddressPort(u: Unit, k: Slot): nat {
    if u.One? then 2 * k else 0xC0 + 4 * k
  }

  function CountPort(u: Unit, k: Slot): nat {
    if u.One? then 2 * k + 1 else 0xC2 + 4 * k
  }

  /** Channels 0 to 3 have their pages at 0x87, 0x83, 0x81 and 0x82, channels 4 to 7 eight above. */
  function PagePort(u: Unit, k: Slot): nat {
    (if k == 0 then 0x87 else if k == 1 then 0x83 else if k == 2 then 0x81 else 0x82) + if u.One? then 0 else 8
  }

  function MaskPort(u: Unit): nat { if u.One? then 0x0A else 0xD4 }
  function ModePort(u: Unit): nat { if u.One? then 0x0B else 0xD6 }
  function FlipFlopPort(u: Unit): nat { if u.One? then 0x0C else 0xD8 }

  datatype Write = Write(port: nat, value: byte)

  function Writes(s: State, ws: seq<Write>): State
    decreases |ws|, s
  {
    if ws == [] then s else Writes(PortWrite(s, ws[0].port, ws[0].value), ws[1..])
  }

  lemma {:induction false} WritesJoin(s: State, a: seq<Write>, b: seq<Write>)
    ensures Writes(s, a + b) == Writes(Writes(s, a), b)
    decreases |a|
  {
    if a == [] {
      assert a + b == b;
    } else {
      assert (a + b)[1..] == a[1..] + b;
      WritesJoin(PortWrite(s, a[0].port, a[0].value), a[1..], b);
    }
  }

  lemma OneWrite(s: State, w: Write)
    ensures Writes(s, [w]) == PortWrite(s, w.port, w.value)
  {
    assert [w][1..] == [];
    assert Writes(s, [w]) == Writes(PortWrite(s, w.port, w.value), []);
  }

  // ---- What each port means ----

  lemma RegisterPorts(u: Unit, k: Slot, v: byte)
    ensures Decode(AddressPort(u, k), v) == Some(AddressByte(u, k, v))
    ensures Decode(CountPort(u, k), v) == Some(CountByte(u, k, v))
    ensures Decode(PagePort(u, k), v) == Some(PageByte(u, k, v))
    ensures Decode(FlipFlopPort(u), v) == Some(ClearFlipFlop(u))
  {
    assert k == 0 || k == 1 || k == 2 || k == 3;
  }

  /** The mode byte: kind in the top two bits, then decrement, autoinit, transfer and channel. */
  function ModeByte(kind: nat, decrement: bool, autoinit: bool, transfer: nat, k: Slot): nat {
    64 * kind + 32 * Bit(decrement) + 16 * Bit(autoinit) + 4 * transfer + k
  }

  lemma ModeBits(kind: nat, d: nat, a: nat, transfer: nat, k: Slot, v: nat)
    requires kind < 4 && d < 2 && a < 2 && transfer < 4 && v == 64 * kind + 32 * d + 16 * a + 4 * transfer + k
    ensures v < 256 && v / 64 == kind && v / 32 % 2 == d && v / 16 % 2 == a && v / 4 % 4 == transfer && v % 4 == k
  {
    var q := 4 * kind + 2 * d + a;
    DivIs(v, 64, kind, 32 * d + 16 * a + 4 * transfer + k);
    DivIs(v, 32, 2 * kind + d, 16 * a + 4 * transfer + k);
    DivIs(2 * kind + d, 2, kind, d);
    DivIs(v, 16, q, 4 * transfer + k);
    DivIs(q, 2, 2 * kind + d, a);
    DivIs(v, 4, 4 * q + transfer, k);
    DivIs(4 * q + transfer, 4, q, transfer);
  }

  lemma ModePortSets(u: Unit, kind: nat, decrement: bool, autoinit: bool, transfer: nat, k: Slot)
    requires kind < 4 && transfer < 4
    ensures ModeByte(kind, decrement, autoinit, transfer, k) < 256
    ensures Decode(ModePort(u), ModeByte(kind, decrement, autoinit, transfer, k)) ==
            Some(ModeOf(u, k, Mode(kind, decrement, autoinit, transfer)))
  {
    ModeBits(kind, Bit(decrement), Bit(autoinit), transfer, k, ModeByte(kind, decrement, autoinit, transfer, k));
  }

  /** Writing `k` to the mask port opens channel `k`, and writing `4 + k` masks it. */
  lemma MaskPortSets(u: Unit, k: Slot, on: bool)
    ensures Decode(MaskPort(u), k + 4 * Bit(on)) == Some(SingleMask(u, k, on))
  {
  }

  // ---- Programming a channel ----

  /** What a driver wants of a channel. */
  datatype Job = Job(unit: Unit, slot: Slot, mode: Mode, page: byte, base: u16, count: u16)

  predicate WellFormedJob(j: Job) {
    j.mode.kind < 4 && j.mode.transfer < 4
  }

  /** Mode and page, after clearing the flip-flop. */
  function SetupWrites(j: Job, any: byte): seq<Write>
    requires WellFormedJob(j)
  {
    ModePortSets(j.unit, j.mode.kind, j.mode.decrement, j.mode.autoinit, j.mode.transfer, j.slot);
    [Write(FlipFlopPort(j.unit), any)]
    + [Write(ModePort(j.unit), ModeByte(j.mode.kind, j.mode.decrement, j.mode.autoinit, j.mode.transfer, j.slot))]
    + [Write(PagePort(j.unit, j.slot), j.page)]
  }

  function Halved(port: nat, x: u16): seq<Write> {
    [Write(port, x % 256)] + [Write(port, x / 256)]
  }

  /** All of it: mode, page, address and count, low byte first, and the mask opened last. */
  function DriverWrites(j: Job, any: byte): seq<Write>
    requires WellFormedJob(j)
  {
    SetupWrites(j, any) + Halved(AddressPort(j.unit, j.slot), j.base) + Halved(CountPort(j.unit, j.slot), j.count)
    + [Write(MaskPort(j.unit), j.slot)]
  }

  lemma LastChannelStays(s: State, u: Unit, k: Slot, c: Channel, d: Channel)
    ensures WithChannel(WithChannel(s, u, k, c), u, k, d) == WithChannel(s, u, k, d)
    ensures Pick(WithChannel(s, u, k, c), u).chan[k] == c
  {
    assert Pick(s, u).chan[k := c][k := d] == Pick(s, u).chan[k := d];
  }

  lemma SetupSets(s: State, j: Job, any: byte) returns (t: State)
    requires WellFormedJob(j)
    ensures t == Writes(s, SetupWrites(j, any))
    ensures var s1 := With(s, j.unit, Pick(s, j.unit).(flipFlop := false));
            t == WithChannel(s1, j.unit, j.slot, Pick(s, j.unit).chan[j.slot].(mode := j.mode, page := j.page))
  {
    var u, k := j.unit, j.slot;
    var mode := ModeByte(j.mode.kind, j.mode.decrement, j.mode.autoinit, j.mode.transfer, k);
    ModePortSets(u, j.mode.kind, j.mode.decrement, j.mode.autoinit, j.mode.transfer, k);
    RegisterPorts(u, k, any);
    RegisterPorts(u, k, j.page);
    var s1 := With(s, u, Pick(s, u).(flipFlop := false));
    var c := Pick(s, u).chan[k];
    var s2 := WithChannel(s1, u, k, c.(mode := j.mode));
    t := WithChannel(s2, u, k, c.(mode := j.mode, page := j.page));
    var a, b, d := [Write(FlipFlopPort(u), any)], [Write(ModePort(u), mode)], [Write(PagePort(u, k), j.page)];
    OneWrite(s, a[0]);
    OneWrite(s1, b[0]);
    OneWrite(s2, d[0]);
    WritesJoin(s, a, b);
    WritesJoin(s, a + b, d);
    LastChannelStays(s1, u, k, c.(mode := j.mode), c.(mode := j.mode, page := j.page));
  }

  lemma HalvesOf(x: u16)
    ensures x / 256 < 256 && HighByte(x % 256, x / 256) == x
  {
    TwoBytes(x % 256, x / 256);
  }

  lemma AddressHalves(s: State, u: Unit, k: Slot, x: u16) returns (t: State)
    requires !Pick(s, u).flipFlop
    ensures t == Writes(s, Halved(AddressPort(u, k), x))
    ensures t == WithChannel(s, u, k, Pick(s, u).chan[k].(base := x, address := x))
  {
    var lo, hi := x % 256, x / 256;
    HalvesOf(x);
    RegisterPorts(u, k, lo);
    RegisterPorts(u, k, hi);
    var a, b := Write(AddressPort(u, k), lo), Write(AddressPort(u, k), hi);
    var s1 := WriteAddress(s, u, k, lo);
    OneWrite(s, a);
    OneWrite(s1, b);
    WritesJoin(s, [a], [b]);
    t := WriteAddress(s1, u, k, hi);
    var c := Pick(s, u).chan;
    assert c[k := c[k].(base := lo, address := lo)][k := c[k].(base := x, address := x)] == c[k := c[k].(base := x, address := x)];
  }

  lemma CountHalves(s: State, u: Unit, k: Slot, x: u16) returns (t: State)
    requires !Pick(s, u).flipFlop
    ensures t == Writes(s, Halved(CountPort(u, k), x))
    ensures t == WithChannel(s, u, k, Pick(s, u).chan[k].(baseCount := x, count := x))
  {
    var lo, hi := x % 256, x / 256;
    HalvesOf(x);
    RegisterPorts(u, k, lo);
    RegisterPorts(u, k, hi);
    var a, b := Write(CountPort(u, k), lo), Write(CountPort(u, k), hi);
    var s1 := WriteCount(s, u, k, lo);
    OneWrite(s, a);
    OneWrite(s1, b);
    WritesJoin(s, [a], [b]);
    t := WriteCount(s1, u, k, hi);
    var c := Pick(s, u).chan;
    assert c[k := c[k].(baseCount := lo, count := lo)][k := c[k].(baseCount := x, count := x)] ==
           c[k := c[k].(baseCount := x, count := x)];
  }

  /** The mask of one channel, and nothing else of either chip but what re-examining a chip passes on. */
  lemma MaskWrite(s: State, u: Unit, k: Slot, on: bool) returns (t: State)
    ensures t == Writes(s, [Write(MaskPort(u), k + 4 * Bit(on))]) == PortWrite(s, MaskPort(u), k + 4 * Bit(on))
    ensures t.wiring == s.wiring && t.high.request - {0} == s.high.request - {0}
    ensures u.One? ==> t.low == s.low.(mask := Change(s.low.mask, k, on)) && t.high == s.high.(drq := t.high.drq, request := t.high.request)
    ensures u.Two? ==> t.low == s.low && t.high == s.high.(mask := Change(s.high.mask, k, on))
  {
    MaskPortSets(u, k, on);
    OneWrite(s, Write(MaskPort(u), k + 4 * Bit(on)));
    t := PortWrite(s, MaskPort(u), k + 4 * Bit(on));
    ControlFrame(With(s, u, Pick(s, u).(mask := Change(Pick(s, u).mask, k, on))), u);
  }

  lemma RegistersSet(s: State, j: Job, any: byte) returns (t: State)
    requires WellFormedJob(j)
    ensures t == Writes(s, SetupWrites(j, any) + Halved(AddressPort(j.unit, j.slot), j.base) + Halved(CountPort(j.unit, j.slot), j.count))
    ensures var s1 := With(s, j.unit, Pick(s, j.unit).(flipFlop := false));
            t == WithChannel(s1, j.unit, j.slot,
                             Channel(j.mode, j.base, j.base, j.count, j.count, j.page, Pick(s, j.unit).chan[j.slot].used))
  {
    var u, k := j.unit, j.slot;
    var a, b, d := SetupWrites(j, any), Halved(AddressPort(u, k), j.base), Halved(CountPort(u, k), j.count);
    var s1 := With(s, u, Pick(s, u).(flipFlop := false));
    var c0 := Pick(s, u).chan[k].(mode := j.mode, page := j.page);
    var s2 := SetupSets(s, j, any);
    LastChannelStays(s1, u, k, c0, c0);
    var s3 := AddressHalves(s2, u, k, j.base);
    WritesJoin(s, a, b);
    var c1 := c0.(base := j.base, address := j.base);
    LastChannelStays(s1, u, k, c0, c1);
    LastChannelStays(s1, u, k, c1, c1);
    t := CountHalves(s3, u, k, j.count);
    WritesJoin(s, a + b, d);
    LastChannelStays(s1, u, k, c1, c1.(baseCount := j.count, count := j.count));
  }

  /**
   Whatever the registers held and wherever the flip-flop stood, the sequence leaves the
   channel programmed and open, the other channels and masks of both chips as they were.
   */
  lemma DriverPrograms(s: State, j: Job, any: byte) returns (t: State)
    requires WellFormedJob(j)
    ensures t == Writes(s, DriverWrites(j, any))
    ensures var c, d := Pick(s, j.unit), Pick(t, j.unit);
            && d.chan == c.chan[j.slot := Channel(j.mode, j.base, j.base, j.count, j.count, j.page, c.chan[j.slot].used)]
            && d.mask == c.mask - {j.slot} && d.disabled == c.disabled && !d.flipFlop
    ensures j.unit.One? ==> t.low.request == s.low.request && t.high.chan == s.high.chan && t.high.mask == s.high.mask
    ensures j.unit.Two? ==> t.low == s.low
    ensures t.wiring == s.wiring && t.high.disabled == s.high.disabled && t.high.request - {0} == s.high.request - {0}
  {
    var u, k := j.unit, j.slot;
    var s1 := RegistersSet(s, j, any);
    t := MaskWrite(s1, u, k, false);
    WritesJoin(s, SetupWrites(j, any) + Halved(AddressPort(u, k), j.base) + Halved(CountPort(u, k), j.count), [Write(MaskPort(u), k)]);
  }

  // ---- From the ports to memory ----

  /** A block to be written to memory by channel `b.slot` of DMA1. */
  function JobOf(b: Block, kind: nat): Job {
    Job(One, b.slot, Mode(kind, false, b.autoinit, WRITE), b.page, b.base, b.count)
  }

  /** Port writes alone program a block from its start. */
  lemma DriverStartsBlock(s: State, b: Block, kind: nat, any: byte) returns (t: State)
    requires kind < 4
    ensures t == Writes(s, DriverWrites(JobOf(b, kind), any))
    ensures At(t.low.chan[b.slot], b, 0) && t.low.mask == s.low.mask - {b.slot}
    ensures forall j: Slot :: j != b.slot ==> t.low.chan[j] == s.low.chan[j]
    ensures t.low.chan[b.slot].used == s.low.chan[b.slot].used && t.low.request == s.low.request && t.low.disabled == s.low.disabled
    ensures t.high.chan == s.high.chan && t.high.mask == s.high.mask && t.high.disabled == s.high.disabled
    ensures t.wiring == s.wiring
  {
    t := DriverPrograms(s, JobOf(b, kind), any);
    WrapsSmall(b.base);
    WrapsSmall(b.count);
  }

  lemma WrapsSmall(x: u16)
    ensures Wrap(x) == x
  {
  }

  lemma RequestIsLowest(s: State, k: Slot)
    requires !s.low.disabled && s.low.chan[k].used && s.high.chan[0].used && k !in s.low.mask && 0 !in s.high.mask
    requires forall j: Slot :: j < k && j in s.low.request ==> j in s.low.mask
    ensures Granted(SetDrq(s, k, true)) == Some(Grant(One, k))
  {
    var c := s.low.(drq := s.low.drq + {k}, request := s.low.request + {k});
    var s1 := s.(low := c);
    assert k in Eligible(c);
    assert SetDrq(s, k, true) == ControlHrq(s1, One) == SetDrq(s1, CASCADE, true);
    CascadeFrame(s1, true);
    var t := SetDrq(s1, CASCADE, true);
    assert 0 in Eligible(t.high);
    assert IsLowest(Eligible(t.low), k);
    GrantIsLowest(t, Grant(One, k));
  }

  lemma OpensCascade(s: State) returns (t: State)
    ensures t == PortWrite(s, MaskPort(Two), 0)
    ensures t.low == s.low && t.high.chan == s.high.chan && 0 !in t.high.mask
  {
    t := MaskWrite(s, Two, 0, false);
  }

  /**
   With the cascade opened at the port of DMA2 and nothing more urgent waiting, the
   device's request brings the next hold to the channel so programmed.
   */
  lemma DriverIsGranted(s: State, b: Block, kind: nat, any: byte) returns (s': State, t: State)
    requires kind < 4 && !s.low.disabled && s.low.chan[b.slot].used && s.high.chan[0].used
    requires forall j: Slot :: j < b.slot && j in s.low.request ==> j in s.low.mask
    ensures s' == Writes(s, DriverWrites(JobOf(b, kind), any)) && t == PortWrite(s', MaskPort(Two), 0)
    ensures At(t.low.chan[b.slot], b, 0) && Granted(SetDrq(t, b.slot, true)) == Some(Grant(One, b.slot))
  {
    s' := DriverStartsBlock(s, b, kind, any);
    t := OpensCascade(s');
    RequestIsLowest(t, b.slot);
  }

  /** And over any run that then leaves the channel's registers alone, the block goes to memory. */
  lemma DriverTransfers(s: State, b: Block, kind: nat, any: byte, ops: seq<Op>) returns (t: State)
    requires kind < 4 && Fits(b)
    requires Undisturbed(History(Writes(s, DriverWrites(JobOf(b, kind), any)), []), ops, On(b))
    ensures t == Writes(s, DriverWrites(JobOf(b, kind), any)) && Progress(Play(History(t, []), ops), b)
  {
    t := DriverStartsBlock(s, b, kind, any);
    FreshBlock(t, b);
    Conservation(History(t, []), ops, b);
  }

  // ---- The control ports ----

  function CommandPort(u: Unit): nat { if u.One? then 0x08 else 0xD0 }
  function RequestPort(u: Unit): nat { if u.One? then 0x09 else 0xD2 }
  function ClearPort(u: Unit): nat { if u.One? then 0x0D else 0xDA }
  function OpenPort(u: Unit): nat { if u.One? then 0x0E else 0xDC }
  function AllMasksPort(u: Unit): nat { if u.One? then 0x0F else 0xDE }

  /** Bit `k` of a byte. */
  predicate BitOf(v: byte, k: Slot) {
    (if k == 0 then v else if k == 1 then v / 2 else if k == 2 then v / 4 else v / 8) % 2 == 1
  }

  /** Bit `k` of the byte written to the all-masks port masks channel `k`; the open port masks none. */
  lemma AllMasksPortSets(s: State, u: Unit, v: byte, k: Slot)
    ensures k in Pick(PortWrite(s, AllMasksPort(u), v), u).mask <==> BitOf(v, k)
    ensures Pick(PortWrite(s, OpenPort(u), v), u).mask == {}
  {
    var c := Pick(s, u);
    assert Decode(AllMasksPort(u), v) == Some(AllMasks(u, MaskOf(v)));
    assert Decode(OpenPort(u), v) == Some(AllMasks(u, {}));
    ControlFrame(With(s, u, c.(mask := MaskOf(v))), u);
    ControlFrame(With(s, u, c.(mask := {})), u);
    assert k == 0 || k == 1 || k == 2 || k == 3;
  }

  /** Bit 2 of the command disables the chip. */
  lemma CommandPortSets(s: State, u: Unit, v: byte)
    ensures Pick(PortWrite(s, CommandPort(u), v), u).disabled <==> BitOf(v, 2)
    ensures Pick(PortWrite(s, CommandPort(u), v), u).mask == Pick(s, u).mask
  {
    assert Decode(CommandPort(u), v) == Some(Command(u, v));
    ControlFrame(With(s, u, Pick(s, u).(command := v, disabled := (v / 4) % 2 == 1)), u);
  }

  /** Writing `4 + k` to the request port requests channel `k`, and writing `k` withdraws that. */
  lemma RequestPortSets(s: State, k: Slot, on: bool)
    ensures PortWrite(s, RequestPort(One), k + 4 * Bit(on)).low.request == Change(s.low.request, k, on)
    ensures PortWrite(s, RequestPort(Two), k + 4 * Bit(on)).high.request == Change(s.high.request, k, on)
  {
    var v := k + 4 * Bit(on);
    assert Decode(RequestPort(One), v) == Some(Request(One, k, on));
    assert Decode(RequestPort(Two), v) == Some(Request(Two, k, on));
    ControlFrame(s.(low := s.low.(request := Change(s.low.request, k, on))), One);
    ControlFrame(s.(high := s.high.(request := Change(s.high.request, k, on))), Two);
  }

  /** Clearing a chip masks every channel, forgets requests and enables it, and touches no channel. */
  lemma ClearPortClears(s: State, u: Unit, v: byte)
    ensures var c := Pick(PortWrite(s, ClearPort(u), v), u);
            c.mask == ALL && c.request == {} && !c.disabled && !c.flipFlop && c.chan == Pick(s, u).chan
  {
    assert Decode(ClearPort(u), v) == Some(Clear(u));
  }

  /** A word written to port 0x0B sets the mode and clears the flip-flop; written anywhere else, only its low byte counts. */
  lemma WideWrites(s: State, port: nat, v: nat, ioLen: nat)
    ensures ioLen == 2 && port == 0x0B ==>
              !PortWriteWide(s, port, v, ioLen).low.flipFlop &&
              PortWriteWide(s, port, v, ioLen).low.chan == PortWrite(s, 0x0B, v % 256).low.chan
    ensures !(ioLen == 2 && port == 0x0B) ==> PortWriteWide(s, port, v, ioLen) == PortWriteWide(s, port, v % 256, 1)
  {
    assert Decode(0x0C, v / 256 % 256) == Some(ClearFlipFlop(One));
    assert v % 256 % 256 == v % 256;
  }
}
