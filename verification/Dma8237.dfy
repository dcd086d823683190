/**
 The two 8237 DMA controllers of a PC (`rusty_box/src/dma.rs`): DMA1 moves bytes for
 channels 0-3, DMA2 moves words for channels 5-7 and carries DMA1 on channel 4.
 The status register is kept as its two halves, the requests (bits 4-7) and the
 terminal counts (bits 0-3).
 */
module Dma8237 {
  import opened Base

  const BUFFER_SIZE: nat := 512
  const CASCADE: nat := 4
  const EXPIRED: nat := 0xFFFF

  type u16 = n: nat | n < 0x1_0000
  type Slot = n: nat | n < 4

  datatype Mode = Mode(kind: nat, decrement: bool, autoinit: bool, transfer: nat)

  const VERIFY: nat := 0
  const WRITE: nat := 1
  const READ: nat := 2

  datatype Channel = Channel(mode: Mode, base: u16, address: u16, baseCount: u16, count: u16, page: byte, used: bool)

  const IDLE: Channel := Channel(Mode(0, false, false, 0), 0, 0, 0, 0, 0, false)

  type Bank = s: seq<Channel> | |s| == 4 witness [IDLE, IDLE, IDLE, IDLE]

  datatype Chip = Chip(
    drq: set<Slot>,
    dack: set<Slot>,
    mask: set<Slot>,
    request: set<Slot>,
    terminal: set<Slot>,
    flipFlop: bool,
    command: byte,
    disabled: bool,
    chan: Bank)

  datatype Unit = One | Two

  /** Page registers no channel uses; they only hold what is written. */
  type Spare = n: nat | n < 16
  const NO_PAGES: seq<byte> := [0, 0, 0, 0, 0, 0, 0, 0, 0, 0, 0, 0, 0, 0, 0, 0]
  type SparePages = s: seq<byte> | |s| == 16 witness NO_PAGES

  /**
   Channels with a device handler, registration setting the read and the write handler
   together; and the spare page registers.
   */
  datatype Wiring = Wiring(byteWide: set<Slot>, wordWide: set<Slot>, spare: SparePages)

  const UNWIRED: Wiring := Wiring({}, {}, NO_PAGES)

  /** `hrq` is the level filed towards the CPU and not yet collected. */
  datatype State = State(low: Chip, high: Chip, hlda: bool, tc: bool, hrq: Option<bool>, wiring: Wiring)

  const ALL: set<Slot> := {0, 1, 2, 3}

  function Pick(s: State, u: Unit): Chip {
    if u.One? then s.low else s.high
  }

  function With(s: State, u: Unit, c: Chip): State {
    if u.One? then s.(low := c) else s.(high := c)
  }

  function WithChannel(s: State, u: Unit, k: Slot, chan: Channel): State {
    var c := Pick(s, u);
    With(s, u, c.(chan := c.chan[k := chan]))
  }

  // ---- Coming up ----

  const RESET_CHIP: Chip := Chip({}, {}, ALL, {}, {}, false, 0, false, [IDLE, IDLE, IDLE, IDLE])

  function New(): State {
    State(RESET_CHIP, RESET_CHIP, false, false, None, UNWIRED)
  }

  /** `init`: lines and channels are cleared and channel 4 given to the cascade; status, masks and handlers stay. */
  function Init(s: State): State {
    s.(low := s.low.(drq := {}, dack := {}, chan := [IDLE, IDLE, IDLE, IDLE]),
       high := s.high.(drq := {}, dack := {}, chan := [IDLE.(used := true), IDLE, IDLE, IDLE]),
       hlda := false, tc := false, hrq := None, wiring := s.wiring.(spare := NO_PAGES))
  }

  /** A device takes a channel: 0-3 for bytes, 5-7 for words; a channel in use is refused. */
  function Register(s: State, u: Unit, k: Slot): Option<State> {
    var c := Pick(s, u);
    if c.chan[k].used then None
    else
      var w := s.wiring;
      Some(WithChannel(s, u, k, c.chan[k].(used := true))
           .(wiring := if u.One? then w.(byteWide := w.byteWide + {k}) else w.(wordWide := w.wordWide + {k})))
  }

  // ---- Requests ----

  /** Requests that are not masked. */
  function Eligible(c: Chip): set<Slot> {
    c.request - c.mask
  }

  function Change(lines: set<Slot>, k: Slot, on: bool): set<Slot> {
    if on then lines + {k} else lines - {k}
  }

  /** `set_drq`. */
  function SetDrq(s: State, channel: nat, on: bool): State
    decreases if channel > 3 then 1 else 3
  {
    if channel > 7 then s
    else
      var u := if channel > 3 then Two else One;
      var k: Slot := channel % 4;
      var c := Pick(s, u);
      if !c.chan[k].used then With(s, u, c.(drq := Change(c.drq, k, on)))
      else ControlHrq(With(s, u, c.(drq := Change(c.drq, k, on), request := Change(c.request, k, on))), u)
  }

  /** `control_hrq`: DMA2 files a level for the CPU, DMA1 drives the cascade request of DMA2. */
  function ControlHrq(s: State, u: Unit): State
    decreases if u.Two? then 0 else 2
  {
    var c := Pick(s, u);
    if c.disabled then s
    else if c.request == {} then
      if u.Two? then s.(hrq := Some(false)) else SetDrq(s, CASCADE, false)
    else if Eligible(c) != {} then
      if u.Two? then s.(hrq := Some(true)) else SetDrq(s, CASCADE, true)
    else s
  }

  // ---- Which channel is granted ----

  datatype Grant = Grant(unit: Unit, slot: Slot)

  function First(slots: set<Slot>): Option<Slot> {
    if 0 in slots then Some(0) else if 1 in slots then Some(1) else if 2 in slots then Some(2)
    else if 3 in slots then Some(3) else None
  }

  ghost predicate IsLowest(slots: set<Slot>, k: Slot) {
    k in slots && forall j :: j in slots ==> k <= j
  }

  lemma FirstIsLowest(slots: set<Slot>)
    ensures First(slots).None? <==> slots == {}
    ensures forall k: Slot :: First(slots) == Some(k) <==> IsLowest(slots, k)
  {
    if First(slots).None? {
      forall k: Slot ensures k !in slots {
        assert k == 0 || k == 1 || k == 2 || k == 3;
      }
    }
  }

  function Granted(s: State): Option<Grant> {
    match First(Eligible(s.high))
    case None => None
    case Some(k) =>
      if k != 0 then Some(Grant(Two, k))
      else
        match First(Eligible(s.low))
        case None => None
        case Some(j) => Some(Grant(One, j))
  }

  // ---- One acknowledged hold ----

  /** What a device handler does with one grant: how much it moved, and the buffer it left. */
  datatype Answer = Answer(len: nat, buffer: seq<byte>)

  datatype Transfer = Transfer(grant: Grant, address: nat, len: nat, data: seq<byte>, expired: bool)

  datatype Outcome = Outcome(state: State, transfer: Option<Transfer>)

  /** Bytes left before the count runs out, in the 16 bits the code computes them in. */
  function Remaining(u: Unit, c: Channel): nat {
    (if u.One? then c.count + 1 else 2 * (c.count + 1)) % 0x1_0000
  }

  function MaxLen(u: Unit, c: Channel): nat {
    if c.mode.decrement then (if u.One? then 1 else 2)
    else if Remaining(u, c) > BUFFER_SIZE then BUFFER_SIZE
    else Remaining(u, c)
  }

  function AtTerminalCount(u: Unit, c: Channel): bool {
    if c.mode.decrement then c.count == 0 else Remaining(u, c) <= BUFFER_SIZE
  }

  /** The largest amount a handler is asked for. */
  function Asked(u: Unit, c: Channel): nat {
    if c.mode.transfer == VERIFY then 1 else if u.One? then MaxLen(u, c) else MaxLen(u, c) / 2
  }

  function Wired(s: State, g: Grant): bool {
    g.slot in if g.unit.One? then s.wiring.byteWide else s.wiring.wordWide
  }

  /** How far the channel moves, or `None` when the grant is abandoned. */
  function Moved(s: State, g: Grant, a: Answer): Option<nat> {
    var c := Pick(s, g.unit).chan[g.slot];
    if c.mode.transfer == READ then Some(if Wired(s, g) then a.len else MaxLen(g.unit, c))
    else if c.mode.transfer <= WRITE then (if Wired(s, g) then Some(a.len) else None)
    else None
  }

  /** The page register joined with the address; DMA2 addresses words. */
  function Physical(u: Unit, c: Channel): nat {
    if u.One? then c.page * 0x1_0000 + c.address
    else (if c.address >= 0x8000 && c.page % 2 == 0 then c.page + 1 else c.page) * 0x1_0000 + (2 * c.address) % 0x1_0000
  }

  function Wrap(x: int): u16 {
    x % 0x1_0000
  }

  function Advance(c: Channel, len: nat): Channel {
    c.(address := if c.mode.decrement then Wrap(c.address - 1) else Wrap(c.address + len), count := Wrap(c.count - len))
  }

  /** At count expiry a channel is masked, or with autoinit reloaded. */
  function Reload(c: Channel): Channel {
    if c.mode.autoinit then c.(address := c.base, count := c.baseCount) else c
  }

  function ExpiredChip(c: Chip, k: Slot): Chip {
    c.(
      terminal := c.terminal + {k},
      mask := if c.chan[k].mode.autoinit then c.mask else c.mask + {k},
      dack := c.dack - {k},
      chan := c.chan[k := Reload(c.chan[k])])
  }

  function Expire(s: State, g: Grant): State {
    var s1 := With(s, g.unit, ExpiredChip(Pick(s, g.unit), g.slot)).(tc := false, hlda := false, hrq := Some(false));
    if g.unit.Two? then s1
    else
      var s2 := SetDrq(s1, CASCADE, false);
      s2.(high := s2.high.(dack := s2.high.dack - {0}))
  }

  /** The state once the hold is acknowledged and the cascade, if chosen, is passed through. */
  function Acknowledged(s: State): State {
    var s1 := s.(hlda := true);
    if First(Eligible(s.high)) == Some(0) then s1.(high := s1.high.(dack := s1.high.dack + {0})) else s1
  }

  function Move(s: State, g: Grant, len: nat): State {
    var c := Pick(s, g.unit);
    With(s, g.unit, c.(dack := c.dack + {g.slot}, chan := c.chan[g.slot := Advance(c.chan[g.slot], len)]))
  }

  /** The rest of a hold once its channel is chosen. */
  function Serve(s: State, g: Grant, a: Answer): Outcome {
    var c := Pick(s, g.unit).chan[g.slot];
    var s1 := s.(tc := AtTerminalCount(g.unit, c));
    match Moved(s, g, a)
    case None => Outcome(s1, None)
    case Some(len) =>
      var expired := Advance(c, len).count == EXPIRED;
      var s2 := Move(s1, g, len);
      Outcome(
        if expired then Expire(s2, g) else s2,
        Some(Transfer(g, Physical(g.unit, c), len, if c.mode.transfer == WRITE then Prefix(a.buffer, len) else [], expired)))
  }

  /** `raise_hlda`. */
  function RaiseHlda(s: State, a: Answer): Outcome {
    match Granted(s)
    case None => Outcome(Acknowledged(s), None)
    case Some(g) => Serve(Acknowledged(s), g, a)
  }

  function Prefix(buffer: seq<byte>, len: nat): seq<byte> {
    if len <= |buffer| then buffer[..len] else buffer
  }

  /** A handler keeps to its buffer and moves no more than it is asked for. */
  ghost predicate Honest(s: State, a: Answer) {
    && |a.buffer| == BUFFER_SIZE
    && (Granted(s).Some? ==>
          var g := Granted(s).value;
          a.len <= Asked(g.unit, Pick(s, g.unit).chan[g.slot]))
  }

  // ---- Register writes ----

  /** The second byte is or-ed in. */
  function HighByte(x: u16, v: byte): u16 {
    x % 256 + 256 * OrByte(x / 256, v)
  }

  function Pow2(n: nat): nat {
    if n == 0 then 1 else 2 * Pow2(n - 1)
  }

  /** Bitwise or of the low `width` bits. */
  function Or(a: nat, b: nat, width: nat): nat
    decreases width, a
  {
    if width == 0 then 0 else 2 * Or(a / 2, b / 2, width - 1) + Bit(a % 2 == 1 || b % 2 == 1)
  }

  lemma {:induction false} OrIsSmall(a: nat, b: nat, width: nat)
    ensures Or(a, b, width) < Pow2(width)
    decreases width
  {
    if width > 0 {
      OrIsSmall(a / 2, b / 2, width - 1);
    }
  }

  function OrByte(a: byte, b: byte): byte {
    OrIsSmall(a, b, 8);
    assert Pow2(8) == 256;
    Or(a, b, 8)
  }

  function WriteAddress(s: State, u: Unit, k: Slot, v: byte): State {
    var c := Pick(s, u);
    var ch := c.chan[k];
    var ch1 := if c.flipFlop then ch.(base := HighByte(ch.base, v), address := HighByte(ch.address, v))
               else ch.(base := v, address := v);
    With(s, u, c.(flipFlop := !c.flipFlop, chan := c.chan[k := ch1]))
  }

  function WriteCount(s: State, u: Unit, k: Slot, v: byte): State {
    var c := Pick(s, u);
    var ch := c.chan[k];
    var ch1 := if c.flipFlop then ch.(baseCount := HighByte(ch.baseCount, v), count := HighByte(ch.count, v))
               else ch.(baseCount := v, count := v);
    With(s, u, c.(flipFlop := !c.flipFlop, chan := c.chan[k := ch1]))
  }

  /** One half of a 16-bit register, as the flip-flop selects it. */
  function ReadHalf(flipFlop: bool, x: u16): byte {
    if flipFlop then x / 256 else x % 256
  }

  function ToggleFlipFlop(s: State, u: Unit): State {
    var c := Pick(s, u);
    With(s, u, c.(flipFlop := !c.flipFlop))
  }

  function MasterClear(s: State, u: Unit): State {
    var c := Pick(s, u);
    With(s, u, c.(mask := ALL, disabled := false, command := 0, request := {}, terminal := {}, flipFlop := false))
  }

  function WriteCommand(s: State, u: Unit, v: byte): State {
    ControlHrq(With(s, u, Pick(s, u).(command := v, disabled := (v / 4) % 2 == 1)), u)
  }

  function WriteRequest(s: State, u: Unit, k: Slot, on: bool): State {
    ControlHrq(With(s, u, Pick(s, u).(request := Change(Pick(s, u).request, k, on))), u)
  }

  function WriteMask(s: State, u: Unit, mask: set<Slot>): State {
    ControlHrq(With(s, u, Pick(s, u).(mask := mask)), u)
  }

  function SetMode(s: State, u: Unit, k: Slot, m: Mode): State {
    WithChannel(s, u, k, Pick(s, u).chan[k].(mode := m))
  }

  function WritePage(s: State, u: Unit, k: Slot, v: byte): State {
    WithChannel(s, u, k, Pick(s, u).chan[k].(page := v))
  }

  // ---- One step ----

  datatype Op =
    | Drq(channel: nat, on: bool)
    | Hold(answer: Answer)
    | Command(unit: Unit, value: byte)
    | Request(unit: Unit, slot: Slot, on: bool)
    | SingleMask(unit: Unit, slot: Slot, on: bool)
    | AllMasks(unit: Unit, mask: set<Slot>)
    | ModeOf(unit: Unit, slot: Slot, mode: Mode)
    | AddressByte(unit: Unit, slot: Slot, value: byte)
    | CountByte(unit: Unit, slot: Slot, value: byte)
    | PageByte(unit: Unit, slot: Slot, value: byte)
    | SparePage(index: Spare, value: byte)
    | Attach(unit: Unit, slot: Slot)
    | ClearFlipFlop(unit: Unit)
    | Clear(unit: Unit)
    | ReadStatus(unit: Unit)
    | ReadRegister(unit: Unit)

  function Step(s: State, op: Op): Outcome {
    match op
    case Drq(channel, on) => Outcome(SetDrq(s, channel, on), None)
    case Hold(a) => RaiseHlda(s, a)
    case Command(u, v) => Outcome(WriteCommand(s, u, v), None)
    case Request(u, k, on) => Outcome(WriteRequest(s, u, k, on), None)
    case SingleMask(u, k, on) => Outcome(WriteMask(s, u, Change(Pick(s, u).mask, k, on)), None)
    case AllMasks(u, mask) => Outcome(WriteMask(s, u, mask), None)
    case ModeOf(u, k, m) => Outcome(SetMode(s, u, k, m), None)
    case AddressByte(u, k, v) => Outcome(WriteAddress(s, u, k, v), None)
    case CountByte(u, k, v) => Outcome(WriteCount(s, u, k, v), None)
    case PageByte(u, k, v) => Outcome(WritePage(s, u, k, v), None)
    case SparePage(i, v) => Outcome(s.(wiring := s.wiring.(spare := s.wiring.spare[i := v])), None)
    case Attach(u, k) => Outcome(if Register(s, u, k).Some? then Register(s, u, k).value else s, None)
    case ClearFlipFlop(u) => Outcome(With(s, u, Pick(s, u).(flipFlop := false)), None)
    case Clear(u) => Outcome(MasterClear(s, u), None)
    case ReadStatus(u) => Outcome(With(s, u, Pick(s, u).(terminal := {})), None)
    case ReadRegister(u) => Outcome(ToggleFlipFlop(s, u), None)
  }

  ghost predicate Allowed(s: State, op: Op) {
    op.Hold? ==> Honest(s, op.answer)
  }
}
