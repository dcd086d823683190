/**
 What a channel of DMA1 moves over a whole run (`rusty_box/src/dma.rs`, lines 444-624):
 a programmed block goes to memory once, in order, and the count expires exactly
 when it is complete, whatever the other channels and the masks do meanwhile.
 */
module DmaConservation {
  import opened Base
  import opened Arith
  import opened Dma8237
  import opened DmaLines

  // ---- Histories ----

  datatype History = History(state: State, trace: seq<Transfer>)

  function Extend(h: History, op: Op): History {
    var o := Step(h.state, op);
    History(o.state, if o.transfer.Some? then h.trace + [o.transfer.value] else h.trace)
  }

  function Play(h: History, ops: seq<Op>): History
    decreases |ops|, h
  {
    if ops == [] then h else Play(Extend(h, ops[0]), ops[1..])
  }

  /** Handlers keep to what they are asked for, and nobody reprograms the channel. */
  ghost predicate Undisturbed(h: History, ops: seq<Op>, g: Grant)
    decreases |ops|, h
  {
    ops != [] ==> Allowed(h.state, ops[0]) && !Reprograms(ops[0], g) && Undisturbed(Extend(h, ops[0]), ops[1..], g)
  }

  predicate Reprograms(op: Op, g: Grant) {
    (op.ModeOf? || op.AddressByte? || op.CountByte? || op.PageByte?) && op.unit == g.unit && op.slot == g.slot
  }

  function ChannelOf(s: State, g: Grant): Channel {
    Pick(s, g.unit).chan[g.slot]
  }

  // ---- What one channel has moved ----

  predicate Mine(t: Transfer, k: Slot) {
    t.grant == Grant(One, k)
  }

  function Cells(address: nat, len: nat): (cells: seq<nat>)
    ensures |cells| == len && forall i :: 0 <= i < len ==> cells[i] == address + i
  {
    seq(len, i requires 0 <= i < len => address + i)
  }

  /** The addresses channel `k` wrote, in order. */
  function Addresses(trace: seq<Transfer>, k: Slot): seq<nat> {
    if trace == [] then []
    else
      var t := trace[|trace| - 1];
      Addresses(trace[..|trace| - 1], k) + if Mine(t, k) then Cells(t.address, t.len) else []
  }

  /** The bytes it wrote there. */
  function Stream(trace: seq<Transfer>, k: Slot): seq<byte> {
    if trace == [] then []
    else
      var t := trace[|trace| - 1];
      Stream(trace[..|trace| - 1], k) + if Mine(t, k) then t.data else []
  }

  /** How often its count expired. */
  function Expiries(trace: seq<Transfer>, k: Slot): nat {
    if trace == [] then 0
    else
      var t := trace[|trace| - 1];
      Expiries(trace[..|trace| - 1], k) + if Mine(t, k) && t.expired then 1 else 0
  }

  lemma TraceGrows(trace: seq<Transfer>, t: Transfer, k: Slot)
    ensures Addresses(trace + [t], k) == Addresses(trace, k) + if Mine(t, k) then Cells(t.address, t.len) else []
    ensures Stream(trace + [t], k) == Stream(trace, k) + if Mine(t, k) then t.data else []
    ensures Expiries(trace + [t], k) == Expiries(trace, k) + if Mine(t, k) && t.expired then 1 else 0
  {
    assert (trace + [t])[..|trace|] == trace;
  }

  // ---- What one step does to a channel ----

  lemma ControlledLeaves(s: State, u: Unit, c: Chip)
    requires c.chan == Pick(s, u).chan
    ensures var t := ControlHrq(With(s, u, c), u); t.low.chan == s.low.chan && t.high.chan == s.high.chan
  {
    ControlFrame(With(s, u, c), u);
  }

  /** Apart from being attached to a device, a channel is changed by nothing but holds and its own registers. */
  lemma OtherStepsLeave(s: State, op: Op, g: Grant)
    requires !op.Hold? && !Reprograms(op, g)
    ensures var c := ChannelOf(Step(s, op).state, g); c == ChannelOf(s, g).(used := c.used)
    ensures Step(s, op).transfer.None?
  {
    match op {
      case Drq(channel, on) => DrqLeaves(s, channel, on);
      case Command(u, v) => ControlledLeaves(s, u, Pick(s, u).(command := v, disabled := (v / 4) % 2 == 1));
      case Request(u, j, on) => ControlledLeaves(s, u, Pick(s, u).(request := Change(Pick(s, u).request, j, on)));
      case SingleMask(u, j, on) => ControlledLeaves(s, u, Pick(s, u).(mask := Change(Pick(s, u).mask, j, on)));
      case AllMasks(u, mask) => ControlledLeaves(s, u, Pick(s, u).(mask := mask));
      case _ =>
    }
  }

  lemma DrqLeaves(s: State, channel: nat, on: bool)
    ensures SetDrq(s, channel, on).low.chan == s.low.chan && SetDrq(s, channel, on).high.chan == s.high.chan
  {
    if channel <= 7 {
      var u := if channel > 3 then Two else One;
      var c := Pick(s, u);
      ControlFrame(With(s, u, c.(drq := Change(c.drq, channel % 4, on), request := Change(c.request, channel % 4, on))), u);
    }
  }

  lemma ExpireChannels(s: State, g: Grant)
    ensures Expire(s, g).low.chan == if g.unit.One? then s.low.chan[g.slot := Reload(s.low.chan[g.slot])] else s.low.chan
    ensures g.unit.One? && !s.low.chan[g.slot].mode.autoinit ==> g.slot in Expire(s, g).low.mask
  {
    if g.unit.One? {
      var s1 := s.(low := ExpiredChip(s.low, g.slot), tc := false, hlda := false, hrq := Some(false));
      CascadeFrame(s1, false);
    }
  }

  /** A hold moves channel `k` of DMA1 only by serving it. */
  lemma HoldMoves(s: State, a: Answer, k: Slot)
    ensures var o, c := RaiseHlda(s, a), s.low.chan[k];
            if o.transfer.Some? && Mine(o.transfer.value, k) then
              var len := o.transfer.value.len;
              && Granted(s) == Some(Grant(One, k)) && Some(len) == Moved(s, Grant(One, k), a)
              && o.transfer.value.address == Physical(One, c)
              && o.transfer.value.expired == (Advance(c, len).count == EXPIRED)
              && o.state.low.chan[k] == (if o.transfer.value.expired then Reload(Advance(c, len)) else Advance(c, len))
              && (o.transfer.value.expired && !c.mode.autoinit ==> k in o.state.low.mask)
            else o.state.low.chan[k] == c
  {
    if Granted(s).Some? && Moved(s, Granted(s).value, a).Some? {
      var g := Granted(s).value;
      ExpireChannels(Move(Granting(s), g, Moved(s, g, a).value), g);
    }
  }

  // ---- The block ----

  /** A block programmed into a channel: `count + 1` bytes from `base` of page `page`. */
  datatype Block = Block(slot: Slot, page: byte, base: u16, count: u16, autoinit: bool)

  /** Fewer than 65536 bytes: the length the code computes does not wrap to none. */
  predicate Fits(b: Block) {
    b.count < EXPIRED
  }

  /** The block lies within its 64 KiB page. */
  predicate InPage(b: Block) {
    b.base + b.count <= 0xFFFF
  }

  function On(b: Block): Grant {
    Grant(One, b.slot)
  }

  function Size(b: Block): nat {
    b.count + 1
  }

  function Start(b: Block): nat {
    b.page * 0x1_0000 + b.base
  }

  predicate Programmed(c: Channel, b: Block) {
    && c.mode.transfer == WRITE && !c.mode.decrement && c.mode.autoinit == b.autoinit
    && c.page == b.page && c.base == b.base && c.baseCount == b.count
  }

  /** The channel has moved `moved` bytes of its block. */
  predicate At(c: Channel, b: Block, moved: nat) {
    Programmed(c, b) && c.address == Wrap(b.base + moved) && c.count == Wrap(b.count - moved)
  }

  /** Where a grant `moved` bytes into the block begins: past the end of the page, back at its start. */
  function GrantStart(b: Block, moved: nat): int {
    if b.base + moved <= 0xFFFF then Start(b) + moved else Start(b) + moved - 0x1_0000
  }

  /** Every byte is at the address its place in the block calls for. */
  ghost predicate InPlace(cells: seq<nat>, b: Block) {
    forall i :: 0 <= i < |cells| ==> cells[i] == Start(b) + i % Size(b)
  }

  /**
   Having written `cells`, `laps` whole blocks among them, the channel is `moved` bytes
   into its block; within a page each byte is in its place.
   */
  ghost predicate Tally(c: Channel, b: Block, cells: seq<nat>, laps: nat, moved: nat) {
    && At(c, b, moved)
    && (b.autoinit ==> moved < Size(b) && |cells| == laps * Size(b) + moved)
    && (!b.autoinit ==> moved <= Size(b) && |cells| == moved && (laps > 0 <==> moved == Size(b)))
    && (InPage(b) ==> InPlace(cells, b))
  }

  /** How far into its block the channel is, from what it has written. */
  function Into(trace: seq<Transfer>, b: Block): int {
    |Addresses(trace, b.slot)| - if b.autoinit then Expiries(trace, b.slot) * Size(b) else 0
  }

  /** Every grant wrote as many bytes as the channel moved by. */
  ghost predicate Delivered(trace: seq<Transfer>, k: Slot) {
    forall t :: t in trace && Mine(t, k) ==> |t.data| == t.len
  }

  ghost predicate Progress(h: History, b: Block) {
    && Delivered(h.trace, b.slot)
    && |Stream(h.trace, b.slot)| == |Addresses(h.trace, b.slot)|
    && Into(h.trace, b) >= 0
    && Tally(h.state.low.chan[b.slot], b, Addresses(h.trace, b.slot), Expiries(h.trace, b.slot), Into(h.trace, b))
  }

  /** What is left of the block is what the channel may still be asked for, none of it once the block is complete. */
  lemma GrantAsks(c: Channel, b: Block, moved: nat)
    requires Fits(b) && At(c, b, moved) && moved <= Size(b)
    ensures Asked(One, c) <= Size(b) - moved && Asked(One, c) <= BUFFER_SIZE
    ensures moved < Size(b) ==> Asked(One, c) >= 1 && Physical(One, c) == GrantStart(b, moved)
  {
    if moved == Size(b) {
      assert c.count == EXPIRED;
    } else {
      assert c.count == b.count - moved;
    }
  }

  lemma WrapsOn(x: nat, len: nat, y: int)
    ensures Wrap(Wrap(x) + len) == Wrap(x + len) && Wrap(Wrap(y) - len) == Wrap(y - len)
  {
  }

  lemma CountExpires(count: u16, moved: nat)
    requires moved <= count + 1 < 0x1_0000
    ensures Wrap(count - moved) == EXPIRED <==> moved == count + 1
  {
    if moved <= count {
      assert Wrap(count - moved) == count - moved;
    }
  }

  lemma AdvanceMoves(c: Channel, b: Block, moved: nat, len: nat)
    requires At(c, b, moved)
    ensures At(Advance(c, len), b, moved + len)
  {
    WrapsOn(b.base + moved, len, b.count - moved);
  }

  /** One grant moves on by what the device delivered, never past the end, and expires exactly there. */
  lemma GrantMoves(c: Channel, b: Block, moved: nat, len: nat)
    requires Fits(b) && At(c, b, moved) && moved <= Size(b) && len <= Asked(One, c)
    ensures moved + len <= Size(b)
    ensures At(Advance(c, len), b, moved + len)
    ensures Advance(c, len).count == EXPIRED <==> moved + len == Size(b)
    ensures len > 0 ==> Physical(One, c) == GrantStart(b, moved)
    ensures b.autoinit ==> At(Reload(Advance(c, len)), b, 0)
    ensures !b.autoinit ==> Reload(Advance(c, len)) == Advance(c, len)
  {
    GrantAsks(c, b, moved);
    AdvanceMoves(c, b, moved, len);
    CountExpires(b.count, moved + len);
  }

  lemma LapOffset(n: nat, laps: nat, off: nat)
    requires off < n
    ensures (laps * n + off) % n == off
  {
    DivIs(laps * n + off, n, laps, off);
  }

  /** Writing the next `len` bytes of the lap keeps every address in its place. */
  lemma NextCells(b: Block, before: seq<nat>, laps: nat, moved: nat, address: nat, len: nat)
    requires |before| == laps * Size(b) + moved && moved + len <= Size(b)
    requires InPlace(before, b) && (len > 0 ==> address == Start(b) + moved)
    ensures InPlace(before + Cells(address, len), b)
  {
    var after := before + Cells(address, len);
    forall i | 0 <= i < |after| ensures after[i] == Start(b) + i % Size(b) {
      if i >= |before| {
        var off := moved + (i - |before|);
        assert i == laps * Size(b) + off;
        LapOffset(Size(b), laps, off);
      }
    }
  }

  /** The channel after a grant. */
  function Served(c: Channel, len: nat): Channel {
    if Advance(c, len).count == EXPIRED then Reload(Advance(c, len)) else Advance(c, len)
  }

  lemma GrantTallies(c: Channel, b: Block, cells: seq<nat>, laps: nat, moved: nat, len: nat)
    requires Fits(b) && Tally(c, b, cells, laps, moved) && len <= Asked(One, c)
    ensures var over := Advance(c, len).count == EXPIRED;
            && Tally(Served(c, len), b, cells + Cells(Physical(One, c), len), if over then laps + 1 else laps,
                     if over && b.autoinit then 0 else moved + len)
            && (over ==> moved + len == Size(b))
  {
    GrantMoves(c, b, moved, len);
    if InPage(b) {
      NextCells(b, cells, if b.autoinit then laps else 0, moved, Physical(One, c), len);
    }
    assert (laps + 1) * Size(b) == laps * Size(b) + Size(b);
  }

  /** A grant of the channel, and what it leaves. */
  lemma ServedTrace(h: History, t: Transfer, after: State, b: Block)
    requires Fits(b) && Progress(h, b) && Mine(t, b.slot)
    requires var c := h.state.low.chan[b.slot];
             && |t.data| == t.len <= Asked(One, c) && t.address == Physical(One, c)
             && t.expired == (Advance(c, t.len).count == EXPIRED) && after.low.chan[b.slot] == Served(c, t.len)
    ensures Progress(History(after, h.trace + [t]), b)
    ensures t.expired ==> Into(h.trace, b) + t.len == Size(b)
  {
    var k := b.slot;
    var laps, moved, trace := Expiries(h.trace, k), Into(h.trace, b), h.trace + [t];
    TraceGrows(h.trace, t, k);
    GrantTallies(h.state.low.chan[k], b, Addresses(h.trace, k), laps, moved, t.len);
    LapsGrow(laps, Size(b));
    assert Into(trace, b) == if t.expired && b.autoinit then 0 else moved + t.len;
  }

  lemma ExpiredTrace(h: History, t: Transfer, after: State, b: Block)
    requires Fits(b) && Progress(h, b) && Mine(t, b.slot) && t.expired
    requires var c := h.state.low.chan[b.slot];
             && |t.data| == t.len <= Asked(One, c) && t.address == Physical(One, c)
             && Advance(c, t.len).count == EXPIRED && after.low.chan[b.slot] == Served(c, t.len)
    ensures var trace := h.trace + [t];
            |Addresses(trace, b.slot)| == (if b.autoinit then Expiries(trace, b.slot) else 1) * Size(b)
    ensures b.autoinit ==> At(after.low.chan[b.slot], b, 0)
  {
    ServedTrace(h, t, after, b);
    TraceGrows(h.trace, t, b.slot);
    LapsGrow(Expiries(h.trace, b.slot), Size(b));
  }

  /** A grant of another channel. */
  lemma SkippedTrace(h: History, t: Transfer, after: State, b: Block)
    requires Progress(h, b) && !Mine(t, b.slot) && after.low.chan[b.slot] == h.state.low.chan[b.slot]
    ensures Progress(History(after, h.trace + [t]), b)
  {
    TraceGrows(h.trace, t, b.slot);
    assert Into(h.trace + [t], b) == Into(h.trace, b);
  }

  lemma LapsGrow(laps: nat, n: nat)
    ensures (laps + 1) * n == laps * n + n
  {
  }

  lemma WriteData(s: State, a: Answer, b: Block)
    requires Honest(s, a) && Programmed(s.low.chan[b.slot], b)
    requires RaiseHlda(s, a).transfer.Some? && Mine(RaiseHlda(s, a).transfer.value, b.slot)
    ensures |RaiseHlda(s, a).transfer.value.data| == RaiseHlda(s, a).transfer.value.len <= Asked(One, s.low.chan[b.slot])
  {
  }

  lemma HoldProgress(h: History, a: Answer, b: Block)
    requires Fits(b) && Progress(h, b) && Honest(h.state, a)
    ensures Progress(Extend(h, Hold(a)), b)
  {
    var o := RaiseHlda(h.state, a);
    HoldMoves(h.state, a, b.slot);
    if o.transfer.None? {
      SameBlockProgress(h, History(o.state, h.trace), b);
    } else if Mine(o.transfer.value, b.slot) {
      WriteData(h.state, a, b);
      ServedTrace(h, o.transfer.value, o.state, b);
    } else {
      SkippedTrace(h, o.transfer.value, o.state, b);
    }
  }

  lemma SameBlockProgress(h: History, t: History, b: Block)
    requires Progress(h, b) && t.trace == h.trace
    requires t.state.low.chan[b.slot] == h.state.low.chan[b.slot].(used := t.state.low.chan[b.slot].used)
    ensures Progress(t, b)
  {
    assert At(t.state.low.chan[b.slot], b, Into(h.trace, b));
  }

  lemma OtherProgress(h: History, op: Op, b: Block)
    requires Progress(h, b) && !op.Hold? && !Reprograms(op, On(b))
    ensures Extend(h, op).trace == h.trace && Progress(Extend(h, op), b)
  {
    OtherStepsLeave(h.state, op, On(b));
    SameBlockProgress(h, Extend(h, op), b);
  }

  // ---- Main results ----

  /**
   Over every run, with every other channel interleaved and masks changing at will, the
   channel's registers say how many bytes were delivered; within a page they sit at
   consecutive addresses from the start of the block; and the count has expired once a
   lap with autoinit, and otherwise exactly when the block is complete.
   */
  lemma {:induction false} Conservation(h: History, ops: seq<Op>, b: Block)
    requires Fits(b) && Progress(h, b) && Undisturbed(h, ops, On(b))
    ensures Progress(Play(h, ops), b)
    decreases |ops|
  {
    if ops != [] {
      var op := ops[0];
      if op.Hold? {
        HoldProgress(h, op.answer, b);
      } else {
        OtherProgress(h, op, b);
      }
      Conservation(Extend(h, op), ops[1..], b);
    }
  }

  /** A freshly programmed channel starts such a run. */
  lemma FreshBlock(s: State, b: Block)
    requires Fits(b) && Programmed(s.low.chan[b.slot], b)
    requires s.low.chan[b.slot].address == b.base && s.low.chan[b.slot].count == b.count
    ensures Progress(History(s, []), b)
  {
  }

  /**
   When the count expires exactly the whole block has moved, once; then the channel is
   masked, or with autoinit it is back at the block's start.
   */
  lemma ExpiryCompletesBlock(h: History, a: Answer, b: Block)
    requires Fits(b) && Progress(h, b) && Honest(h.state, a)
    requires RaiseHlda(h.state, a).transfer.Some? && Mine(RaiseHlda(h.state, a).transfer.value, b.slot)
    requires RaiseHlda(h.state, a).transfer.value.expired
    ensures var t := Extend(h, Hold(a));
            && |Addresses(t.trace, b.slot)| == (if b.autoinit then Expiries(t.trace, b.slot) else 1) * Size(b)
            && (b.autoinit ==> At(t.state.low.chan[b.slot], b, 0))
            && (!b.autoinit ==> b.slot in t.state.low.mask)
  {
    var o := RaiseHlda(h.state, a);
    HoldMoves(h.state, a, b.slot);
    WriteData(h.state, a, b);
    ExpiredTrace(h, o.transfer.value, o.state, b);
  }

  /** A block within its page returns to an address exactly a whole number of laps later. */
  lemma OnceEachLap(h: History, b: Block, i: nat, j: nat)
    requires Progress(h, b) && InPage(b) && i < j < |Addresses(h.trace, b.slot)|
    ensures var cells := Addresses(h.trace, b.slot);
            && (cells[i] == cells[j] <==> (j - i) % Size(b) == 0)
            && (!b.autoinit ==> cells[i] < cells[j])
  {
    SameOffset(i, j, Size(b));
    if !b.autoinit {
      DivIs(i, Size(b), 0, i);
      DivIs(j, Size(b), 0, j);
    }
  }

  lemma SameOffset(i: nat, j: nat, n: nat)
    requires i <= j && n > 0
    ensures i % n == j % n <==> (j - i) % n == 0
  {
    CarryDiv(i, j - i, n);
    var c := i % n + (j - i) % n;
    CarryDiv(j - i, i % n, n);
    assert j % n == c % n;
    if c < n {
      DivIs(c, n, 0, c);
    } else {
      DivIs(c, n, 1, c - n);
    }
  }

  /**
   Where each grant of a block goes, in or out of its page: on from the last one until
   the page ends, then from the start of the same page. So a grant is in its place
   exactly when it begins within the page.
   */
  lemma GrantGoesTo(c: Channel, b: Block, moved: nat)
    requires Fits(b) && At(c, b, moved) && moved < Size(b)
    ensures Physical(One, c) == GrantStart(b, moved)
    ensures Physical(One, c) == Start(b) + moved <==> b.base + moved <= 0xFFFF
  {
    GrantAsks(c, b, moved);
  }

  // ---- The full count ----

  lemma FullCountAsks(c: Channel, b: Block)
    requires b.count == EXPIRED && At(c, b, 0)
    ensures Asked(One, c) == 0 && Advance(c, 0).count == EXPIRED && At(Reload(Advance(c, 0)), b, 0)
  {
  }

  /** A count of 0xFFFF asks for 65536 bytes, which the 16-bit length takes for none: a grant expires having moved nothing. */
  lemma FullCountMovesNothing(s: State, a: Answer, b: Block)
    requires b.count == EXPIRED && At(s.low.chan[b.slot], b, 0) && Honest(s, a)
    ensures var o := RaiseHlda(s, a);
            && At(o.state.low.chan[b.slot], b, 0)
            && (o.transfer.Some? && Mine(o.transfer.value, b.slot) ==> o.transfer.value.len == 0 && o.transfer.value.expired)
  {
    FullCountAsks(s.low.chan[b.slot], b);
    HoldMoves(s, a, b.slot);
  }

  /** So over every run the channel moves nothing at all. */
  lemma {:induction false} FullCountNeverMoves(h: History, ops: seq<Op>, b: Block)
    requires b.count == EXPIRED && At(h.state.low.chan[b.slot], b, 0) && Undisturbed(h, ops, On(b))
    ensures Addresses(Play(h, ops).trace, b.slot) == Addresses(h.trace, b.slot)
    decreases |ops|
  {
    if ops != [] {
      var op := ops[0];
      if op.Hold? {
        FullCountMovesNothing(h.state, op.answer, b);
        var o := RaiseHlda(h.state, op.answer);
        if o.transfer.Some? {
          TraceGrows(h.trace, o.transfer.value, b.slot);
        }
      } else {
        OtherStepsLeave(h.state, op, On(b));
      }
      FullCountNeverMoves(Extend(h, op), ops[1..], b);
    }
  }

  // ---- Memory ----

  /** Guest memory, as what each address holds. */
  type Ram = nat -> byte

  function Store(ram: Ram, address: nat, data: seq<byte>): Ram {
    (i: nat) => if address <= i < address + |data| then data[i - address] else ram(i)
  }

  function Image(ram: Ram, trace: seq<Transfer>): Ram {
    if trace == [] then ram
    else Store(Image(ram, trace[..|trace| - 1]), trace[|trace| - 1].address, trace[|trace| - 1].data)
  }

  ghost predicate LeavesAlone(t: Transfer, b: Block) {
    t.address + |t.data| <= Start(b) || Start(b) + Size(b) <= t.address
  }

  /** The last value written to `x`, or `d` if none was. */
  function LastAt(cells: seq<nat>, data: seq<byte>, x: nat, d: byte): byte
    requires |cells| == |data|
  {
    if cells == [] then d
    else
      var n := |cells| - 1;
      if cells[n] == x then data[n] else LastAt(cells[..n], data[..n], x, d)
  }

  lemma {:induction false} LastAtJoins(c1: seq<nat>, d1: seq<byte>, c2: seq<nat>, d2: seq<byte>, x: nat, d: byte)
    requires |c1| == |d1| && |c2| == |d2|
    ensures LastAt(c1 + c2, d1 + d2, x, d) == LastAt(c2, d2, x, LastAt(c1, d1, x, d))
    decreases |c2|
  {
    if c2 == [] {
      assert c1 + c2 == c1 && d1 + d2 == d1;
    } else {
      var n := |c2| - 1;
      assert (c1 + c2)[..|c1| + n] == c1 + c2[..n] && (d1 + d2)[..|d1| + n] == d1 + d2[..n];
      LastAtJoins(c1, d1, c2[..n], d2[..n], x, d);
    }
  }

  lemma {:induction false} LastAtIs(cells: seq<nat>, data: seq<byte>, x: nat, d: byte, i: nat)
    requires |cells| == |data| && i < |cells| && cells[i] == x && forall j :: i < j < |cells| ==> cells[j] != x
    ensures LastAt(cells, data, x, d) == data[i]
    decreases |cells|
  {
    var n := |cells| - 1;
    if i < n {
      LastAtIs(cells[..n], data[..n], x, d, i);
    }
  }

  lemma {:induction false} StoreIsLast(ram: Ram, address: nat, data: seq<byte>, x: nat)
    ensures Store(ram, address, data)(x) == LastAt(Cells(address, |data|), data, x, ram(x))
    decreases |data|
  {
    if data != [] {
      var n := |data| - 1;
      StoreIsLast(ram, address, data[..n], x);
      assert Cells(address, |data|)[..n] == Cells(address, n);
    }
  }

  lemma {:induction false} StreamMatches(trace: seq<Transfer>, k: Slot)
    requires Delivered(trace, k)
    ensures |Addresses(trace, k)| == |Stream(trace, k)|
    decreases |trace|
  {
    if trace != [] {
      assert trace[|trace| - 1] in trace;
      StreamMatches(trace[..|trace| - 1], k);
    }
  }

  /** Where the other channels do not write, memory holds the last byte the channel wrote. */
  lemma {:induction false} ImageIsLast(ram: Ram, trace: seq<Transfer>, b: Block, x: nat)
    requires Delivered(trace, b.slot) && Start(b) <= x < Start(b) + Size(b)
    requires forall t :: t in trace && !Mine(t, b.slot) ==> LeavesAlone(t, b)
    ensures |Addresses(trace, b.slot)| == |Stream(trace, b.slot)|
    ensures Image(ram, trace)(x) == LastAt(Addresses(trace, b.slot), Stream(trace, b.slot), x, ram(x))
    decreases |trace|
  {
    StreamMatches(trace, b.slot);
    if trace != [] {
      var front, t := trace[..|trace| - 1], trace[|trace| - 1];
      assert t in trace;
      ImageIsLast(ram, front, b, x);
      if Mine(t, b.slot) {
        StoreIsLast(Image(ram, front), t.address, t.data, x);
        LastAtJoins(Addresses(front, b.slot), Stream(front, b.slot), Cells(t.address, t.len), t.data, x, ram(x));
      } else {
        assert Addresses(trace, b.slot) == Addresses(front, b.slot) && Stream(trace, b.slot) == Stream(front, b.slot);
      }
    }
  }

  /**
   So after any run that left the block's range to its channel, memory holds the stream:
   the last bytes delivered, as many as the block has, each in its place. Without
   autoinit those are all of them.
   */
  lemma RunFillsMemory(ram: Ram, h: History, b: Block, i: nat)
    requires Progress(h, b) && InPage(b) && i < |Stream(h.trace, b.slot)| <= i + Size(b)
    requires forall t :: t in h.trace && !Mine(t, b.slot) ==> LeavesAlone(t, b)
    ensures Image(ram, h.trace)(Start(b) + i % Size(b)) == Stream(h.trace, b.slot)[i]
  {
    var cells, n := Addresses(h.trace, b.slot), Size(b);
    var x := Start(b) + i % n;
    forall j | i < j < |cells| ensures cells[j] != x {
      SameOffset(i, j, n);
      DivIs(j - i, n, 0, j - i);
    }
    ImageIsLast(ram, h.trace, b, x);
    LastAtIs(cells, Stream(h.trace, b.slot), x, ram(x), i);
  }

  lemma WholeStreamHeld(h: History, b: Block)
    requires Progress(h, b) && !b.autoinit
    ensures |Stream(h.trace, b.slot)| <= Size(b)
    ensures Expiries(h.trace, b.slot) > 0 <==> |Stream(h.trace, b.slot)| == Size(b)
  {
  }
}
