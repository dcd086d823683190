/**
 What becomes of a block that crosses its 64 KiB page (`rusty_box/src/dma.rs`, lines
 477-593): over a whole run, exactly which grants put their bytes out of place.
 */
module DmaPages {
  import opened Base
  import opened Arith
  import opened Dma8237
  import opened DmaLines
  import opened DmaConservation
  import opened DmaController
  import opened DmaStranding

  /** A grant of the block, after `front`, begins where the registers say and stays within the lap. */
  ghost predicate GrantPlaced(front: seq<Transfer>, t: Transfer, b: Block) {
    Mine(t, b.slot) && t.len > 0 ==>
      var moved := Into(front, b);
      && 0 <= moved && moved + t.len <= Size(b)
      && |Addresses(front, b.slot)| % Size(b) == moved
      && t.address == GrantStart(b, moved)
  }

  ghost predicate Placed(trace: seq<Transfer>, b: Block) {
    trace != [] ==> Placed(trace[..|trace| - 1], b) && GrantPlaced(trace[..|trace| - 1], trace[|trace| - 1], b)
  }

  /** Every grant that moved anything began within the page. */
  ghost predicate BeginInPage(trace: seq<Transfer>, b: Block) {
    trace != [] ==>
      var front, t := trace[..|trace| - 1], trace[|trace| - 1];
      BeginInPage(front, b) && (Mine(t, b.slot) && t.len > 0 ==> b.base + Into(front, b) <= 0xFFFF)
  }

  lemma PlacedGrows(trace: seq<Transfer>, t: Transfer, b: Block)
    requires Placed(trace, b) && GrantPlaced(trace, t, b)
    ensures Placed(trace + [t], b)
  {
    assert (trace + [t])[..|trace|] == trace;
  }

  lemma ServedIsPlaced(h: History, a: Answer, b: Block)
    requires Fits(b) && Progress(h, b) && Honest(h.state, a)
    requires RaiseHlda(h.state, a).transfer.Some?
    ensures GrantPlaced(h.trace, RaiseHlda(h.state, a).transfer.value, b)
  {
    var t, moved := RaiseHlda(h.state, a).transfer.value, Into(h.trace, b);
    HoldMoves(h.state, a, b.slot);
    if Mine(t, b.slot) && t.len > 0 {
      WriteData(h.state, a, b);
      GrantMoves(h.state.low.chan[b.slot], b, moved, t.len);
      LapOffset(Size(b), if b.autoinit then Expiries(h.trace, b.slot) else 0, moved);
    }
  }

  lemma HoldIsPlaced(h: History, a: Answer, b: Block)
    requires Fits(b) && Progress(h, b) && Honest(h.state, a) && Placed(h.trace, b)
    ensures Placed(Extend(h, Hold(a)).trace, b)
  {
    var o := RaiseHlda(h.state, a);
    if o.transfer.Some? {
      ServedIsPlaced(h, a, b);
      PlacedGrows(h.trace, o.transfer.value, b);
    }
  }

  lemma StepIsPlaced(h: History, op: Op, b: Block)
    requires Fits(b) && Progress(h, b) && Allowed(h.state, op) && !Reprograms(op, On(b)) && Placed(h.trace, b)
    ensures Progress(Extend(h, op), b) && Placed(Extend(h, op).trace, b)
  {
    if op.Hold? {
      HoldIsPlaced(h, op.answer, b);
      HoldProgress(h, op.answer, b);
    } else {
      OtherProgress(h, op, b);
    }
  }

  lemma {:induction false} RunIsPlaced(h: History, ops: seq<Op>, b: Block)
    requires Fits(b) && Progress(h, b) && Undisturbed(h, ops, On(b)) && Placed(h.trace, b)
    ensures Placed(Play(h, ops).trace, b)
    decreases |ops|
  {
    if ops != [] {
      StepIsPlaced(h, ops[0], b);
      RunIsPlaced(Extend(h, ops[0]), ops[1..], b);
    }
  }

  /** Within a lap, bytes written on from `before` are in place exactly when the first of them is. */
  lemma InPlaceJoins(before: seq<nat>, address: nat, len: nat, b: Block)
    requires len > 0 && |before| % Size(b) + len <= Size(b)
    ensures InPlace(before + Cells(address, len), b) <==> InPlace(before, b) && address == Start(b) + |before| % Size(b)
  {
    var after, moved, laps := before + Cells(address, len), |before| % Size(b), Floor(|before|, Size(b));
    assert |before| == laps * Size(b) + moved;
    assert before == after[..|before|] && after[|before|] == address;
    if InPlace(before, b) && address == Start(b) + moved {
      NextCells(b, before, laps, moved, address, len);
    }
  }

  lemma {:induction false} PlacedTrace(trace: seq<Transfer>, b: Block)
    requires Placed(trace, b)
    ensures InPlace(Addresses(trace, b.slot), b) <==> BeginInPage(trace, b)
    decreases |trace|
  {
    if trace != [] {
      var front, t := trace[..|trace| - 1], trace[|trace| - 1];
      PlacedTrace(front, b);
      var before := Addresses(front, b.slot);
      if Mine(t, b.slot) && t.len > 0 {
        InPlaceJoins(before, t.address, t.len, b);
      } else {
        assert Addresses(trace, b.slot) == before;
      }
    }
  }

  /**
   After any undisturbed run from a freshly programmed channel, every byte is in its place
   exactly when each grant that moved anything began within the page.
   */
  lemma InPlaceExactly(s: State, ops: seq<Op>, b: Block)
    requires Fits(b) && At(s.low.chan[b.slot], b, 0) && Undisturbed(History(s, []), ops, On(b))
    ensures var trace := Play(History(s, []), ops).trace; InPlace(Addresses(trace, b.slot), b) <==> BeginInPage(trace, b)
  {
    FreshBlock(s, b);
    RunIsPlaced(History(s, []), ops, b);
    PlacedTrace(Play(History(s, []), ops).trace, b);
  }

  // ---- A block that crosses ----

  /** Two bytes from the last one of a page. */
  function Crossing(page: byte): Block {
    Block(1, page, 0xFFFF, 1, false)
  }

  ghost predicate ReadyToCross(s: State, page: byte) {
    && At(s.low.chan[1], Crossing(page), 0) && Granted(s) == Some(Grant(One, 1)) && 1 in s.wiring.byteWide
  }

  /** One byte at a time: the first hold leaves the channel granted and one byte on. */
  lemma FirstByte(s: State, page: byte, buffer: seq<byte>)
    requires ReadyToCross(s, page) && |buffer| == BUFFER_SIZE
    ensures var o := RaiseHlda(s, Answer(1, buffer));
            && Honest(s, Answer(1, buffer))
            && o.transfer == Some(Transfer(Grant(One, 1), Start(Crossing(page)), 1, buffer[..1], false))
            && At(o.state.low.chan[1], Crossing(page), 1) && Granted(o.state) == Granted(s) && o.state.wiring == s.wiring
  {
    var a, b := Answer(1, buffer), Crossing(page);
    GrantAsks(s.low.chan[1], b, 0);
    GrantMoves(s.low.chan[1], b, 0, 1);
    HoldMoves(s, a, 1);
    assert Moved(Acknowledged(s), Grant(One, 1), a) == Some(1);
    HoldFrame(s, a);
    HoldEligible(s, RaiseHlda(s, a).state);
  }

  lemma SecondByte(s: State, page: byte, buffer: seq<byte>)
    requires At(s.low.chan[1], Crossing(page), 1) && Granted(s) == Some(Grant(One, 1)) && 1 in s.wiring.byteWide
    requires |buffer| == BUFFER_SIZE
    ensures Honest(s, Answer(1, buffer))
    ensures RaiseHlda(s, Answer(1, buffer)).transfer ==
            Some(Transfer(Grant(One, 1), Start(Crossing(page)) - 0xFFFF, 1, buffer[..1], true))
  {
    var a, b := Answer(1, buffer), Crossing(page);
    GrantAsks(s.low.chan[1], b, 1);
    GrantMoves(s.low.chan[1], b, 1, 1);
    assert Moved(Acknowledged(s), Grant(One, 1), a) == Some(1);
  }

  lemma TwoTransfers(trace: seq<Transfer>, b: Block)
    requires |trace| == 2 && Mine(trace[0], b.slot) && Mine(trace[1], b.slot) && trace[0].len == trace[1].len == 1 && b.count == 1
    ensures Addresses(trace, b.slot) == [trace[0].address, trace[1].address]
    ensures InPlace(Addresses(trace, b.slot), b) <==> trace[0].address == Start(b) && trace[1].address == Start(b) + 1
  {
    TraceGrows([], trace[0], b.slot);
    TraceGrows([trace[0]], trace[1], b.slot);
    assert [] + [trace[0]] == [trace[0]] && [trace[0]] + [trace[1]] == trace;
    assert Addresses(trace, b.slot)[1] == trace[1].address;
  }

  lemma PlayTwo(h: History, a: Op, b: Op, g: Grant)
    ensures Play(h, [a, b]) == Extend(Extend(h, a), b)
    ensures Allowed(h.state, a) && Allowed(Extend(h, a).state, b) && a.Hold? && b.Hold? ==> Undisturbed(h, [a, b], g)
  {
    assert [a, b][1..] == [b] && [b][1..] == [];
    assert Play(h, [a, b]) == Play(Extend(h, a), [b]) == Play(Extend(Extend(h, a), b), []);
  }

  lemma TwoGrants(s: State, page: byte, buffer: seq<byte>)
    requires ReadyToCross(s, page) && |buffer| == BUFFER_SIZE
    ensures var h, ops, b := History(s, []), [Hold(Answer(1, buffer)), Hold(Answer(1, buffer))], Crossing(page);
            && Undisturbed(h, ops, On(b))
            && Addresses(Play(h, ops).trace, 1) == [page * 0x1_0000 + 0xFFFF, page * 0x1_0000]
            && !InPlace(Addresses(Play(h, ops).trace, 1), b)
  {
    var h, op := History(s, []), Hold(Answer(1, buffer));
    FirstByte(s, page, buffer);
    var h1 := Extend(h, op);
    SecondByte(h1.state, page, buffer);
    var h2 := Extend(h1, op);
    PlayTwo(h, op, op, Grant(One, 1));
    TwoTransfers(h2.trace, Crossing(page));
  }

  lemma {:induction false} PlayJoins(h: History, a: seq<Op>, b: seq<Op>)
    ensures Play(h, a + b) == Play(Play(h, a), b)
    decreases |a|
  {
    if a == [] {
      assert a + b == b;
    } else {
      assert (a + b)[1..] == a[1..] + b;
      PlayJoins(Extend(h, a[0]), a[1..], b);
    }
  }

  function DeviceOnOne(): State {
    Register(Init(New()), One, 1).value
  }

  function CrossingRegisters(page: byte): seq<Op> {
    [ModeOf(One, 1, ONE_BYTE), PageByte(One, 1, page)] +
    ([AddressByte(One, 1, 0xFF), AddressByte(One, 1, 0xFF)] + [CountByte(One, 1, 1), CountByte(One, 1, 0)])
  }

  /** How a driver sets channel 1 up for such a block, and the device's request. */
  function CrossingSetup(page: byte): seq<Op> {
    [AllMasks(One, {}), AllMasks(Two, {})] + CrossingRegisters(page) + [Drq(1, true)]
  }

  function WithLow(s: State, c: Channel): State {
    s.(low := s.low.(chan := s.low.chan[1 := c]))
  }

  lemma Opens(s: State)
    requires s == DeviceOnOne()
    ensures Play(History(s, []), [AllMasks(One, {}), AllMasks(Two, {})]) ==
            History(s.(low := s.low.(mask := {}), high := s.high.(mask := {}), hrq := Some(false)), [])
  {
    OpensLow(s);
    OpensHigh(Step(s, AllMasks(One, {})).state);
    PlayTwo(History(s, []), AllMasks(One, {}), AllMasks(Two, {}), Grant(One, 1));
  }

  lemma SetsMode(s: State, page: byte)
    ensures Play(History(s, []), [ModeOf(One, 1, ONE_BYTE), PageByte(One, 1, page)]) ==
            History(WithLow(s, s.low.chan[1].(mode := ONE_BYTE, page := page)), [])
  {
    PlayTwo(History(s, []), ModeOf(One, 1, ONE_BYTE), PageByte(One, 1, page), Grant(One, 1));
    var c := s.low.chan;
    var d, e := c[1].(mode := ONE_BYTE), c[1].(mode := ONE_BYTE, page := page);
    assert c[1 := d][1 := e] == c[1 := e];
  }

  lemma SetsAddress(s: State, lo: byte, hi: byte)
    requires !s.low.flipFlop
    ensures Play(History(s, []), [AddressByte(One, 1, lo), AddressByte(One, 1, hi)]) ==
            History(WithLow(s, s.low.chan[1].(base := lo + 256 * hi, address := lo + 256 * hi)), [])
  {
    PlayTwo(History(s, []), AddressByte(One, 1, lo), AddressByte(One, 1, hi), Grant(One, 1));
    TwoBytes(lo, hi);
    AddressLoads(s, 1, lo, hi);
    PortsOfChannel(s, 1, lo);
    PortsOfChannel(WriteAddress(s, One, 1, lo), 1, hi);
  }

  lemma SetsCount(s: State, lo: byte, hi: byte)
    requires !s.low.flipFlop
    ensures Play(History(s, []), [CountByte(One, 1, lo), CountByte(One, 1, hi)]) ==
            History(WithLow(s, s.low.chan[1].(baseCount := lo + 256 * hi, count := lo + 256 * hi)), [])
  {
    PlayTwo(History(s, []), CountByte(One, 1, lo), CountByte(One, 1, hi), Grant(One, 1));
    TwoBytes(lo, hi);
    CountLoads(s, 1, lo, hi);
    PortsOfChannel(s, 1, lo);
    PortsOfChannel(WriteCount(s, One, 1, lo), 1, hi);
  }

  lemma Asks(s: State, page: byte)
    requires s.low.mask == {} && s.high.mask == {} && !s.low.disabled && !s.high.disabled
    requires s.low.request == {} && s.high.request == {} && s.low.chan[1].used && s.high.chan[0].used
    requires At(s.low.chan[1], Crossing(page), 0) && 1 in s.wiring.byteWide
    ensures Play(History(s, []), [Drq(1, true)]) == History(Step(s, Drq(1, true)).state, [])
    ensures ReadyToCross(Step(s, Drq(1, true)).state, page)
  {
    LowRequest(s, 1);
    var h, t := History(s, []), Step(s, Drq(1, true)).state;
    assert Play(h, [Drq(1, true)]) == Play(Extend(h, Drq(1, true)), []);
    assert Eligible(t.low) == {1} && Eligible(t.high) == {0};
  }

  lemma LastWriteStays(s: State, c: Channel, d: Channel)
    ensures WithLow(WithLow(s, c), d) == WithLow(s, d)
  {
    assert s.low.chan[1 := c][1 := d] == s.low.chan[1 := d];
  }

  lemma LoadsRegisters(s: State) returns (t: State)
    requires !s.low.flipFlop
    ensures Play(History(s, []), [AddressByte(One, 1, 0xFF), AddressByte(One, 1, 0xFF)] +
                                 [CountByte(One, 1, 1), CountByte(One, 1, 0)]) == History(t, [])
    ensures t == WithLow(s, s.low.chan[1].(base := 0xFFFF, address := 0xFFFF, baseCount := 1, count := 1))
  {
    var c := s.low.chan[1].(base := 0xFFFF, address := 0xFFFF);
    SetsAddress(s, 0xFF, 0xFF);
    SetsCount(WithLow(s, c), 1, 0);
    PlayJoins(History(s, []), [AddressByte(One, 1, 0xFF), AddressByte(One, 1, 0xFF)],
              [CountByte(One, 1, 1), CountByte(One, 1, 0)]);
    t := WithLow(WithLow(s, c), c.(baseCount := 1, count := 1));
    LastWriteStays(s, c, c.(baseCount := 1, count := 1));
  }

  /** The registers of channel 1, loaded. */
  lemma Programs(s: State, page: byte) returns (t: State)
    requires !s.low.flipFlop
    ensures Play(History(s, []), CrossingRegisters(page)) == History(t, [])
    ensures t == WithLow(s, Channel(ONE_BYTE, 0xFFFF, 0xFFFF, 1, 1, page, s.low.chan[1].used))
  {
    var c := s.low.chan[1].(mode := ONE_BYTE, page := page);
    SetsMode(s, page);
    t := LoadsRegisters(WithLow(s, c));
    PlayJoins(History(s, []), [ModeOf(One, 1, ONE_BYTE), PageByte(One, 1, page)],
              [AddressByte(One, 1, 0xFF), AddressByte(One, 1, 0xFF)] + [CountByte(One, 1, 1), CountByte(One, 1, 0)]);
    LastWriteStays(s, c, c.(base := 0xFFFF, address := 0xFFFF, baseCount := 1, count := 1));
  }

  lemma SetupCrosses(page: byte) returns (s: State)
    ensures Play(History(DeviceOnOne(), []), CrossingSetup(page)) == History(s, []) && ReadyToCross(s, page)
  {
    var h, a := History(DeviceOnOne(), []), [AllMasks(One, {}), AllMasks(Two, {})];
    Opens(h.state);
    var s1 := Play(h, a).state;
    var s2 := Programs(s1, page);
    PlayJoins(h, a, CrossingRegisters(page));
    Asks(s2, page);
    PlayJoins(h, a + CrossingRegisters(page), [Drq(1, true)]);
    s := Step(s2, Drq(1, true)).state;
  }

  /**
   From power-on: two bytes from the last byte of a page, delivered one a grant. The
   second one goes to the first byte of the same page.
   */
  lemma CrossingIsReachable(page: byte, buffer: seq<byte>) returns (s: State)
    requires |buffer| == BUFFER_SIZE
    ensures Play(History(DeviceOnOne(), []), CrossingSetup(page)) == History(s, []) && At(s.low.chan[1], Crossing(page), 0)
    ensures var h, ops, b := History(s, []), [Hold(Answer(1, buffer)), Hold(Answer(1, buffer))], Crossing(page);
            && Undisturbed(h, ops, On(b))
            && Addresses(Play(h, ops).trace, 1) == [page * 0x1_0000 + 0xFFFF, page * 0x1_0000]
            && !InPlace(Addresses(Play(h, ops).trace, 1), b)
  {
    s := SetupCrosses(page);
    TwoGrants(s, page, buffer);
  }
}
