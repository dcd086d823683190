/**
 How a device's request travels to the CPU and which channel a hold serves
 (`rusty_box/src/dma.rs`, lines 345-475): DRQ to DMA1, cascade to DMA2, HRQ to the CPU.
 */
module DmaLines {
  import opened Base
  import opened Dma8237

  /** The level the CPU sees once it has collected what is filed; `pin` is what it saw before. */
  function Line(s: State, pin: bool): bool {
    if s.hrq.Some? then s.hrq.value else pin
  }

  ghost predicate Waiting(c: Chip) {
    !c.disabled && Eligible(c) != {}
  }

  /** What DMA1 waits for is passed on to DMA2. */
  ghost predicate Passed(s: State) {
    Waiting(s.low) ==> 0 in s.high.request
  }

  /** What DMA2 waits for is asked of the CPU. */
  ghost predicate Heard(s: State, pin: bool) {
    Waiting(s.high) ==> Line(s, pin)
  }

  /** Initialization gives channel 4 to the cascade, and no operation here takes it away. */
  ghost predicate Coherent(s: State, pin: bool) {
    s.high.chan[0].used && Passed(s) && Heard(s, pin)
  }

  // ---- One propagation ----

  lemma CascadeFrame(s: State, on: bool)
    ensures var t := SetDrq(s, CASCADE, on);
            && t.low == s.low && t.wiring == s.wiring
            && t.high == s.high.(drq := t.high.drq, request := t.high.request)
            && (s.high.chan[0].used ==> t.high.request == Change(s.high.request, 0, on))
            && (!s.high.chan[0].used ==> t.high.request == s.high.request && t.hrq == s.hrq)
  {
  }

  /** Only the two request lines of the cascade and the filed level can change. */
  lemma ControlFrame(s: State, u: Unit)
    ensures ControlHrq(s, u).low == s.low && ControlHrq(s, u).wiring == s.wiring
    ensures var h := ControlHrq(s, u).high;
            h == s.high.(drq := h.drq, request := h.request) && h.request - {0} == s.high.request - {0}
    ensures u.Two? ==> ControlHrq(s, u).high == s.high
  {
    CascadeFrame(s, true);
    CascadeFrame(s, false);
  }

  /** Whatever was left hanging, re-examining a chip settles it. */
  lemma ControlSettles(s: State, u: Unit, pin: bool)
    requires s.high.chan[0].used
    ensures u.Two? ==> Heard(ControlHrq(s, u), pin)
    ensures u.One? ==> Passed(ControlHrq(s, u)) && (Heard(s, pin) ==> Heard(ControlHrq(s, u), pin))
  {
    if u.One? && !s.low.disabled {
      CascadeFrame(s, false);
      CascadeFrame(s, true);
    }
  }

  /** With a device on `channel` of DMA1, raising its request files HRQ high exactly when both chips let it through. */
  lemma RaiseReachesCpu(s: State, channel: Slot)
    requires s.low.chan[channel].used && s.hrq != Some(true)
    ensures SetDrq(s, channel, true).hrq == Some(true) <==>
            && !s.low.disabled && !(s.low.request + {channel} <= s.low.mask)
            && s.high.chan[0].used
            && !s.high.disabled && !(s.high.request + {0} <= s.high.mask)
    ensures SetDrq(s, channel, true).hrq != Some(true) ==> SetDrq(s, channel, true).hrq == s.hrq
  {
    var low := s.low.(drq := s.low.drq + {channel}, request := s.low.request + {channel});
    var s1 := s.(low := low);
    assert SetDrq(s, channel, true) == ControlHrq(s1, One);
    Unmasked(low);
    if !low.disabled && Eligible(low) != {} && s.high.chan[0].used {
      var high := s.high.(drq := s.high.drq + {0}, request := s.high.request + {0});
      var s2 := s1.(high := high);
      assert ControlHrq(s1, One) == SetDrq(s1, CASCADE, true) == ControlHrq(s2, Two);
      Unmasked(high);
    }
  }

  lemma Unmasked(c: Chip)
    ensures Eligible(c) == {} <==> c.request <= c.mask
  {
    if Eligible(c) == {} {
      forall k | k in c.request ensures k in c.mask {
        assert k !in Eligible(c);
      }
    }
  }

  /** Nothing is requested but what `channel` itself requests, through the cascade if it is one of DMA1's. */
  ghost predicate OnlyRequests(s: State, channel: nat) {
    if channel > 3 then s.low.request == {} && s.high.request <= {channel - 4}
    else s.low.request <= {channel} && s.high.request <= {0} && !s.low.disabled && s.high.chan[0].used
  }

  /** Dropping the last request of the pair, on whichever chip, files HRQ low. */
  lemma DropLastFilesLow(s: State, channel: nat)
    requires channel <= 7 && OnlyRequests(s, channel) && !s.high.disabled
    requires (if channel > 3 then s.high else s.low).chan[channel % 4].used
    ensures var t := SetDrq(s, channel, false);
            t.hrq == Some(false) && t.low.request == {} && t.high.request == {}
  {
    if channel > 3 {
      var k: Slot := channel - 4;
      var s1 := s.(high := s.high.(drq := s.high.drq - {k}, request := s.high.request - {k}));
      assert s1.high.request == {};
      assert SetDrq(s, channel, false) == ControlHrq(s1, Two);
    } else {
      var s1 := s.(low := s.low.(drq := s.low.drq - {channel}, request := s.low.request - {channel}));
      assert s1.low.request == {};
      assert SetDrq(s, channel, false) == ControlHrq(s1, One);
      var s2 := s1.(high := s1.high.(drq := s1.high.drq - {0}, request := s1.high.request - {0}));
      assert s2.high.request == {};
      assert ControlHrq(s1, One) == SetDrq(s1, CASCADE, false) == ControlHrq(s2, Two);
    }
  }

  // ---- Arbitration ----

  /**
   A hold serves the lowest-numbered requested unmasked channel of DMA2, and reaches
   DMA1, likewise lowest first, only when that channel is the cascade.
   */
  lemma GrantIsLowest(s: State, g: Grant)
    ensures Granted(s) == Some(g) <==>
            if g.unit.Two? then g.slot != 0 && IsLowest(Eligible(s.high), g.slot)
            else IsLowest(Eligible(s.high), 0) && IsLowest(Eligible(s.low), g.slot)
  {
    FirstIsLowest(Eligible(s.high));
    FirstIsLowest(Eligible(s.low));
  }

  /**
   A request waiting on either chip is asked of the CPU. The hold it gets serves a
   channel exactly when DMA1 has something eligible or has nothing passed on: a request
   passed on and masked since holds the cascade, and with it every channel of DMA2.
   */
  lemma NoLostRequest(s: State, pin: bool)
    requires Coherent(s, pin)
    requires !s.low.disabled && !s.high.disabled && 0 !in s.high.mask
    requires Eligible(s.low) != {} || Eligible(s.high) - {0} != {}
    ensures Line(s, pin)
    ensures Granted(s).Some? <==> Eligible(s.low) != {} || 0 !in s.high.request
  {
    if Eligible(s.low) != {} {
      assert 0 in Eligible(s.high);
    }
    assert Eligible(s.high) != {};
    assert 0 in Eligible(s.high) <==> 0 in s.high.request;
    FirstIsLowest(Eligible(s.high));
    FirstIsLowest(Eligible(s.low));
  }

  // ---- One step ----

  /**
   The cascade's request is not withdrawn, by a device, by a register write or by
   clearing DMA2, while DMA1 waits. A count that expires does so with nothing else
   waiting on its chip.
   */
  ghost predicate Tame(s: State, op: Op) {
    match op
    case Drq(channel, on) => channel == CASCADE && !on ==> !Waiting(s.low)
    case Request(u, k, on) => u.Two? && k == 0 && !on ==> !Waiting(s.low)
    case Clear(u) => u.Two? ==> !Waiting(s.low)
    case Hold(a) => Granted(s).Some? && Expires(s, a) ==> AloneOnItsChip(s, Granted(s).value)
    case _ => true
  }

  ghost predicate Expires(s: State, a: Answer) {
    RaiseHlda(s, a).transfer.Some? && RaiseHlda(s, a).transfer.value.expired
  }

  /** Nothing else is eligible on the granted chip, nor the granted channel itself if it reloads. */
  ghost predicate AloneOnItsChip(s: State, g: Grant) {
    var c := Pick(s, g.unit);
    c.disabled || (Eligible(c) == {g.slot} && !c.chan[g.slot].mode.autoinit)
  }

  lemma DrqKeeps(s: State, pin: bool, channel: nat, on: bool)
    requires Coherent(s, pin)
    ensures Coherent(SetDrq(s, channel, on), pin) <==> (channel == CASCADE && !on ==> !Waiting(s.low))
  {
    if channel <= 7 {
      var u := if channel > 3 then Two else One;
      var k: Slot := channel % 4;
      var c := Pick(s, u);
      var c1 := c.(drq := Change(c.drq, k, on), request := Change(c.request, k, on));
      if c.chan[k].used {
        assert SetDrq(s, channel, on) == ControlHrq(With(s, u, c1), u);
        WriteKeeps(s, pin, u, c1);
      } else {
        assert SetDrq(s, channel, on) == With(s, u, c.(drq := Change(c.drq, k, on)));
      }
    }
  }

  /** A register write followed by re-examining the chip keeps everything coherent, unless it withdraws a cascade DMA1 needs. */
  lemma WriteKeeps(s: State, pin: bool, u: Unit, c: Chip)
    requires Coherent(s, pin) && (u.Two? ==> c.chan == s.high.chan)
    ensures Coherent(ControlHrq(With(s, u, c), u), pin) <==> (u.Two? && 0 !in c.request ==> !Waiting(s.low))
  {
    ControlSettles(With(s, u, c), u, pin);
    ControlFrame(With(s, u, c), u);
  }

  /** A transfer that does not expire leaves every request, mask and filed level alone. */
  lemma HoldFrame(s: State, a: Answer)
    requires !Expires(s, a)
    ensures var t := RaiseHlda(s, a).state;
            && t.hrq == s.hrq && t.wiring == s.wiring
            && t.low == s.low.(dack := t.low.dack, chan := t.low.chan)
            && t.high == s.high.(dack := t.high.dack, chan := t.high.chan)
            && t.high.chan[0].used == s.high.chan[0].used
  {
    if Granted(s).Some? {
      var g := Granted(s).value;
      GrantingFrame(s);
      assert Moved(Acknowledged(s), g, a) == Moved(s, g, a);
      if Moved(s, g, a).Some? {
        var len := Moved(s, g, a).value;
        MoveKeepsLines(Granting(s), g, len);
        assert RaiseHlda(s, a).state == Move(Granting(s), g, len);
      }
    }
  }

  lemma HoldEligible(s: State, t: State)
    requires t.low == s.low.(dack := t.low.dack, chan := t.low.chan)
    requires t.high == s.high.(dack := t.high.dack, chan := t.high.chan)
    ensures Eligible(t.low) == Eligible(s.low) && Eligible(t.high) == Eligible(s.high)
  {
  }

  function Granting(s: State): State {
    var g := Granted(s);
    if g.None? then s else Acknowledged(s).(tc := AtTerminalCount(g.value.unit, Pick(s, g.value.unit).chan[g.value.slot]))
  }

  lemma GrantingFrame(s: State)
    requires Granted(s).Some?
    ensures var t := Granting(s);
            t.low == s.low && t.high == s.high.(dack := t.high.dack) && t.wiring == s.wiring && t.hrq == s.hrq
  {
  }

  lemma MoveKeepsLines(s: State, g: Grant, len: nat)
    ensures var t := Move(s, g, len);
            && t.low == s.low.(dack := t.low.dack, chan := t.low.chan)
            && t.high == s.high.(dack := t.high.dack, chan := t.high.chan)
            && t.high.chan[0].used == s.high.chan[0].used && t.hrq == s.hrq && t.wiring == s.wiring
            && Pick(t, g.unit).chan[g.slot].mode == Pick(s, g.unit).chan[g.slot].mode
  {
  }

  lemma MoveFrame(s: State, a: Answer)
    requires Expires(s, a)
    ensures var g, t := Granted(s).value, Move(Granting(s), Granted(s).value, Moved(s, Granted(s).value, a).value);
            && RaiseHlda(s, a).state == Expire(t, g)
            && t.low == s.low.(dack := t.low.dack, chan := t.low.chan)
            && t.high == s.high.(dack := t.high.dack, chan := t.high.chan)
            && t.high.chan[0].used == s.high.chan[0].used
            && Pick(t, g.unit).chan[g.slot].mode == Pick(s, g.unit).chan[g.slot].mode
  {
    var g := Granted(s).value;
    GrantingFrame(s);
    MoveKeepsLines(Granting(s), g, Moved(s, g, a).value);
    assert Moved(Acknowledged(s), g, a) == Moved(s, g, a);
  }

  /** What is still eligible on a chip after one of its counts expires. */
  function Left(c: Chip, k: Slot): set<Slot> {
    if c.chan[k].mode.autoinit then Eligible(c) else Eligible(c) - {k}
  }

  lemma ExpireHigh(s: State, g: Grant)
    requires g.unit.Two?
    ensures var t := Expire(s, g);
            && t.low == s.low && t.hrq == Some(false)
            && t.high.disabled == s.high.disabled && t.high.request == s.high.request
            && t.high.chan[0].used == s.high.chan[0].used
            && Eligible(t.high) == Left(s.high, g.slot)
  {
  }

  lemma ExpiredChipLeft(c: Chip, k: Slot)
    ensures Eligible(ExpiredChip(c, k)) == Left(c, k) && ExpiredChip(c, k).disabled == c.disabled
  {
  }

  /** On DMA1 an expiry drops the cascade request, which re-examines DMA2. */
  lemma ExpireLowDrops(s: State, g: Grant)
    requires g.unit.One? && s.high.chan[0].used
    ensures var high := s.high.(drq := s.high.drq - {0}, request := s.high.request - {0});
            var s2 := ControlHrq(s.(low := ExpiredChip(s.low, g.slot), high := high, tc := false, hlda := false, hrq := Some(false)), Two);
            Expire(s, g) == s2.(high := s2.high.(dack := s2.high.dack - {0}))
  {
    var s1 := s.(low := ExpiredChip(s.low, g.slot), tc := false, hlda := false, hrq := Some(false));
    var s2 := SetDrq(s1, CASCADE, false);
    assert Expire(s, g) == s2.(high := s2.high.(dack := s2.high.dack - {0}));
  }

  lemma ExpireLow(s: State, g: Grant, pin: bool)
    requires g.unit.One? && s.high.chan[0].used
    ensures var t := Expire(s, g);
            && t.low.disabled == s.low.disabled && Eligible(t.low) == Left(s.low, g.slot)
            && t.high.chan[0].used && 0 !in t.high.request && Heard(t, pin)
  {
    var high := s.high.(drq := s.high.drq - {0}, request := s.high.request - {0});
    var s1 := s.(low := ExpiredChip(s.low, g.slot), high := high, tc := false, hlda := false, hrq := Some(false));
    var s2 := ControlHrq(s1, Two);
    ExpireLowDrops(s, g);
    ExpiredChipLeft(s.low, g.slot);
    ControlSettles(s1, Two, pin);
    ControlFrame(s1, Two);
    assert Eligible(Expire(s, g).high) == Eligible(s2.high);
  }

  /**
   The one step that can leave a request unheard is a count expiring: it files HRQ
   low, and on DMA1 drops the cascade, whatever else waits on that chip. It does so
   exactly when something does.
   */
  lemma ExpiryStrandsUnlessAlone(s: State, a: Answer, pin: bool)
    requires Coherent(s, pin) && Expires(s, a)
    ensures Coherent(RaiseHlda(s, a).state, pin) <==> AloneOnItsChip(s, Granted(s).value)
  {
    var g := Granted(s).value;
    MoveFrame(s, a);
    var t := Move(Granting(s), g, Moved(s, g, a).value);
    HoldEligible(s, t);
    GrantIsLowest(s, g);
    assert g.slot in Eligible(Pick(s, g.unit));
    LeftEmpty(Pick(s, g.unit), g.slot);
    if g.unit.One? {
      ExpireLow(t, g, pin);
    } else {
      ExpireHigh(t, g);
    }
  }

  lemma LeftEmpty(c: Chip, k: Slot)
    requires k in Eligible(c)
    ensures Left(c, k) == {} <==> Eligible(c) == {k} && !c.chan[k].mode.autoinit
  {
    if Left(c, k) == {} && !c.chan[k].mode.autoinit {
      assert Eligible(c) == (Eligible(c) - {k}) + {k};
    }
  }

  /** A device dropping (or raising) its request on the same chip makes good what an expiry left. */
  lemma NextRequestRecovers(s: State, channel: nat, on: bool, pin: bool)
    requires channel <= 7 && s.high.chan[0].used && (channel == CASCADE ==> on)
    requires (if channel > 3 then s.high else s.low).chan[channel % 4].used
    requires channel > 3 ==> Passed(s)
    requires channel <= 3 ==> Heard(s, pin)
    ensures Coherent(SetDrq(s, channel, on), pin)
  {
    var u := if channel > 3 then Two else One;
    var k: Slot := channel % 4;
    var c := Pick(s, u);
    var s1 := With(s, u, c.(drq := Change(c.drq, k, on), request := Change(c.request, k, on)));
    assert SetDrq(s, channel, on) == ControlHrq(s1, u);
    ControlSettles(s1, u, pin);
    ControlFrame(s1, u);
  }

  /** A step keeps requests passed on and heard exactly when it is tame. */
  lemma StepKeepsLines(s: State, pin: bool, op: Op)
    requires Coherent(s, pin)
    ensures Coherent(Step(s, op).state, pin) <==> Tame(s, op)
  {
    match op {
      case Drq(channel, on) => DrqKeeps(s, pin, channel, on);
      case Hold(a) =>
        if Expires(s, a) {
          ExpiryStrandsUnlessAlone(s, a, pin);
        } else {
          HoldFrame(s, a);
          HoldEligible(s, RaiseHlda(s, a).state);
        }
      case Command(u, v) => WriteKeeps(s, pin, u, Pick(s, u).(command := v, disabled := (v / 4) % 2 == 1));
      case Request(u, k, on) => WriteKeeps(s, pin, u, Pick(s, u).(request := Change(Pick(s, u).request, k, on)));
      case SingleMask(u, k, on) => WriteKeeps(s, pin, u, Pick(s, u).(mask := Change(Pick(s, u).mask, k, on)));
      case AllMasks(u, mask) => WriteKeeps(s, pin, u, Pick(s, u).(mask := mask));
      case Clear(u) =>
        assert Eligible(Pick(MasterClear(s, u), u)) == {};
      case SparePage(_, _) =>
      case Attach(u, k) => AttachKeeps(s, pin, u, k);
      case ClearFlipFlop(_) => QuietKeeps(s, pin, op);
      case ReadStatus(_) => QuietKeeps(s, pin, op);
      case ReadRegister(_) => QuietKeeps(s, pin, op);
      case _ => ProgrammingKeeps(s, pin, op);
    }
  }

  /** A chip whose requests, mask and enable are as they were keeps everything coherent. */
  lemma SameLinesKeep(s: State, pin: bool, u: Unit, c: Chip)
    requires Coherent(s, pin)
    requires var d := Pick(s, u);
             c.request == d.request && c.mask == d.mask && c.disabled == d.disabled && (d.chan[0].used ==> c.chan[0].used)
    ensures Coherent(With(s, u, c), pin)
  {
    assert Eligible(c) == Eligible(Pick(s, u));
  }

  lemma ChannelWriteKeeps(s: State, pin: bool, u: Unit, k: Slot, chan: Channel, flipFlop: bool)
    requires Coherent(s, pin) && chan.used == Pick(s, u).chan[k].used
    ensures var c := Pick(s, u); Coherent(With(s, u, c.(flipFlop := flipFlop, chan := c.chan[k := chan])), pin)
  {
    var c := Pick(s, u);
    SameLinesKeep(s, pin, u, c.(flipFlop := flipFlop, chan := c.chan[k := chan]));
  }

  lemma AttachKeeps(s: State, pin: bool, u: Unit, k: Slot)
    requires Coherent(s, pin)
    ensures Coherent(Step(s, Attach(u, k)).state, pin)
  {
    var c := Pick(s, u);
    if !c.chan[k].used {
      SameLinesKeep(s, pin, u, c.(chan := c.chan[k := c.chan[k].(used := true)]));
    }
  }

  /** Steps that never re-examine a chip, and change no request, mask or filed level. */
  lemma QuietKeeps(s: State, pin: bool, op: Op)
    requires Coherent(s, pin)
    requires op.ClearFlipFlop? || op.ReadStatus? || op.ReadRegister?
    ensures Coherent(Step(s, op).state, pin)
  {
    var u := op.unit;
    SameLinesKeep(s, pin, u, Pick(Step(s, op).state, u));
  }

  lemma ProgrammingKeeps(s: State, pin: bool, op: Op)
    requires Coherent(s, pin)
    requires op.ModeOf? || op.AddressByte? || op.CountByte? || op.PageByte?
    ensures Coherent(Step(s, op).state, pin)
  {
    var u, k := op.unit, op.slot;
    var c := Pick(s, u);
    var ch := c.chan[k];
    match op
    case ModeOf(_, _, m) => ChannelWriteKeeps(s, pin, u, k, ch.(mode := m), c.flipFlop);
    case PageByte(_, _, v) => ChannelWriteKeeps(s, pin, u, k, ch.(page := v), c.flipFlop);
    case AddressByte(_, _, v) =>
      ChannelWriteKeeps(s, pin, u, k, if c.flipFlop then ch.(base := HighByte(ch.base, v), address := HighByte(ch.address, v))
                                      else ch.(base := v, address := v), !c.flipFlop);
    case CountByte(_, _, v) =>
      ChannelWriteKeeps(s, pin, u, k, if c.flipFlop then ch.(baseCount := HighByte(ch.baseCount, v), count := HighByte(ch.count, v))
                                      else ch.(baseCount := v, count := v), !c.flipFlop);
  }

  // ---- Whole runs ----

  /** Between steps the CPU may collect the filed level at any time. */
  datatype Event = Do(op: Op) | Collect

  datatype Machine = Machine(dma: State, pin: bool)

  function Next(m: Machine, e: Event): Machine {
    match e
    case Do(op) => m.(dma := Step(m.dma, op).state)
    case Collect => Machine(m.dma.(hrq := None), Line(m.dma, m.pin))
  }

  function Run(m: Machine, events: seq<Event>): Machine
    decreases |events|
  {
    if events == [] then m else Run(Next(m, events[0]), events[1..])
  }

  ghost predicate AllTame(m: Machine, events: seq<Event>)
    decreases |events|
  {
    events != [] ==>
      (events[0].Do? ==> Tame(m.dma, events[0].op)) && AllTame(Next(m, events[0]), events[1..])
  }

  lemma {:induction false} RunKeepsLines(m: Machine, events: seq<Event>)
    requires Coherent(m.dma, m.pin) && AllTame(m, events)
    ensures Coherent(Run(m, events).dma, Run(m, events).pin)
    decreases |events|
  {
    if events != [] {
      if events[0].Do? {
        StepKeepsLines(m.dma, m.pin, events[0].op);
      }
      RunKeepsLines(Next(m, events[0]), events[1..]);
    }
  }

  /** A pair just created and initialized is coherent, whatever the CPU saw before. */
  lemma InitializedIsCoherent()
    ensures forall pin :: Coherent(Init(New()), pin)
  {
    assert Eligible(Init(New()).low) == {} && Eligible(Init(New()).high) == {};
  }
}
