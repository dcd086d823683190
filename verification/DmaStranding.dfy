/**
 Short runs of the DMA pair (`rusty_box/src/dma.rs`) from power-on in which a request
 that waits is not served: behind a masked request the cascade still carries, behind a
 cascade that is withdrawn, and behind a count that expires.
 */
module DmaStranding {
  import opened Base
  import opened Dma8237
  import opened DmaLines

  lemma RunFrom(m: Machine, events: seq<Event>, k: nat)
    requires k < |events|
    ensures Run(m, events[k..]) == Run(Next(m, events[k]), events[k + 1..])
    ensures AllTame(m, events[k..]) <==>
            (events[k].Do? ==> Tame(m.dma, events[k].op)) && AllTame(Next(m, events[k]), events[k + 1..])
  {
    assert events[k..][0] == events[k] && events[k..][1..] == events[k + 1..];
  }

  /** Five steps, each tame where it is taken, are a tame run. */
  lemma RunOfFive(m: Machine, ops: seq<Op>, s: seq<State>)
    requires |ops| == 5 && |s| == 6 && s[0] == m.dma
    requires forall i :: 0 <= i < 5 ==> Tame(s[i], ops[i]) && s[i + 1] == Step(s[i], ops[i]).state
    ensures var events := [Do(ops[0]), Do(ops[1]), Do(ops[2]), Do(ops[3]), Do(ops[4])];
            AllTame(m, events) && Run(m, events) == Machine(s[5], m.pin)
  {
    var events := [Do(ops[0]), Do(ops[1]), Do(ops[2]), Do(ops[3]), Do(ops[4])];
    assert events[0..] == events && events[5..] == [];
    RunFrom(Machine(s[0], m.pin), events, 0);
    RunFrom(Machine(s[1], m.pin), events, 1);
    RunFrom(Machine(s[2], m.pin), events, 2);
    RunFrom(Machine(s[3], m.pin), events, 3);
    RunFrom(Machine(s[4], m.pin), events, 4);
  }

  /** Initialized, with a device on channel `a` of one chip and one on channel `b` of another or the same. */
  function TwoDevices(u: Unit, a: Slot, v: Unit, b: Slot): Option<State> {
    var s :- Register(Init(New()), u, a);
    Register(s, v, b)
  }

  /** No requests, nothing masked on DMA1. */
  lemma OpensLow(s: State)
    requires s.low.request == {} && s.high.request == {} && s.high.drq == {}
    requires !s.low.disabled && !s.high.disabled && s.high.chan[0].used
    ensures Step(s, AllMasks(One, {})).state == s.(low := s.low.(mask := {}), hrq := Some(false))
  {
    var s1 := s.(low := s.low.(mask := {}));
    var s2 := s1.(high := s1.high.(drq := s1.high.drq - {0}, request := s1.high.request - {0}));
    assert s2 == s1;
    assert ControlHrq(s1, One) == SetDrq(s1, CASCADE, false) == ControlHrq(s2, Two);
  }

  lemma OpensHigh(s: State)
    requires s.high.request == {} && !s.high.disabled
    ensures Step(s, AllMasks(Two, {})).state == s.(high := s.high.(mask := {}), hrq := Some(false))
  {
    var s1 := s.(high := s.high.(mask := {}));
    assert WriteMask(s, Two, {}) == ControlHrq(s1, Two);
  }

  /** With everything open, a request on DMA1 goes straight through. */
  lemma LowRequest(s: State, k: Slot)
    requires s.low.mask == {} && s.high.mask == {} && !s.low.disabled && !s.high.disabled
    requires s.low.chan[k].used && s.high.chan[0].used
    ensures Step(s, Drq(k, true)).state ==
            s.(low := s.low.(drq := s.low.drq + {k}, request := s.low.request + {k}),
               high := s.high.(drq := s.high.drq + {0}, request := s.high.request + {0}), hrq := Some(true))
  {
    var s1 := s.(low := s.low.(drq := s.low.drq + {k}, request := s.low.request + {k}));
    assert k in Eligible(s1.low);
    assert SetDrq(s, k, true) == ControlHrq(s1, One);
    var s2 := s1.(high := s1.high.(drq := s1.high.drq + {0}, request := s1.high.request + {0}));
    assert 0 in Eligible(s2.high);
    assert ControlHrq(s1, One) == SetDrq(s1, CASCADE, true) == ControlHrq(s2, Two);
  }

  lemma HighRequest(s: State)
    requires s.high.mask == {} && !s.high.disabled && s.high.chan[1].used
    ensures Step(s, Drq(5, true)).state ==
            s.(high := s.high.(drq := s.high.drq + {1}, request := s.high.request + {1}), hrq := Some(true))
  {
    var s1 := s.(high := s.high.(drq := s.high.drq + {1}, request := s.high.request + {1}));
    assert 1 in Eligible(s1.high);
    assert SetDrq(s, 5, true) == ControlHrq(s1, Two);
  }

  /** Masking the only request of DMA1 changes nothing else: the cascade keeps asking. */
  lemma MasksOnly(s: State, k: Slot)
    requires s.low.mask == {} && s.low.request == {k}
    ensures Step(s, SingleMask(One, k, true)).state == s.(low := s.low.(mask := {k}))
  {
    var s1 := s.(low := s.low.(mask := {k}));
    assert Eligible(s1.low) == {};
    assert Change({}, k, true) == {k};
  }

  /**
   Channel 2 requests and is masked; then channel 5 requests. The run is tame and the
   CPU is asked, but no hold is granted to anyone: the cascade wins and has nothing.
   */
  lemma MaskedRequestStarves(pin: bool)
    ensures TwoDevices(One, 2, Two, 1).Some?
    ensures var m := Machine(TwoDevices(One, 2, Two, 1).value, pin);
            var events := [Do(AllMasks(One, {})), Do(AllMasks(Two, {})), Do(Drq(2, true)), Do(SingleMask(One, 2, true)), Do(Drq(5, true))];
            var r := Run(m, events);
            && AllTame(m, events) && Coherent(r.dma, r.pin) && Line(r.dma, r.pin)
            && 1 in Eligible(r.dma.high) && Granted(r.dma).None?
  {
    var s0 := TwoDevices(One, 2, Two, 1).value;
    var ops := [AllMasks(One, {}), AllMasks(Two, {}), Drq(2, true), SingleMask(One, 2, true), Drq(5, true)];
    OpensLow(s0);
    var s1 := Step(s0, ops[0]).state;
    OpensHigh(s1);
    var s2 := Step(s1, ops[1]).state;
    LowRequest(s2, 2);
    var s3 := Step(s2, ops[2]).state;
    assert s3.low.request == {2};
    MasksOnly(s3, 2);
    var s4 := Step(s3, ops[3]).state;
    HighRequest(s4);
    var s5 := Step(s4, ops[4]).state;
    RunOfFive(Machine(s0, pin), ops, [s0, s1, s2, s3, s4, s5]);
    StarvedState(s5, pin);
  }

  lemma StarvedState(s: State, pin: bool)
    requires s.low.request == {2} && s.low.mask == {2} && s.high.request == {0, 1} && s.high.mask == {} && s.hrq == Some(true)
    requires s.high.chan[0].used
    ensures Coherent(s, pin) && Line(s, pin) && 1 in Eligible(s.high) && Granted(s).None?
  {
    assert Eligible(s.low) == {} && Eligible(s.high) == {0, 1};
  }

  lemma WaitsThroughCascade(s: State, pin: bool)
    requires s.low.request == {2} && s.low.mask == {} && s.high.request == {0} && s.high.mask == {} && s.hrq == Some(true)
    requires s.high.chan[0].used && !s.low.disabled
    ensures Coherent(s, pin) && Waiting(s.low)
  {
    assert Eligible(s.low) == {2} && Eligible(s.high) == {0};
  }

  /** The ways to withdraw channel 4's request. */
  predicate WithdrawsCascade(op: Op) {
    op == Drq(CASCADE, false) || op == Request(Two, 0, false) || op == Clear(Two)
  }

  lemma WithdrawalStrands(s: State, pin: bool, op: Op)
    requires Coherent(s, pin) && Waiting(s.low) && WithdrawsCascade(op)
    ensures !Coherent(Step(s, op).state, pin)
  {
    StepKeepsLines(s, pin, op);
  }

  /** Channel 2 requests and is passed on. */
  lemma RequestPassesOn(pin: bool) returns (s: State)
    ensures TwoDevices(One, 2, Two, 1).Some?
    ensures var m := Machine(TwoDevices(One, 2, Two, 1).value, pin);
            var events := [Do(AllMasks(One, {})), Do(AllMasks(Two, {})), Do(Drq(2, true))];
            AllTame(m, events) && Run(m, events) == Machine(s, pin)
    ensures Coherent(s, pin) && Waiting(s.low)
  {
    var s0 := TwoDevices(One, 2, Two, 1).value;
    var events := [Do(AllMasks(One, {})), Do(AllMasks(Two, {})), Do(Drq(2, true))];
    OpensLow(s0);
    var s1 := Step(s0, AllMasks(One, {})).state;
    OpensHigh(s1);
    var s2 := Step(s1, AllMasks(Two, {})).state;
    LowRequest(s2, 2);
    s := Step(s2, Drq(2, true)).state;
    assert events[0..] == events && events[3..] == [];
    RunFrom(Machine(s0, pin), events, 0);
    RunFrom(Machine(s1, pin), events, 1);
    RunFrom(Machine(s2, pin), events, 2);
    WaitsThroughCascade(s, pin);
  }

  /** A tame run after which withdrawing channel 4's request, in any way, leaves channel 2 unheard. */
  lemma CascadeWithdrawnStrands(pin: bool, op: Op) returns (s: State)
    requires WithdrawsCascade(op)
    ensures TwoDevices(One, 2, Two, 1).Some?
    ensures var m := Machine(TwoDevices(One, 2, Two, 1).value, pin);
            var events := [Do(AllMasks(One, {})), Do(AllMasks(Two, {})), Do(Drq(2, true))];
            AllTame(m, events) && Run(m, events) == Machine(s, pin)
    ensures Coherent(s, pin) && Waiting(s.low) && !Coherent(Step(s, op).state, pin)
  {
    s := RequestPassesOn(pin);
    WithdrawalStrands(s, pin, op);
  }

  const ONE_BYTE: Mode := Mode(1, false, false, WRITE)

  /** Channel 1, programmed for a single byte, and channel 2 both request; the hold that moves the byte strands channel 2. */
  lemma ExpiryStrandsReachably(pin: bool, buffer: seq<byte>)
    requires |buffer| == BUFFER_SIZE
    ensures TwoDevices(One, 1, One, 2).Some?
    ensures var m := Machine(TwoDevices(One, 1, One, 2).value, pin);
            var events := [Do(AllMasks(One, {})), Do(AllMasks(Two, {})), Do(ModeOf(One, 1, ONE_BYTE)), Do(Drq(1, true)), Do(Drq(2, true))];
            var r := Run(m, events);
            && AllTame(m, events) && Coherent(r.dma, r.pin) && Honest(r.dma, Answer(1, buffer))
            && Expires(r.dma, Answer(1, buffer)) && !Coherent(RaiseHlda(r.dma, Answer(1, buffer)).state, r.pin)
  {
    var s0 := TwoDevices(One, 1, One, 2).value;
    var ops := [AllMasks(One, {}), AllMasks(Two, {}), ModeOf(One, 1, ONE_BYTE), Drq(1, true), Drq(2, true)];
    OpensLow(s0);
    var s1 := Step(s0, ops[0]).state;
    OpensHigh(s1);
    var s2 := Step(s1, ops[1]).state;
    var s3 := Step(s2, ops[2]).state;
    assert s3 == s2.(low := s2.low.(chan := s2.low.chan[1 := s2.low.chan[1].(mode := ONE_BYTE)]));
    LowRequest(s3, 1);
    var s4 := Step(s3, ops[3]).state;
    LowRequest(s4, 2);
    var s5 := Step(s4, ops[4]).state;
    RunOfFive(Machine(s0, pin), ops, [s0, s1, s2, s3, s4, s5]);
    assert s5.low.request == {1, 2} && s5.high.request == {0};
    BothWait(s5, pin, Answer(1, buffer));
  }

  lemma BothWait(s: State, pin: bool, a: Answer)
    requires s.low.request == {1, 2} && s.low.mask == {} && s.high.request == {0} && s.high.mask == {} && s.hrq == Some(true)
    requires s.high.chan[0].used && !s.low.disabled && 1 in s.wiring.byteWide
    requires s.low.chan[1].mode == ONE_BYTE && s.low.chan[1].count == 0 && a.len == 1 && |a.buffer| == BUFFER_SIZE
    ensures Coherent(s, pin) && Honest(s, a) && Expires(s, a) && !Coherent(RaiseHlda(s, a).state, pin)
  {
    assert Eligible(s.low) == {1, 2} && Eligible(s.high) == {0};
    var g := Grant(One, 1);
    assert Granted(s) == Some(g);
    assert 2 in Eligible(s.low);
    assert !AloneOnItsChip(s, g);
    assert Moved(Acknowledged(s), g, a) == Some(1);
    ExpiryStrandsUnlessAlone(s, a, pin);
  }
}
