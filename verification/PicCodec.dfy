/**
 The 8259A section of a snapshot (`rusty_box/src/pic.rs`, lines 1082-1199): what
 every reachable pair satisfies, and its 66 bytes.
 */
module PicCodec {
  import opened Base
  import opened Wire
  import opened Pic8259
  import opened PicPair
  import opened PicRuns

  // ---- Programming is coherent in every reachable state ----

  /** The initialization sequence is where its flags say it is. */
  predicate PhaseValid(u: Program) {
    if u.inInit then u.byteExpected == 2 || u.byteExpected == 3 || (u.byteExpected == 4 && u.requires4)
    else u.byteExpected == 0 || u.byteExpected == 3 || u.byteExpected == 4
  }

  predicate Programmed(c: Chip) {
    PhaseValid(c.program) && c.program.offset % 8 == 0
  }

  predicate PairProgrammed(p: Pair) {
    p.master.master && !p.slave.master && Programmed(p.master) && Programmed(p.slave)
  }

  predicate SameProgram(c: Chip, d: Chip) {
    d.master == c.master && d.program == c.program
  }

  /** Neither chip was reprogrammed. */
  predicate SamePrograms(p: Pair, q: Pair) {
    SameProgram(p.master, q.master) && SameProgram(p.slave, q.slave)
  }

  lemma ServeSameProgram(c: Chip)
    ensures SameProgram(c, Serve(c).chip)
  {
  }

  lemma ServiceMasterSame(p: Pair)
    ensures SamePrograms(p, ServiceMaster(p))
  {
    ServeSameProgram(p.master);
  }

  lemma RaiseMasterSame(p: Pair, l: Line)
    ensures SamePrograms(p, RaiseMaster(p, l))
  {
    var c := p.master.(irqIn := p.master.irqIn + {l});
    ServiceMasterSame(p.(master := c.(irr := c.irr + {l})));
  }

  lemma ServiceSlaveSame(p: Pair)
    ensures SamePrograms(p, ServiceSlave(p))
  {
    ServeSameProgram(p.slave);
    RaiseMasterSame(p.(slave := Serve(p.slave).chip), 2);
  }

  /** Change one chip, but not its program, and perhaps service it. */
  lemma ServicedSame(p: Pair, isMaster: bool, d: Chip)
    requires SameProgram(Of(p, isMaster), d)
    ensures SamePrograms(p, With(p, isMaster, d)) && SamePrograms(p, ServiceChip(With(p, isMaster, d), isMaster))
  {
    if isMaster {
      ServiceMasterSame(With(p, true, d));
    } else {
      ServiceSlaveSame(With(p, false, d));
    }
  }

  lemma RaiseSame(p: Pair, n: byte)
    ensures SamePrograms(p, RaiseIrq(p, n))
  {
    if n < 8 {
      RaiseMasterSame(p, n);
    } else if n < 16 {
      var l: Line := n - 8;
      var c := p.slave.(irqIn := p.slave.irqIn + {l});
      ServiceSlaveSame(p.(slave := c.(irr := c.irr + {l})));
      assert RaiseIrq(p, n) == if l in c.irr then p.(slave := c) else ServiceSlave(p.(slave := c.(irr := c.irr + {l})));
    }
  }

  lemma SameTrans(p: Pair, q: Pair, r: Pair)
    requires SamePrograms(p, q) && SamePrograms(q, r)
    ensures SamePrograms(p, r)
  {
  }

  lemma IacCascadeSame(p: Pair)
    ensures SamePrograms(p, IacCascade(p).pair)
  {
    var r := p.(master := p.master.(irqIn := p.master.irqIn - {2}), slave := p.slave.(intPin := false));
    var s := r.(slave := Acknowledge(r.slave));
    if r.slave.irr - r.slave.imr == {} {
      assert IacCascade(p).pair == r;
    } else {
      assert IacCascade(p).pair == ServiceMaster(ServiceSlave(s));
      ServiceSlaveSame(s);
      ServiceMasterSame(ServiceSlave(s));
      SameTrans(s, ServiceSlave(s), ServiceMaster(ServiceSlave(s)));
    }
  }

  lemma IacSame(p: Pair)
    ensures SamePrograms(p, Iac(p).pair)
  {
    var t := Taken(p);
    assert SamePrograms(p, t);
    if !MasterSpurious(p) {
      if p.master.irq != 2 {
        assert Iac(p).pair == ServiceMaster(t);
        ServiceMasterSame(t);
      } else {
        assert Iac(p) == IacCascade(t);
        IacCascadeSame(t);
      }
      SameTrans(p, t, Iac(p).pair);
    }
  }

  lemma RetireSame(c: Chip)
    ensures SameProgram(c, Retire(c))
  {
  }

  lemma Ocw2ChipSame(c: Chip, v: byte)
    ensures SameProgram(c, Ocw2Chip(c, v))
  {
    if v == 0x20 {
      RetireSame(c);
      assert Ocw2Chip(c, v) == Retire(c);
    } else if v == 0xA0 {
      RetireSame(c);
      assert Ocw2Chip(c, v) == Rotated(Retire(c));
    }
  }

  lemma Ocw2Same(p: Pair, v: byte, isMaster: bool)
    ensures SamePrograms(p, Ocw2(p, v, isMaster))
  {
    Ocw2ChipSame(Of(p, isMaster), v);
    ServicedSame(p, isMaster, Ocw2Chip(Of(p, isMaster), v));
  }

  lemma Ocw3ModesSame(c: Chip, op: nat, mask: nat)
    ensures SameProgram(c, Ocw3Modes(c, op, mask))
  {
  }

  lemma Ocw3Same(p: Pair, v: byte, isMaster: bool)
    ensures SamePrograms(p, Ocw3(p, v, isMaster))
  {
    var c := Of(p, isMaster);
    Ocw3ModesSame(c, v % 4, v / 32 % 4);
    ServicedSame(p, isMaster, Ocw3Modes(c, v % 4, v / 32 % 4));
  }

  lemma ReadSame(p: Pair, isMaster: bool)
    ensures SamePrograms(p, ReadPort(p, isMaster))
  {
    var d := Retire(Of(p, isMaster));
    RetireSame(Of(p, isMaster));
    ServicedSame(p, isMaster, d.(modes := d.modes.(polled := false)));
  }

  lemma CommandStaysProgrammed(p: Pair, v: byte, isMaster: bool)
    requires PairProgrammed(p)
    ensures PairProgrammed(WriteCmd(p, v, isMaster))
  {
    if !HasBit(v, 4) {
      if v / 8 % 4 == 1 {
        Ocw3Same(p, v, isMaster);
      } else {
        Ocw2Same(p, v, isMaster);
      }
    }
  }

  lemma IcwStaysProgrammed(c: Chip, v: byte)
    requires Programmed(c) && c.program.inInit
    ensures Programmed(Icw(c, v)) && Icw(c, v).master == c.master
  {
    assert (v - v % 8) % 8 == 0;
  }

  lemma DataStaysProgrammed(p: Pair, v: byte, isMaster: bool)
    requires PairProgrammed(p)
    ensures PairProgrammed(WriteData(p, v, isMaster))
  {
    var c := Of(p, isMaster);
    if c.program.inInit {
      IcwStaysProgrammed(c, v);
      assert WriteData(p, v, isMaster) == With(p, isMaster, Icw(c, v));
    } else {
      var d := c.(imr := Lines(v));
      ServicedSame(p, isMaster, d);
      assert WriteData(p, v, isMaster) == ServiceChip(With(p, isMaster, d), isMaster);
    }
  }

  lemma StepStaysProgrammed(p: Pair, op: Op)
    requires PairProgrammed(p)
    ensures PairProgrammed(Step(p, op))
  {
    match op
    case Raise(n) => RaiseSame(p, n);
    case Lower(n) =>
    case Command(v, m) => CommandStaysProgrammed(p, v, m);
    case Data(v, m) => DataStaysProgrammed(p, v, m);
    case Read(m) => ReadSame(p, m);
    case Mode(m, v) =>
    case Inta => IacSame(p);
    case HardReset =>
  }

  /** Bases a vector added to does not outgrow a byte. */
  predicate BasesFit(p: Pair) {
    p.master.program.offset <= 248 && p.slave.program.offset <= 248
  }

  /** In every run from power-on the pair stays programmed, and no vector outgrows a byte. */
  lemma {:induction false} RunStaysProgrammed(p: Pair, ops: seq<Op>)
    requires PairProgrammed(p)
    ensures PairProgrammed(Run(p, ops)) && Iac(Run(p, ops)).vector < 256
    decreases |ops|
  {
    if ops != [] {
      StepStaysProgrammed(p, ops[0]);
      RunStaysProgrammed(Step(p, ops[0]), ops[1..]);
    } else {
      VectorFits(p);
    }
  }

  lemma VectorFits(p: Pair)
    requires BasesFit(p)
    ensures Iac(p).vector < 256
  {
    TakenKeepsLatch(p);
  }

  // ---- The bytes of one chip ----

  const BASE_KINDS: seq<Kind> := [Flag, U8, Flag, Flag, Flag, Flag]
  const REGISTER_KINDS: seq<Kind> := [U8, U8, U8, Flag, U8, U8, Flag]
  const LEVEL_KINDS: seq<Kind> := [U8, U8, U8, U8, U8, U8, U8, U8]
  const PHASE_KINDS: seq<Kind> := [Flag, Flag, U8, Flag, Flag, Flag, U8]

  function BaseVals(c: Chip): (v: seq<nat>)
    ensures |v| == 6
  {
    [Bit(c.master), c.program.offset, Bit(c.modes.sfnm), Bit(c.modes.bufferedMode), Bit(c.modes.masterSlave),
     Bit(c.autoEoi)]
  }

  function RegisterVals(c: Chip): (v: seq<nat>)
    ensures |v| == 7
  {
    [ByteOf(c.imr), ByteOf(c.isr), ByteOf(c.irr), Bit(c.modes.readIsr), c.irq, c.lowest, Bit(c.intPin)]
  }

  /** Line levels travel a byte each. */
  function LevelVals(s: set<Line>): (v: seq<nat>)
    ensures |v| == 8 && forall l: Line :: v[l] == Bit(l in s)
  {
    [Bit(0 in s), Bit(1 in s), Bit(2 in s), Bit(3 in s), Bit(4 in s), Bit(5 in s), Bit(6 in s), Bit(7 in s)]
  }

  function HighLevels(v: seq<nat>): set<Line>
    requires |v| == 8
  {
    set k | k in ALL_LINES && v[k] != 0
  }

  function PhaseVals(c: Chip): (v: seq<nat>)
    ensures |v| == 7
  {
    [Bit(c.program.inInit), Bit(c.program.requires4), c.program.byteExpected, Bit(c.specialMask), Bit(c.modes.polled),
     Bit(c.modes.rotateOnAutoEoi), ByteOf(c.edgeLevel)]
  }

  function ChipKinds(): (k: seq<Kind>)
    ensures |k| == 28
  {
    BASE_KINDS + (REGISTER_KINDS + (LEVEL_KINDS + PHASE_KINDS))
  }

  function ChipVals(c: Chip): (v: seq<nat>)
    ensures |v| == 28
  {
    BaseVals(c) + (RegisterVals(c) + (LevelVals(c.irqIn) + PhaseVals(c)))
  }

  lemma ChipSplit(v: seq<nat>)
    requires Conforms(ChipKinds(), v)
    ensures Conforms(BASE_KINDS, v[..6]) && Conforms(REGISTER_KINDS, v[6..13])
    ensures Conforms(LEVEL_KINDS, v[13..21]) && Conforms(PHASE_KINDS, v[21..])
  {
    ConformsSplit(BASE_KINDS, REGISTER_KINDS + (LEVEL_KINDS + PHASE_KINDS), v);
    ConformsSplit(REGISTER_KINDS, LEVEL_KINDS + PHASE_KINDS, v[6..]);
    ConformsSplit(LEVEL_KINDS, PHASE_KINDS, v[13..]);
    assert v[6..][..7] == v[6..13] && v[6..][7..] == v[13..] && v[13..][..8] == v[13..21] && v[13..][8..] == v[21..];
  }

  /** `restore` for one chip: its place in the pair, both line numbers and the phase are checked, nothing else. */
  function ChipFromParts(isMaster: bool, a: seq<nat>, r: seq<nat>, l: seq<nat>, h: seq<nat>): Option<Chip>
    requires Conforms(BASE_KINDS, a) && Conforms(REGISTER_KINDS, r) && Conforms(LEVEL_KINDS, l) && Conforms(PHASE_KINDS, h)
  {
    assert a[1] < Limit(BASE_KINDS[1]) && r[0] < Limit(REGISTER_KINDS[0]) && r[1] < Limit(REGISTER_KINDS[1]) &&
           r[2] < Limit(REGISTER_KINDS[2]) && h[2] < Limit(PHASE_KINDS[2]) && h[6] < Limit(PHASE_KINDS[6]);
    var program := Program(a[1], h[0] == 1, h[1] == 1, h[2]);
    if (a[0] == 1) != isMaster || r[4] > 7 || r[5] > 7 || !PhaseValid(program) then None
    else
      Some(Chip(isMaster, Lines(r[0]), Lines(r[1]), Lines(r[2]), HighLevels(l), Lines(h[6]),
                r[4], r[5], r[6] == 1, h[3] == 1, a[5] == 1, program,
                Modes(a[2] == 1, a[3] == 1, a[4] == 1, h[5] == 1, r[3] == 1, h[4] == 1)))
  }

  function ChipFrom(isMaster: bool, v: seq<nat>): Option<Chip>
    requires Conforms(ChipKinds(), v)
  {
    ChipSplit(v);
    ChipFromParts(isMaster, v[..6], v[6..13], v[13..21], v[21..])
  }

  lemma RegistersConform(c: Chip)
    ensures Conforms(BASE_KINDS, BaseVals(c)) && Conforms(REGISTER_KINDS, RegisterVals(c))
  {
  }

  lemma PartsConform(c: Chip)
    ensures Conforms(BASE_KINDS, BaseVals(c)) && Conforms(REGISTER_KINDS, RegisterVals(c))
    ensures Conforms(LEVEL_KINDS, LevelVals(c.irqIn)) && Conforms(PHASE_KINDS, PhaseVals(c))
  {
    RegistersConform(c);
  }

  lemma ChipConforms(c: Chip)
    ensures Conforms(ChipKinds(), ChipVals(c))
  {
    PartsConform(c);
    ConformsJoin(LEVEL_KINDS, LevelVals(c.irqIn), PHASE_KINDS, PhaseVals(c));
    ConformsJoin(REGISTER_KINDS, RegisterVals(c), LEVEL_KINDS + PHASE_KINDS, LevelVals(c.irqIn) + PhaseVals(c));
    ConformsJoin(BASE_KINDS, BaseVals(c), REGISTER_KINDS + (LEVEL_KINDS + PHASE_KINDS),
                 RegisterVals(c) + (LevelVals(c.irqIn) + PhaseVals(c)));
  }

  lemma PartsRoundTrip(c: Chip)
    requires PhaseValid(c.program)
    requires Conforms(BASE_KINDS, BaseVals(c)) && Conforms(REGISTER_KINDS, RegisterVals(c))
    requires Conforms(LEVEL_KINDS, LevelVals(c.irqIn)) && Conforms(PHASE_KINDS, PhaseVals(c))
    ensures ChipFromParts(c.master, BaseVals(c), RegisterVals(c), LevelVals(c.irqIn), PhaseVals(c)) == Some(c)
  {
    LinesOfByte(c.imr);
    LinesOfByte(c.isr);
    LinesOfByte(c.irr);
    LinesOfByte(c.edgeLevel);
    LevelsRoundTrip(c.irqIn);
  }

  lemma LevelsRoundTrip(s: set<Line>)
    ensures HighLevels(LevelVals(s)) == s
  {
    forall k: Line ensures k in HighLevels(LevelVals(s)) <==> k in s {
      assert k in ALL_LINES;
    }
  }

  lemma ChipRoundTrip(c: Chip)
    requires PhaseValid(c.program)
    ensures Conforms(ChipKinds(), ChipVals(c)) && ChipFrom(c.master, ChipVals(c)) == Some(c)
  {
    var v := ChipVals(c);
    ChipConforms(c);
    PartsConform(c);
    FourParts(BaseVals(c), RegisterVals(c), LevelVals(c.irqIn), PhaseVals(c));
    PartsRoundTrip(c);
  }

  lemma FourParts(a: seq<nat>, b: seq<nat>, l: seq<nat>, d: seq<nat>)
    requires |a| == 6 && |b| == 7 && |l| == 8
    ensures var v := a + (b + (l + d)); v[..6] == a && v[6..13] == b && v[13..21] == l && v[21..] == d
  {
  }

  // ---- The section ----

  const FORWARD_CAPACITY: nat := 256
  const TAIL_KINDS: seq<Kind> := [Flag, Flag, Kind.U32]
  const EDGE_KINDS: seq<Kind> := [U8, Flag]

  /** The queue length is always written as zero: no edge is ever left unforwarded. */
  function EncodeTail(p: Pair): bytes {
    Put(TAIL_KINDS, [Bit(p.irqPending), Bit(p.irqCleared), 0])
  }

  function EncodeChip(c: Chip): bytes {
    Put(ChipKinds(), ChipVals(c))
  }

  function Encode(p: Pair): bytes {
    Put([Kind.U32], [SECTION_VERSION]) + (EncodeChip(p.master) + (EncodeChip(p.slave) + EncodeTail(p)))
  }

  /** A restored pair, and the I/O APIC edges an older image left undelivered. */
  datatype Restored = Restored(pair: Pair, edges: seq<seq<nat>>)

  function DecodeChip(isMaster: bool, s: bytes): Option<Parsed<Chip>> {
    var v :- Get(ChipKinds(), s);
    WritesWhatWasRead(ChipKinds(), s);
    var c :- ChipFrom(isMaster, v.value);
    Some(Parsed(c, v.rest))
  }

  function DecodeTail(m: Chip, c: Chip, s: bytes): Option<Parsed<Restored>> {
    var t :- Get(TAIL_KINDS, s);
    if t.value[2] > FORWARD_CAPACITY then None
    else
      var edges :- GetAll(EDGE_KINDS, t.value[2], t.rest);
      if exists i :: 0 <= i < |edges.value| && edges.value[i][0] >= 16 then None
      else Some(Parsed(Restored(Pair(m, c, t.value[0] == 1, t.value[1] == 1), edges.value), edges.rest))
  }

  function Decode(s: bytes): Option<Parsed<Restored>> {
    var version :- Get([Kind.U32], s);
    if version.value[0] != SECTION_VERSION then None
    else
      var m :- DecodeChip(true, version.rest);
      var c :- DecodeChip(false, m.rest);
      DecodeTail(m.value, c.value, c.rest)
  }

  lemma ChipBytesRoundTrip(c: Chip, rest: bytes)
    requires PhaseValid(c.program)
    ensures DecodeChip(c.master, EncodeChip(c) + rest) == Some(Parsed(c, rest))
  {
    ChipRoundTrip(c);
    ReadsWhatWasWritten(ChipKinds(), ChipVals(c), rest);
  }

  /** What `restore` demands of a pair: each chip in its place, and each initialization sequence coherent. */
  predicate Restorable(p: Pair) {
    p.master.master && !p.slave.master && PhaseValid(p.master.program) && PhaseValid(p.slave.program)
  }

  /** Saving any such pair and restoring it gives the same pair and no left-over edges. */
  lemma SaveThenRestore(p: Pair, rest: bytes)
    requires Restorable(p)
    ensures Decode(Encode(p) + rest) == Some(Parsed(Restored(p, []), rest))
  {
    var t := EncodeTail(p) + rest;
    var c := EncodeChip(p.slave) + t;
    var m := EncodeChip(p.master) + c;
    Regroup(EncodeChip(p.slave), EncodeTail(p), rest);
    Regroup(EncodeChip(p.master), EncodeChip(p.slave) + EncodeTail(p), rest);
    Regroup(Put([Kind.U32], [SECTION_VERSION]), EncodeChip(p.master) + (EncodeChip(p.slave) + EncodeTail(p)), rest);
    ReadsWhatWasWritten([Kind.U32], [SECTION_VERSION], m);
    ChipBytesRoundTrip(p.master, c);
    ChipBytesRoundTrip(p.slave, t);
    TailRoundTrip(p, rest);
  }

  lemma TailRoundTrip(p: Pair, rest: bytes)
    ensures DecodeTail(p.master, p.slave, EncodeTail(p) + rest) == Some(Parsed(Restored(p, []), rest))
  {
    ReadsWhatWasWritten(TAIL_KINDS, [Bit(p.irqPending), Bit(p.irqCleared), 0], rest);
  }

  lemma RecordLenSteps(k: Kind, kinds: seq<Kind>)
    ensures RecordLen([k] + kinds) == Width(k) + RecordLen(kinds)
  {
    assert ([k] + kinds)[1..] == kinds;
  }

  lemma {:induction false} ByteWideRecord(kinds: seq<Kind>)
    requires forall i :: 0 <= i < |kinds| ==> kinds[i] == U8 || kinds[i] == Flag
    ensures RecordLen(kinds) == |kinds|
  {
    if kinds != [] {
      ByteWideRecord(kinds[1..]);
    }
  }

  lemma ChipIs28Bytes()
    ensures RecordLen(ChipKinds()) == 28
  {
    ByteWideRecord(BASE_KINDS);
    ByteWideRecord(REGISTER_KINDS);
    ByteWideRecord(LEVEL_KINDS);
    ByteWideRecord(PHASE_KINDS);
    RecordLenAdds(LEVEL_KINDS, PHASE_KINDS);
    RecordLenAdds(REGISTER_KINDS, LEVEL_KINDS + PHASE_KINDS);
    RecordLenAdds(BASE_KINDS, REGISTER_KINDS + (LEVEL_KINDS + PHASE_KINDS));
  }

  /** The payload is 66 bytes, whatever the state. */
  lemma PayloadIs66Bytes(p: Pair)
    ensures |Encode(p)| == 66
  {
    ChipIs28Bytes();
    assert TAIL_KINDS == [Flag] + ([Flag] + [Kind.U32]);
    RecordLenSteps(Flag, [Flag] + [Kind.U32]);
    RecordLenSteps(Flag, [Kind.U32]);
  }

  /** Every reachable pair can be saved and comes back unchanged. */
  lemma ReachablePairsRoundTrip(ops: seq<Op>)
    ensures Decode(Encode(Run(New(), ops))) == Some(Parsed(Restored(Run(New(), ops), []), []))
  {
    RunStaysProgrammed(New(), ops);
    SaveThenRestore(Run(New(), ops), []);
    assert Encode(Run(New(), ops)) + [] == Encode(Run(New(), ops));
  }

  /** `restore`: everything is read before anything is kept, so a refused section leaves the controllers as they were. */
  method RestoreInto(pic: Controller, s: bytes) returns (edges: Option<Parsed<seq<seq<nat>>>>)
    modifies pic
    ensures edges.None? ==> Decode(s).None? && pic.Value() == old(pic.Value())
    ensures edges.Some? ==> Decode(s) == Some(Parsed(Restored(pic.Value(), edges.value.value), edges.value.rest))
  {
    var version := Get([Kind.U32], s);
    if version.None? || version.value.value[0] != SECTION_VERSION {
      return None;
    }
    var m := DecodeChip(true, version.value.rest);
    if m.None? {
      return None;
    }
    var c := DecodeChip(false, m.value.rest);
    if c.None? {
      return None;
    }
    var tail := DecodeTail(m.value.value, c.value.value, c.value.rest);
    if tail.None? {
      return None;
    }
    var pair := tail.value.value.pair;
    pic.master, pic.slave, pic.irqPending, pic.irqCleared := pair.master, pair.slave, pair.irqPending, pair.irqCleared;
    return Some(Parsed(tail.value.value.edges, tail.value.rest));
  }
}
