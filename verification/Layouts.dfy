/**
 Where everything stands in a snapshot, by byte offset: the container
 (`rusty_box/src/snapshot.rs`), the timers (`rusty_box/src/pc_system.rs`), the interrupt
 controllers (`rusty_box/src/pic.rs`) and the memory geometry. Each value is read off the
 bytes by weight, without the decoders.
 */
module Layouts {
  import opened Base
  import opened TimerTypes
  import opened TimerWire
  import opened Wire
  import opened Container
  import W = WheelCodec
  import Wheel
  import P = PicCodec
  import opened Pic8259
  import opened PicPair
  import M = MemorySection

  // ---- The container ----

  /** Where section `k` starts. */
  function SectionStart(secs: seq<Section>, k: nat): nat
    requires k <= |secs|
  {
    if k == 0 then 0 else 12 + |secs[0].body| + SectionStart(secs[1..], k - 1)
  }

  lemma WrittenValue(v: nat, n: nat)
    requires v < Pow256(n)
    ensures ValueAt(LittleEndian(v, n), 0, n) == v
  {
    ReadsBackInteger(v, n);
    ReadsItsWorth(LittleEndian(v, n), n);
    assert LittleEndian(v, n)[0..n] == LittleEndian(v, n) == LittleEndian(v, n)[..n];
  }

  lemma Regrouped(a: bytes, b: bytes, c: bytes, d: bytes, e: bytes)
    ensures a + ((b + (c + d)) + e) == a + (b + (c + (d + e)))
    ensures a + (b + (c + (d + e))) == (a + b) + (c + (d + e))
  {
  }

  lemma BodyInside(a: bytes, b: bytes, c: bytes, d: bytes, e: bytes)
    ensures (a + (b + (c + (d + e))))[|a| + |b| + |c|..|a| + |b| + |c| + |d|] == d
  {
  }

  /** A section stands at `at`: its number in four bytes, its length in eight, then the bytes themselves. */
  predicate SectionAt(b: bytes, at: nat, s: Section) {
    && at + 12 + |s.body| <= |b|
    && ValueAt(b, at, 4) == s.id && ValueAt(b, at + 4, 8) == |s.body| && b[at + 12..at + 12 + |s.body|] == s.body
  }

  lemma SectionLayout(s: Section, before: bytes, after: bytes) returns (b: bytes)
    requires s.id < U32_LIMIT && |s.body| < U64_LIMIT
    ensures b == before + (PrintSection(s) + after) && SectionAt(b, |before|, s)
  {
    b := before + (PrintSection(s) + after);
    var i, n := LittleEndian(s.id, 4), LittleEndian(|s.body|, 8);
    LimitIsWidth(Kind.U32);
    LimitIsWidth(Kind.U64);
    WrittenValue(s.id, 4);
    WrittenValue(|s.body|, 8);
    Regrouped(before, i, n, s.body, after);
    ValueInside(before, i, n + (s.body + after), 0, 4);
    ValueInside(before + i, n, s.body + after, 0, 8);
    BodyInside(before, i, n, s.body, after);
  }

  lemma {:induction false} SectionsLayout(secs: seq<Section>, k: nat, before: bytes) returns (b: bytes, at: nat)
    requires k < |secs| && secs[k].id < U32_LIMIT && |secs[k].body| < U64_LIMIT
    ensures b == before + PrintAll(secs) && at == |before| + SectionStart(secs, k) && SectionAt(b, at, secs[k])
    decreases k
  {
    if k == 0 {
      b := SectionLayout(secs[0], before, PrintAll(secs[1..]));
      at := |before|;
    } else {
      b, at := SectionsLayout(secs[1..], k - 1, before + PrintSection(secs[0]));
      Regroup(before, PrintSection(secs[0]), PrintAll(secs[1..]));
    }
  }

  lemma HeaderLayout(count: nat, rest: bytes) returns (b: bytes)
    requires count < U32_LIMIT
    ensures b == Header(count) + rest && 16 <= |b|
    ensures b[..8] == MAGIC && ValueAt(b, 8, 4) == CONTAINER_VERSION && ValueAt(b, 12, 4) == count
  {
    b := Header(count) + rest;
    var v, n := LittleEndian(CONTAINER_VERSION, 4), LittleEndian(count, 4);
    LimitIsWidth(Kind.U32);
    WrittenValue(CONTAINER_VERSION, 4);
    WrittenValue(count, 4);
    Regrouped([], MAGIC, v, n, rest);
    assert b == MAGIC + (v + (n + rest));
    ValueInside(MAGIC, v, n + rest, 0, 4);
    assert b == (MAGIC + v) + (n + rest);
    ValueInside(MAGIC + v, n, rest, 0, 4);
  }

  /** A snapshot: eight bytes of magic, version and number of sections in four each, then the sections in order. */
  lemma ContainerLayout(secs: seq<Section>, k: nat) returns (b: bytes)
    requires |secs| < U32_LIMIT && k < |secs| && secs[k].id < U32_LIMIT && |secs[k].body| < U64_LIMIT
    ensures b == Print(secs) && 16 <= |b|
    ensures b[..8] == MAGIC && ValueAt(b, 8, 4) == CONTAINER_VERSION && ValueAt(b, 12, 4) == |secs|
    ensures SectionAt(b, 16 + SectionStart(secs, k), secs[k])
  {
    b := HeaderLayout(|secs|, PrintAll(secs));
    var b', at := SectionsLayout(secs, k, Header(|secs|));
  }

  // ---- The timers ----

  lemma ClockOffsets()
    ensures RecordLen(W.CLOCK_KINDS[..0]) == 0 && RecordLen(W.CLOCK_KINDS[..1]) == 4 && RecordLen(W.CLOCK_KINDS[..2]) == 12
    ensures RecordLen(W.CLOCK_KINDS[..3]) == 16 && RecordLen(W.CLOCK_KINDS[..4]) == 20 && RecordLen(W.CLOCK_KINDS[..5]) == 28
    ensures RecordLen(W.CLOCK_KINDS[..6]) == 36
  {
    NextField(W.CLOCK_KINDS, 0);
    NextField(W.CLOCK_KINDS, 1);
    NextField(W.CLOCK_KINDS, 2);
    NextField(W.CLOCK_KINDS, 3);
    NextField(W.CLOCK_KINDS, 4);
    NextField(W.CLOCK_KINDS, 5);
  }

  lemma LineOffsets(j: nat)
    requires 2 <= j <= 8
    ensures RecordLen(W.LINE_KINDS[..0]) == 0 && RecordLen(W.LINE_KINDS[..1]) == 1 && RecordLen(W.LINE_KINDS[..j]) == 7 + j
  {
    NextField(W.LINE_KINDS, 0);
    NextField(W.LINE_KINDS, 1);
    if j > 2 {
      LineOffsets(j - 1);
      NextField(W.LINE_KINDS, j - 1);
    }
  }

  lemma CountOffsets()
    ensures RecordLen(W.COUNT_KINDS[..0]) == 0 && RecordLen(W.COUNT_KINDS[..1]) == 4 && RecordLen(W.COUNT_KINDS[..2]) == 8
  {
    NextField(W.COUNT_KINDS, 0);
    NextField(W.COUNT_KINDS, 1);
  }

  lemma {:induction false} PutJoins(a: seq<Kind>, x: seq<nat>, b: seq<Kind>, y: seq<nat>)
    requires |a| == |x| && |b| == |y|
    ensures Put(a + b, x + y) == Put(a, x) + Put(b, y)
    decreases |a|
  {
    if a == [] {
      assert a + b == b && x + y == y;
    } else {
      assert (a + b)[1..] == a[1..] + b && (x + y)[1..] == x[1..] + y;
      PutJoins(a[1..], x[1..], b, y);
    }
  }

  /** The payload in its parts: clock, lines, counts, timers, queue, and where each begins. */
  lemma TimerParts(w: Wheel.State) returns (c: bytes, l: bytes, n: bytes, ts: bytes, q: bytes)
    requires W.Encodable(w)
    ensures c == Put(W.CLOCK_KINDS, W.ClockVals(w)) && l == Put(W.LINE_KINDS, W.LineVals(w.board))
    ensures n == Put(W.COUNT_KINDS, W.CountVals(w))
    ensures ts == W.EncodeTimers(w.timers) && q == W.EncodeQueue(w.fired)
    ensures W.Encode(w) == c + (l + (n + (ts + q)))
    ensures |c| == 44 && |l| == 16 && |n| == 12 && |ts| == 54 * MAX_TIMERS
  {
    c, l, n := Put(W.CLOCK_KINDS, W.ClockVals(w)), Put(W.LINE_KINDS, W.LineVals(w.board)), Put(W.COUNT_KINDS, W.CountVals(w));
    ts, q := W.EncodeTimers(w.timers), W.EncodeQueue(w.fired);
    PutJoins(W.LINE_KINDS, W.LineVals(w.board), W.COUNT_KINDS, W.CountVals(w));
    PutJoins(W.CLOCK_KINDS, W.ClockVals(w), W.LINE_KINDS + W.COUNT_KINDS, W.LineVals(w.board) + W.CountVals(w));
    assert W.Encode(w) == (c + (l + n)) + (ts + q);
    Regroup(l, n, ts + q);
    Regroup(c, l + n, ts + q);
    W.ClockLength();
    W.LineLength();
    W.RecordLenOfThree(Kind.U32, Kind.U32, Kind.U32);
    W.TimersLength(w.timers);
  }

  /** A field of a record that has `before` in front of it and `after` behind. */
  lemma FieldInside(before: bytes, kinds: seq<Kind>, vals: seq<nat>, after: bytes, j: nat, at: nat)
    requires Conforms(kinds, vals) && j < |kinds| && at == RecordLen(kinds[..j])
    ensures var b, n := before + (Put(kinds, vals) + after), Width(kinds[j]);
            |before| + at + n <= |b| && ValueAt(b, |before| + at, n) == vals[j]
  {
    FieldValue(kinds, vals, j, at);
    ValueInside(before, Put(kinds, vals), after, at, Width(kinds[j]));
  }

  /** The clock, from byte 0: version and rate. */
  lemma ClockLayout(w: Wheel.State, after: bytes) returns (b: bytes)
    requires Conforms(W.CLOCK_KINDS, W.ClockVals(w))
    ensures b == [] + (Put(W.CLOCK_KINDS, W.ClockVals(w)) + after) && 12 <= |b|
    ensures ValueAt(b, 0, 4) == 1 && ValueAt(b, 4, 8) == w.ips
  {
    var k, v := W.CLOCK_KINDS, W.ClockVals(w);
    b := [] + (Put(k, v) + after);
    ClockOffsets();
    FieldInside([], k, v, after, 0, 0);
    FieldInside([], k, v, after, 1, 4);
  }

  /** Then the countdown and its period. */
  lemma CountdownLayout(w: Wheel.State, after: bytes) returns (b: bytes)
    requires Conforms(W.CLOCK_KINDS, W.ClockVals(w))
    ensures b == [] + (Put(W.CLOCK_KINDS, W.ClockVals(w)) + after) && 20 <= |b|
    ensures ValueAt(b, 12, 4) == w.countdown && ValueAt(b, 16, 4) == w.period
  {
    var k, v := W.CLOCK_KINDS, W.ClockVals(w);
    b := [] + (Put(k, v) + after);
    ClockOffsets();
    FieldInside([], k, v, after, 2, 12);
    FieldInside([], k, v, after, 3, 16);
  }

  /** Then ticks so far and the two microsecond marks. */
  lemma TimeLayout(w: Wheel.State, after: bytes) returns (b: bytes)
    requires Conforms(W.CLOCK_KINDS, W.ClockVals(w))
    ensures b == [] + (Put(W.CLOCK_KINDS, W.ClockVals(w)) + after) && 44 <= |b|
    ensures ValueAt(b, 20, 8) == w.ticksTotal && ValueAt(b, 28, 8) == w.board.lastTimeUsec && ValueAt(b, 36, 8) == w.board.usecSinceLast
  {
    var k, v := W.CLOCK_KINDS, W.ClockVals(w);
    b := [] + (Put(k, v) + after);
    ClockOffsets();
    FieldInside([], k, v, after, 4, 20);
    FieldInside([], k, v, after, 5, 28);
    FieldInside([], k, v, after, 6, 36);
  }

  lemma FlagField(before: bytes, board: Board, after: bytes, j: nat)
    requires 2 <= j < 9
    ensures var b, at := before + (Put(W.LINE_KINDS, W.LineVals(board)) + after), |before| + 7 + j;
            at + 1 <= |b| && ValueAt(b, at, 1) == W.LineVals(board)[j]
  {
    W.LinesConform(board);
    LineOffsets(j);
    FieldInside(before, W.LINE_KINDS, W.LineVals(board), after, j, 7 + j);
  }

  /** The lines, from byte 44: A20 and its mask, hold request and hold request pending. */
  lemma LineLayout(before: bytes, board: Board, after: bytes) returns (b: bytes)
    requires |before| == 44
    ensures b == before + (Put(W.LINE_KINDS, W.LineVals(board)) + after) && 60 <= |b|
    ensures ValueAt(b, 44, 1) == Bit(board.enableA20) && ValueAt(b, 45, 8) == board.a20Mask
    ensures ValueAt(b, 53, 1) == Bit(board.hrq) && ValueAt(b, 54, 1) == Bit(board.hrqPending)
  {
    b := before + (Put(W.LINE_KINDS, W.LineVals(board)) + after);
    W.LinesConform(board);
    LineOffsets(2);
    W.LineLength();
    FieldInside(before, W.LINE_KINDS, W.LineVals(board), after, 0, 0);
    FieldInside(before, W.LINE_KINDS, W.LineVals(board), after, 1, 1);
    FlagField(before, board, after, 2);
    FlagField(before, board, after, 3);
  }

  /** And after them the pending flags, and why a reset was asked for. */
  lemma FlagLayout(before: bytes, board: Board, after: bytes) returns (b: bytes)
    requires |before| == 44
    ensures b == before + (Put(W.LINE_KINDS, W.LineVals(board)) + after) && 60 <= |b|
    ensures ValueAt(b, 55, 1) == Bit(board.asyncEventPending) && ValueAt(b, 56, 1) == Bit(board.intrRaised)
    ensures ValueAt(b, 57, 1) == Bit(board.intrCleared) && ValueAt(b, 58, 1) == Bit(board.killRequest)
    ensures ValueAt(b, 59, 1) == if board.resetRequest.None? then 0 else if board.resetRequest.value.SoftwareReset? then 1 else 2
  {
    b := before + (Put(W.LINE_KINDS, W.LineVals(board)) + after);
    W.LineLength();
    FlagField(before, board, after, 4);
    FlagField(before, board, after, 5);
    FlagField(before, board, after, 6);
    FlagField(before, board, after, 7);
    FlagField(before, board, after, 8);
  }

  /** The counts, from byte 60: slots there are, slots below which all in use lie, and the timer being dispatched. */
  lemma CountLayout(before: bytes, w: Wheel.State, after: bytes) returns (b: bytes)
    requires |before| == 60 && Conforms(W.COUNT_KINDS, W.CountVals(w))
    ensures b == before + (Put(W.COUNT_KINDS, W.CountVals(w)) + after) && 72 <= |b|
    ensures ValueAt(b, 60, 4) == MAX_TIMERS && ValueAt(b, 64, 4) == w.numTimers && ValueAt(b, 68, 4) == w.triggered
  {
    var k, v := W.COUNT_KINDS, W.CountVals(w);
    b := before + (Put(k, v) + after);
    CountOffsets();
    FieldInside(before, k, v, after, 0, 0);
    FieldInside(before, k, v, after, 1, 4);
    FieldInside(before, k, v, after, 2, 8);
  }

  lemma TimerOffsets()
    ensures RecordLen(W.TimerKinds()[..0]) == 0 && RecordLen(W.TimerKinds()[..1]) == 1 && RecordLen(W.TimerKinds()[..2]) == 9
    ensures RecordLen(W.TimerKinds()[..3]) == 17 && RecordLen(W.TimerKinds()[..4]) == 18 && RecordLen(W.TimerKinds()[..5]) == 22
  {
    var k := W.TimerKinds();
    NextField(k, 0);
    NextField(k, 1);
    NextField(k, 2);
    NextField(k, 3);
    NextField(k, 4);
  }

  lemma {:induction false} IdOffset(i: nat)
    requires i < ID_LEN
    ensures RecordLen(W.TimerKinds()[..5 + i]) == 22 + i
  {
    if i == 0 {
      TimerOffsets();
    } else {
      IdOffset(i - 1);
      NextField(W.TimerKinds(), 4 + i);
    }
  }

  /** One timer, 54 bytes: flags, period, deadline, the owner's code and argument. */
  lemma TimerLayout(t: Timer) returns (b: bytes)
    requires W.TimerTyped(t)
    ensures b == Put(W.TimerKinds(), W.TimerVals(t)) && |b| == 54
    ensures ValueAt(b, 0, 1) == Bit(t.inUse) + 2 * Bit(t.active) + 4 * Bit(t.continuous)
    ensures ValueAt(b, 1, 8) == t.period && ValueAt(b, 9, 8) == t.deadline
    ensures OwnerParts(t.owner).Some?
    ensures ValueAt(b, 17, 1) == OwnerParts(t.owner).value.tag && ValueAt(b, 18, 4) == OwnerParts(t.owner).value.argument
  {
    var k, v := W.TimerKinds(), W.TimerVals(t);
    b := Put(k, v);
    W.TimerRoundTrip(t);
    W.TimerRecordLength();
    TimerOffsets();
    FieldValue(k, v, 0, 0);
    FieldValue(k, v, 1, 1);
    FieldValue(k, v, 2, 9);
    FieldValue(k, v, 3, 17);
    FieldValue(k, v, 4, 18);
  }

  /** And from byte 22 on the name. */
  lemma NameLayout(t: Timer, i: nat) returns (b: bytes)
    requires W.TimerTyped(t) && i < ID_LEN
    ensures b == Put(W.TimerKinds(), W.TimerVals(t)) && |b| == 54 && ValueAt(b, 22 + i, 1) == t.id[i]
  {
    var k, v := W.TimerKinds(), W.TimerVals(t);
    b := Put(k, v);
    W.TimerRoundTrip(t);
    W.TimerRecordLength();
    IdOffset(i);
    FieldValue(k, v, 5 + i, 22 + i);
  }

  /** Timer `i` is the record at `54 * i` of the timers, which stand from byte 72 on. */
  lemma TimerRecordAt(ts: seq<Timer>, i: nat) returns (at: nat)
    requires (forall k :: 0 <= k < |ts| ==> W.TimerTyped(ts[k])) && i < |ts|
    ensures at == 54 * i && at + 54 <= |W.EncodeTimers(ts)|
    ensures W.EncodeTimers(ts)[at..at + 54] == Put(W.TimerKinds(), W.TimerVals(ts[i]))
  {
    W.TimerRecordLength();
    at := RecordAt(W.TimerKinds(), W.TimerRecords(ts), i);
  }

  // ---- The interrupt controllers ----

  lemma {:induction false} ByteRecord(kinds: seq<Kind>, vals: seq<nat>, j: nat)
    requires Conforms(kinds, vals) && j < |kinds| && forall i :: 0 <= i < |kinds| ==> kinds[i] == U8 || kinds[i] == Flag
    ensures |Put(kinds, vals)| == |kinds| && Put(kinds, vals)[j] == vals[j]
    decreases j
  {
    P.ByteWideRecord(kinds);
    assert vals[0] < Limit(kinds[0]);
    if j > 0 {
      forall i | 0 <= i < |kinds| - 1 ensures vals[1..][i] < Limit(kinds[1..][i]) {
        assert vals[i + 1] < Limit(kinds[i + 1]);
      }
      ByteRecord(kinds[1..], vals[1..], j - 1);
    }
  }

  /** A chip, 28 bytes: role, base, modes and automatic EOI first. */
  lemma ChipBase(c: Chip) returns (b: bytes)
    ensures b == Put(P.BASE_KINDS, P.BaseVals(c)) && |b| == 6
    ensures b[0] == Bit(c.master) && b[1] == c.program.offset && b[2] == Bit(c.modes.sfnm)
    ensures b[3] == Bit(c.modes.bufferedMode) && b[4] == Bit(c.modes.masterSlave) && b[5] == Bit(c.autoEoi)
  {
    var k, v := P.BASE_KINDS, P.BaseVals(c);
    P.PartsConform(c);
    b := Put(k, v);
    forall j | 0 <= j < 6 ensures |b| == 6 && b[j] == v[j] {
      ByteRecord(k, v, j);
    }
    ByteRecord(k, v, 0);
  }

  /** From byte 6 the mask, service and request registers, a bit a line, then what is read, latched, lowest, and INT. */
  lemma ChipRegisters(c: Chip) returns (b: bytes)
    ensures b == Put(P.REGISTER_KINDS, P.RegisterVals(c)) && |b| == 7
    ensures Lines(b[0]) == c.imr && Lines(b[1]) == c.isr && Lines(b[2]) == c.irr
    ensures b[3] == Bit(c.modes.readIsr) && b[4] == c.irq && b[5] == c.lowest && b[6] == Bit(c.intPin)
  {
    var k, v := P.REGISTER_KINDS, P.RegisterVals(c);
    P.PartsConform(c);
    b := Put(k, v);
    forall j | 0 <= j < 7 ensures |b| == 7 && b[j] == v[j] {
      ByteRecord(k, v, j);
    }
    ByteRecord(k, v, 0);
    LinesOfByte(c.imr);
    LinesOfByte(c.isr);
    LinesOfByte(c.irr);
  }

  /** From byte 13 the level of each line. */
  lemma ChipLevels(c: Chip) returns (b: bytes)
    ensures b == Put(P.LEVEL_KINDS, P.LevelVals(c.irqIn)) && |b| == 8 && forall i: Line :: b[i] == Bit(i in c.irqIn)
  {
    P.PartsConform(c);
    b := Put(P.LEVEL_KINDS, P.LevelVals(c.irqIn));
    forall i: Line ensures |b| == 8 && b[i] == Bit(i in c.irqIn) {
      ByteRecord(P.LEVEL_KINDS, P.LevelVals(c.irqIn), i);
    }
    ByteRecord(P.LEVEL_KINDS, P.LevelVals(c.irqIn), 0);
  }

  /** From byte 21 the phase of initialization, the modes, and how each line triggers. */
  lemma ChipPhase(c: Chip) returns (b: bytes)
    ensures b == Put(P.PHASE_KINDS, P.PhaseVals(c)) && |b| == 7
    ensures b[0] == Bit(c.program.inInit) && b[1] == Bit(c.program.requires4) && b[2] == c.program.byteExpected
    ensures b[3] == Bit(c.specialMask) && b[4] == Bit(c.modes.polled) && b[5] == Bit(c.modes.rotateOnAutoEoi)
    ensures Lines(b[6]) == c.edgeLevel
  {
    var k, v := P.PHASE_KINDS, P.PhaseVals(c);
    P.PartsConform(c);
    b := Put(k, v);
    forall j | 0 <= j < 7 ensures |b| == 7 && b[j] == v[j] {
      ByteRecord(k, v, j);
    }
    ByteRecord(k, v, 0);
    LinesOfByte(c.edgeLevel);
  }

  lemma ChipParts(c: Chip)
    ensures P.EncodeChip(c) == Put(P.BASE_KINDS, P.BaseVals(c)) +
                               (Put(P.REGISTER_KINDS, P.RegisterVals(c)) +
                                (Put(P.LEVEL_KINDS, P.LevelVals(c.irqIn)) + Put(P.PHASE_KINDS, P.PhaseVals(c))))
    ensures |P.EncodeChip(c)| == 28
  {
    PutJoins(P.LEVEL_KINDS, P.LevelVals(c.irqIn), P.PHASE_KINDS, P.PhaseVals(c));
    PutJoins(P.REGISTER_KINDS, P.RegisterVals(c), P.LEVEL_KINDS + P.PHASE_KINDS, P.LevelVals(c.irqIn) + P.PhaseVals(c));
    PutJoins(P.BASE_KINDS, P.BaseVals(c), P.REGISTER_KINDS + (P.LEVEL_KINDS + P.PHASE_KINDS),
             P.RegisterVals(c) + (P.LevelVals(c.irqIn) + P.PhaseVals(c)));
    P.ChipIs28Bytes();
  }

  lemma PairParts(p: Pair) returns (v: bytes, m: bytes, c: bytes, t: bytes)
    ensures v == LittleEndian(SECTION_VERSION, 4) && m == P.EncodeChip(p.master) && c == P.EncodeChip(p.slave) && t == P.EncodeTail(p)
    ensures P.Encode(p) == v + (m + (c + t)) && |m| == 28 && |c| == 28
  {
    v, m, c, t := LittleEndian(SECTION_VERSION, 4), P.EncodeChip(p.master), P.EncodeChip(p.slave), P.EncodeTail(p);
    var at := FieldBytes([Kind.U32], [SECTION_VERSION], 0);
    var put := Put([Kind.U32], [SECTION_VERSION]);
    assert put[0..4] == put;
    P.ChipIs28Bytes();
  }

  /** The section: version, the master from byte 4, the slave from byte 32, the two pending signals from byte 60. */
  lemma PairLayout(p: Pair) returns (b: bytes)
    ensures b == P.Encode(p) && |b| == 66
    ensures b[0] == 1 && b[1] == b[2] == b[3] == 0 && b[4..32] == P.EncodeChip(p.master) && b[32..60] == P.EncodeChip(p.slave)
    ensures b[60] == Bit(p.irqPending) && b[61] == Bit(p.irqCleared)
  {
    var v, m, c, t := PairParts(p);
    b := v + (m + (c + t));
    TailLayout(p);
    FourPieces(v, m, c, t);
    OneInFour(v);
  }

  lemma OneInFour(v: bytes)
    requires v == LittleEndian(1, 4)
    ensures v[0] == 1 && v[1] == v[2] == v[3] == 0
  {
    DigitAt(1, 4, 0);
    DigitAt(1, 4, 1);
    DigitAt(1, 4, 2);
    DigitAt(1, 4, 3);
  }

  lemma FourPieces(a: bytes, m: bytes, c: bytes, t: bytes)
    requires |a| == 4 && |m| == 28 && |c| == 28 && |t| == 6
    ensures var b := a + (m + (c + t));
            |b| == 66 && b[..4] == a && b[4..32] == m && b[32..60] == c && b[60..] == t && b[60] == t[0] && b[61] == t[1]
            && b[0] == a[0] && b[1] == a[1] && b[2] == a[2] && b[3] == a[3]
  {
  }

  lemma TailLayout(p: Pair)
    ensures var t := P.EncodeTail(p); |t| == 6 && t[0] == Bit(p.irqPending) && t[1] == Bit(p.irqCleared) && ValueAt(t, 2, 4) == 0
  {
    var k, v := P.TAIL_KINDS, [Bit(p.irqPending), Bit(p.irqCleared), 0];
    NextField(k, 0);
    NextField(k, 1);
    NextField(k, 2);
    assert k[..3] == k;
    FieldValue(k, v, 2, 2);
    var i, j := 0, 1;
    i := FieldBytes(k, v, 0);
    j := FieldBytes(k, v, 1);
    var t := P.EncodeTail(p);
    assert t[0] == t[0..1][0] && t[1] == t[1..2][0];
  }

  // ---- Memory ----

  lemma HeaderOffsets()
    ensures RecordLen(M.HEADER_KINDS[..0]) == 0 && RecordLen(M.HEADER_KINDS[..1]) == 4 && RecordLen(M.HEADER_KINDS[..2]) == 12
    ensures RecordLen(M.HEADER_KINDS[..3]) == 20 && RecordLen(M.HEADER_KINDS[..4]) == 28 && RecordLen(M.HEADER_KINDS[..5]) == 32
    ensures RecordLen(M.HEADER_KINDS[..6]) == 36 && RecordLen(M.HEADER_KINDS[..7]) == 40
  {
    NextField(M.HEADER_KINDS, 0);
    NextField(M.HEADER_KINDS, 1);
    NextField(M.HEADER_KINDS, 2);
    NextField(M.HEADER_KINDS, 3);
    NextField(M.HEADER_KINDS, 4);
    NextField(M.HEADER_KINDS, 5);
    NextField(M.HEADER_KINDS, 6);
  }

  /** The geometry of memory: version and the length of guest memory. */
  lemma GeometryLayout(g: M.Geometry, after: bytes) returns (b: bytes)
    requires Conforms(M.HEADER_KINDS, M.HeaderVals(g))
    ensures b == [] + (Put(M.HEADER_KINDS, M.HeaderVals(g)) + after) && 12 <= |b|
    ensures ValueAt(b, 0, 4) == 1 && ValueAt(b, 4, 8) == g.guestLen
  {
    var k, v := M.HEADER_KINDS, M.HeaderVals(g);
    b := [] + (Put(k, v) + after);
    NextField(k, 0);
    FieldInside([], k, v, after, 0, 0);
    FieldInside([], k, v, after, 1, 4);
  }

  /** Then the lengths of host memory and of a block. */
  lemma HostLayout(g: M.Geometry, after: bytes) returns (b: bytes)
    requires Conforms(M.HEADER_KINDS, M.HeaderVals(g))
    ensures b == [] + (Put(M.HEADER_KINDS, M.HeaderVals(g)) + after) && 28 <= |b|
    ensures ValueAt(b, 12, 8) == g.hostRamLen && ValueAt(b, 20, 8) == g.blockSize
  {
    var k, v := M.HEADER_KINDS, M.HeaderVals(g);
    b := [] + (Put(k, v) + after);
    NextField(k, 0);
    NextField(k, 1);
    NextField(k, 2);
    FieldInside([], k, v, after, 2, 12);
    FieldInside([], k, v, after, 3, 20);
  }

  /** Then blocks, slots, slots used and the next to swap out, in four each. */
  lemma BlockCountLayout(g: M.Geometry, after: bytes) returns (b: bytes)
    requires Conforms(M.HEADER_KINDS, M.HeaderVals(g))
    ensures b == [] + (Put(M.HEADER_KINDS, M.HeaderVals(g)) + after) && 44 <= |b|
    ensures ValueAt(b, 28, 4) == g.numBlocks && ValueAt(b, 32, 4) == g.residentCapacity
    ensures ValueAt(b, 36, 4) == g.usedBlocks && ValueAt(b, 40, 4) == g.nextSwapout
  {
    var k, v := M.HEADER_KINDS, M.HeaderVals(g);
    b := [] + (Put(k, v) + after);
    HeaderOffsets();
    FieldInside([], k, v, after, 4, 28);
    FieldInside([], k, v, after, 5, 32);
    FieldInside([], k, v, after, 6, 36);
    FieldInside([], k, v, after, 7, 40);
  }

  /** Where block `k` starts. */
  function BlockStart(blocks: seq<bytes>, k: nat): nat
    requires k <= |blocks|
  {
    if k == 0 then 0 else 5 + |blocks[0]| + BlockStart(blocks[1..], k - 1)
  }

  /** A block stands at `at`: one byte for whether it is resident, its slot in four, or all ones, then its bytes. */
  predicate BlockAt(b: bytes, at: nat, home: M.Residency, block: bytes) {
    && at + 5 + |block| <= |b|
    && ValueAt(b, at, 1) == (if home.Resident? then 1 else 0)
    && ValueAt(b, at + 1, 4) == (if home.Resident? then home.slot else U32_MAX)
    && b[at + 5..at + 5 + |block|] == block
  }

  lemma DescriptorLayout(home: M.Residency) returns (d: bytes)
    requires home.Resident? ==> home.slot < U32_LIMIT
    ensures d == Put(M.DESCRIPTOR_KINDS, M.DescriptorVals(home)) && |d| == 5
    ensures ValueAt(d, 0, 1) == if home.Resident? then 1 else 0
    ensures ValueAt(d, 1, 4) == if home.Resident? then home.slot else U32_MAX
  {
    var k, v := M.DESCRIPTOR_KINDS, M.DescriptorVals(home);
    d := Put(k, v);
    NextField(k, 0);
    NextField(k, 1);
    assert k[..2] == k;
    FieldValue(k, v, 0, 0);
    FieldValue(k, v, 1, 1);
  }

  lemma BlockLayout(home: M.Residency, block: bytes, before: bytes, after: bytes) returns (b: bytes)
    requires home.Resident? ==> home.slot < U32_LIMIT
    ensures b == before + (Put(M.DESCRIPTOR_KINDS, M.DescriptorVals(home)) + (block + after)) && BlockAt(b, |before|, home, block)
  {
    var d := DescriptorLayout(home);
    b := before + (d + (block + after));
    ValueInside(before, d, block + after, 0, 1);
    ValueInside(before, d, block + after, 1, 4);
    BodyInside(before, d, [], block, after);
    assert [] + (block + after) == block + after;
  }

  /** The blocks of memory in order, each after those before it. */
  lemma {:induction false} BlocksLayout(homes: seq<M.Residency>, blocks: seq<bytes>, k: nat, before: bytes) returns (b: bytes, at: nat)
    requires |homes| == |blocks| && k < |blocks| && (homes[k].Resident? ==> homes[k].slot < U32_LIMIT)
    ensures b == before + M.EncodeBlocks(homes, blocks) && at == |before| + BlockStart(blocks, k) && BlockAt(b, at, homes[k], blocks[k])
    decreases k
  {
    var d, rest := Put(M.DESCRIPTOR_KINDS, M.DescriptorVals(homes[0])), M.EncodeBlocks(homes[1..], blocks[1..]);
    if k == 0 {
      b := BlockLayout(homes[0], blocks[0], before, rest);
      at := |before|;
    } else {
      DescriptorLength(homes[0]);
      b, at := BlocksLayout(homes[1..], blocks[1..], k - 1, before + (d + blocks[0]));
      Regroup(d, blocks[0], rest);
      Regroup(before, d + blocks[0], rest);
    }
  }

  lemma DescriptorLength(home: M.Residency)
    ensures |Put(M.DESCRIPTOR_KINDS, M.DescriptorVals(home))| == 5
  {
    var k := M.DESCRIPTOR_KINDS;
    NextField(k, 0);
    NextField(k, 1);
    assert k[..2] == k;
  }

  // ---- Queued fires ----

  lemma FireOffsets()
    ensures RecordLen(W.FIRE_KINDS[..0]) == 0 && RecordLen(W.FIRE_KINDS[..1]) == 1 && RecordLen(W.FIRE_KINDS[..2]) == 5
    ensures RecordLen(W.FIRE_KINDS) == 9
  {
    NextField(W.FIRE_KINDS, 0);
    NextField(W.FIRE_KINDS, 1);
    NextField(W.FIRE_KINDS, 2);
    assert W.FIRE_KINDS[..3] == W.FIRE_KINDS;
  }

  lemma FireLayout(f: Fire) returns (d: bytes)
    requires OnWire(f.owner) && f.count < U32_LIMIT
    ensures d == Put(W.FIRE_KINDS, W.FireVals(f)) && |d| == 9 && OwnerParts(f.owner).Some?
    ensures ValueAt(d, 0, 1) == OwnerParts(f.owner).value.tag && ValueAt(d, 1, 4) == OwnerParts(f.owner).value.argument
    ensures ValueAt(d, 5, 4) == f.count
  {
    d := Put(W.FIRE_KINDS, W.FireVals(f));
    W.FireRoundTrip(f);
    FireOffsets();
    FieldValue(W.FIRE_KINDS, W.FireVals(f), 0, 0);
    FieldValue(W.FIRE_KINDS, W.FireVals(f), 1, 1);
    FieldValue(W.FIRE_KINDS, W.FireVals(f), 2, 5);
  }

  lemma FireRecordAt(fs: seq<Fire>, k: nat) returns (at: nat)
    requires (forall i :: 0 <= i < |fs| ==> OnWire(fs[i].owner)) && k < |fs|
    ensures var all := PutAll(W.FIRE_KINDS, W.FireRecords(fs));
            at == 9 * k && at + 9 <= |all| && all[at..at + 9] == Put(W.FIRE_KINDS, W.FireVals(fs[k]))
  {
    FireOffsets();
    at := RecordAt(W.FIRE_KINDS, W.FireRecords(fs), k);
  }

  lemma CountFirst(n: nat, all: bytes) returns (b: bytes)
    requires n < U32_LIMIT
    ensures b == Put([Kind.U32], [n]) + all && |b| == 4 + |all| && ValueAt(b, 0, 4) == n && b[4..] == all
  {
    var c := Put([Kind.U32], [n]);
    FieldValue([Kind.U32], [n], 0, 0);
    NextField([Kind.U32], 0);
    assert [Kind.U32][..1] == [Kind.U32];
    ValueAtFront(c, all, 0, 4);
    b := c + all;
  }

  lemma PlaceAfter(b: bytes, all: bytes, r: nat, d: bytes) returns (at: nat)
    requires |b| == 4 + |all| && b[4..] == all && r + |d| <= |all| && all[r..r + |d|] == d
    ensures at == 4 + r && at + |d| <= |b| && b[at..at + |d|] == d
  {
    at := 4 + r;
    assert b[at..at + |d|] == b[4..][r..r + |d|];
  }

  lemma FirePlace(fs: seq<Fire>, k: nat, d: bytes) returns (b: bytes, at: nat)
    requires (forall i :: 0 <= i < |fs| ==> OnWire(fs[i].owner)) && k < |fs| < U32_LIMIT
    requires d == Put(W.FIRE_KINDS, W.FireVals(fs[k])) && |d| == 9
    ensures b == W.EncodeQueue(fs) && at == 4 + 9 * k && at + 9 <= |b| && ValueAt(b, 0, 4) == |fs| && d == b[at..at + 9]
  {
    var all := PutAll(W.FIRE_KINDS, W.FireRecords(fs));
    var r := FireRecordAt(fs, k);
    b := CountFirst(|fs|, all);
    at := PlaceAfter(b, all, r, d);
  }

  /** The queue: how many, then nine bytes each, in order. */
  lemma QueueLayout(fs: seq<Fire>, k: nat) returns (b: bytes, at: nat, d: bytes)
    requires (forall i :: 0 <= i < |fs| ==> OnWire(fs[i].owner)) && k < |fs| < U32_LIMIT && fs[k].count < U32_LIMIT
    ensures b == W.EncodeQueue(fs) && at == 4 + 9 * k && at + 9 <= |b| && ValueAt(b, 0, 4) == |fs| && d == b[at..at + 9]
    ensures OwnerParts(fs[k].owner).Some?
    ensures ValueAt(d, 0, 1) == OwnerParts(fs[k].owner).value.tag && ValueAt(d, 1, 4) == OwnerParts(fs[k].owner).value.argument
    ensures ValueAt(d, 5, 4) == fs[k].count
  {
    d := FireLayout(fs[k]);
    b, at := FirePlace(fs, k, d);
  }
}
