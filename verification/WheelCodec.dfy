/**
 The PC-system payload, byte for byte (`rusty_box/src/pc_system.rs`, lines
 1476-1680).
 */
module WheelCodec {
  import opened Base
  import opened TimerTypes
  import opened TimerWire
  import opened Wire
  import opened Wheel
  import opened WheelSnapshot

  // ---- One timer slot: flags, period, deadline, owner, identifier ----

  function U8s(n: nat): (k: seq<Kind>)
    ensures |k| == n && forall i :: 0 <= i < n ==> k[i] == U8
  {
    seq(n, _ => U8)
  }

  const TIMER_HEAD: seq<Kind> := [U8, Kind.U64, Kind.U64, U8, Kind.U32]

  function TimerKinds(): (k: seq<Kind>)
    ensures |k| == 5 + ID_LEN
    ensures forall i :: 0 <= i < |k| ==> k[i] == if i < 5 then TIMER_HEAD[i] else U8
  {
    TIMER_HEAD + U8s(ID_LEN)
  }

  function FlagBits(t: Timer): nat {
    (if t.inUse then 1 else 0) + (if t.active then 2 else 0) + (if t.continuous then 4 else 0)
  }

  function TimerVals(t: Timer): (v: seq<nat>)
    requires OnWire(t.owner) && |t.id| == ID_LEN
    ensures |v| == 5 + ID_LEN
  {
    var o := OwnerParts(t.owner).value;
    [FlagBits(t), t.period, t.deadline, o.tag, o.argument] + seq(ID_LEN, i requires 0 <= i < ID_LEN => t.id[i] as nat)
  }

  function TimerFromVals(v: seq<nat>): Option<Timer>
    requires Conforms(TimerKinds(), v)
  {
    assert v[3] < Limit(TimerKinds()[3]) && v[4] < Limit(TimerKinds()[4]);
    if v[0] >= 8 then None
    else
      match OwnerFromParts(OwnerWire(v[3], v[4]))
      case None => None
      case Some(owner) =>
        Some(Timer(v[0] % 2 == 1, v[0] / 2 % 2 == 1, v[0] / 4 == 1, v[1], v[2], owner,
                   seq(ID_LEN, i requires 0 <= i < ID_LEN =>
                     assert v[5 + i] < Limit(TimerKinds()[5 + i]); v[5 + i])))
  }

  ghost predicate TimerTyped(t: Timer) {
    OnWire(t.owner) && |t.id| == ID_LEN && t.period < U64_LIMIT && t.deadline < U64_LIMIT
  }

  lemma TimerRoundTrip(t: Timer)
    requires TimerTyped(t)
    ensures Conforms(TimerKinds(), TimerVals(t)) && TimerFromVals(TimerVals(t)) == Some(t)
  {
    var v := TimerVals(t);
    OwnerWireBijection(t.owner, OwnerParts(t.owner).value);
    forall i | 0 <= i < |v| ensures v[i] < Limit(TimerKinds()[i]) {
    }
    assert TimerFromVals(v).value.id == t.id;
  }

  lemma TimerCanonical(v: seq<nat>)
    requires Conforms(TimerKinds(), v) && TimerFromVals(v).Some?
    ensures TimerTyped(TimerFromVals(v).value) && TimerVals(TimerFromVals(v).value) == v
  {
    var t := TimerFromVals(v).value;
    assert v[1] < Limit(TimerKinds()[1]) && v[2] < Limit(TimerKinds()[2]);
    assert v[3] < Limit(TimerKinds()[3]) && v[4] < Limit(TimerKinds()[4]);
    OwnerWireBijection(t.owner, OwnerWire(v[3], v[4]));
    assert FlagBits(t) == v[0];
    forall i | 5 <= i < |v| ensures TimerVals(t)[i] == v[i] {
      assert v[i] < Limit(TimerKinds()[i]);
    }
  }

  // ---- One queued fire ----

  const FIRE_KINDS: seq<Kind> := [U8, Kind.U32, Kind.U32]

  function FireVals(f: Fire): (v: seq<nat>)
    requires OnWire(f.owner)
    ensures |v| == 3
  {
    var o := OwnerParts(f.owner).value;
    [o.tag, o.argument, f.count]
  }

  function FireFromVals(v: seq<nat>): Option<Fire>
    requires Conforms(FIRE_KINDS, v)
  {
    assert v[0] < Limit(FIRE_KINDS[0]) && v[1] < Limit(FIRE_KINDS[1]);
    match OwnerFromParts(OwnerWire(v[0], v[1]))
    case None => None
    case Some(owner) => Some(Fire(owner, v[2]))
  }

  lemma FireRoundTrip(f: Fire)
    requires OnWire(f.owner) && f.count < U32_LIMIT
    ensures Conforms(FIRE_KINDS, FireVals(f)) && FireFromVals(FireVals(f)) == Some(f)
  {
    OwnerWireBijection(f.owner, OwnerParts(f.owner).value);
  }

  lemma FireCanonical(v: seq<nat>)
    requires Conforms(FIRE_KINDS, v) && FireFromVals(v).Some?
    ensures var f := FireFromVals(v).value; OnWire(f.owner) && f.count < U32_LIMIT && FireVals(f) == v
  {
    var f := FireFromVals(v).value;
    assert v[0] < Limit(FIRE_KINDS[0]) && v[1] < Limit(FIRE_KINDS[1]) && v[2] < Limit(FIRE_KINDS[2]);
    OwnerWireBijection(f.owner, OwnerWire(v[0], v[1]));
  }

  // ---- The fixed part: clock, lines, counts ----

  const CLOCK_KINDS: seq<Kind> := [Kind.U32, Kind.U64, Kind.U32, Kind.U32, Kind.U64, Kind.U64, Kind.U64]
  const LINE_KINDS: seq<Kind> := [Flag, Kind.U64, Flag, Flag, Flag, Flag, Flag, Flag, U8]
  const COUNT_KINDS: seq<Kind> := [Kind.U32, Kind.U32, Kind.U32]

  function ResetCode(r: Option<ResetReason>): nat {
    match r
    case None => 0
    case Some(SoftwareReset) => 1
    case Some(HardwareReset) => 2
  }

  function ResetFromCode(n: nat): Option<ResetReason> {
    if n == 1 then Some(SoftwareReset) else if n == 2 then Some(HardwareReset) else None
  }

  function ClockVals(w: State): (v: seq<nat>)
    ensures |v| == 7
  {
    [SECTION_VERSION, w.ips, w.countdown, w.period, w.ticksTotal, w.board.lastTimeUsec, w.board.usecSinceLast]
  }

  function LineVals(b: Board): (v: seq<nat>)
    ensures |v| == 9
  {
    [Bit(b.enableA20), b.a20Mask, Bit(b.hrq), Bit(b.hrqPending), Bit(b.asyncEventPending), Bit(b.intrRaised),
     Bit(b.intrCleared), Bit(b.killRequest), ResetCode(b.resetRequest)]
  }

  function CountVals(w: State): (v: seq<nat>)
    ensures |v| == 3
  {
    [MAX_TIMERS, w.numTimers, w.triggered]
  }

  function BoardFrom(c: seq<nat>, v: seq<nat>): Board
    requires Conforms(CLOCK_KINDS, c) && Conforms(LINE_KINDS, v)
  {
    assert c[5] < Limit(CLOCK_KINDS[5]) && c[6] < Limit(CLOCK_KINDS[6]) && v[1] < Limit(LINE_KINDS[1]);
    Board(c[5], c[6], v[0] == 1, v[1], v[2] == 1, v[3] == 1, v[4] == 1, v[5] == 1, v[6] == 1, v[7] == 1,
          ResetFromCode(v[8]))
  }

  function StateFrom(c: seq<nat>, board: Board, n: seq<nat>, timers: seq<Timer>, fired: seq<Fire>): State
    requires |c| == 7 && |n| == 3
  {
    State(timers, n[1], n[2], c[2], c[3], c[4], fired, c[1], board)
  }

  lemma LinesRoundTrip(b: Board, c: seq<nat>)
    requires Conforms(CLOCK_KINDS, c) && c[5] == b.lastTimeUsec && c[6] == b.usecSinceLast
    requires Conforms(LINE_KINDS, LineVals(b))
    ensures BoardFrom(c, LineVals(b)) == b
  {
  }

  lemma LinesConform(b: Board)
    ensures Conforms(LINE_KINDS, LineVals(b))
  {
    var v := LineVals(b);
    assert v[8] <= 2 && v[1] < U64_LIMIT;
    forall i | 0 <= i < 8 && i != 1 ensures v[i] < 2 {
    }
  }

  lemma LinesCanonical(c: seq<nat>, v: seq<nat>)
    requires Conforms(CLOCK_KINDS, c) && Conforms(LINE_KINDS, v) && v[8] <= 2
    ensures LineVals(BoardFrom(c, v)) == v
  {
    forall i | 0 <= i < 8 && i != 1 ensures v[i] < 2 {
      assert v[i] < Limit(LINE_KINDS[i]);
    }
  }

  // ---- The payload ----

  ghost predicate Encodable(w: State) {
    && |w.timers| == MAX_TIMERS
    && (forall i :: 0 <= i < MAX_TIMERS ==> TimerTyped(w.timers[i]))
    && (forall k :: 0 <= k < |w.fired| ==> OnWire(w.fired[k].owner) && w.fired[k].count < U32_LIMIT)
  }

  lemma ValidatedIsEncodable(w: State)
    requires Typed(w) && Validates(w)
    ensures Encodable(w)
  {
    forall i | 0 <= i < MAX_TIMERS ensures TimerTyped(w.timers[i]) {
      assert SlotValidates(w, i);
    }
    forall k | 0 <= k < |w.fired| ensures OnWire(w.fired[k].owner) {
      assert FireValidates(w, k);
    }
  }

  function TimerRecords(ts: seq<Timer>): (r: seq<seq<nat>>)
    requires forall i :: 0 <= i < |ts| ==> TimerTyped(ts[i])
    ensures |r| == |ts| && forall i :: 0 <= i < |r| ==>
              TimerTyped(ts[i]) && |r[i]| == 5 + ID_LEN && r[i] == TimerVals(ts[i])
  {
    seq(|ts|, i requires 0 <= i < |ts| => assert TimerTyped(ts[i]); TimerVals(ts[i]))
  }

  function FireRecords(fs: seq<Fire>): (r: seq<seq<nat>>)
    requires forall k :: 0 <= k < |fs| ==> OnWire(fs[k].owner)
    ensures |r| == |fs| && forall i :: 0 <= i < |r| ==> |r[i]| == 3 && r[i] == FireVals(fs[i])
  {
    seq(|fs|, i requires 0 <= i < |fs| => FireVals(fs[i]))
  }

  function EncodeQueue(fs: seq<Fire>): bytes
    requires forall k :: 0 <= k < |fs| ==> OnWire(fs[k].owner)
  {
    Put([Kind.U32], [|fs|]) + PutAll(FIRE_KINDS, FireRecords(fs))
  }

  function EncodeTimers(ts: seq<Timer>): bytes
    requires forall i :: 0 <= i < |ts| ==> TimerTyped(ts[i])
  {
    PutAll(TimerKinds(), TimerRecords(ts))
  }

  function FixedKinds(): (k: seq<Kind>)
    ensures |k| == 19
  {
    CLOCK_KINDS + (LINE_KINDS + COUNT_KINDS)
  }

  function FixedVals(w: State): (v: seq<nat>)
    ensures |v| == 19
  {
    ClockVals(w) + (LineVals(w.board) + CountVals(w))
  }

  /** What `save` writes. */
  function Encode(w: State): bytes
    requires Encodable(w)
  {
    Put(FixedKinds(), FixedVals(w)) + (EncodeTimers(w.timers) + EncodeQueue(w.fired))
  }

  function AllTimers(r: seq<seq<nat>>): (ts: Option<seq<Timer>>)
    requires forall i :: 0 <= i < |r| ==> Conforms(TimerKinds(), r[i])
    ensures ts.Some? ==> |ts.value| == |r| && forall i :: 0 <= i < |r| ==> TimerFromVals(r[i]) == Some(ts.value[i])
  {
    if forall i :: 0 <= i < |r| ==> TimerFromVals(r[i]).Some? then
      Some(seq(|r|, i requires 0 <= i < |r| => TimerFromVals(r[i]).value))
    else None
  }

  function AllFires(r: seq<seq<nat>>): (fs: Option<seq<Fire>>)
    requires forall i :: 0 <= i < |r| ==> Conforms(FIRE_KINDS, r[i])
    ensures fs.Some? ==> |fs.value| == |r| && forall i :: 0 <= i < |r| ==> FireFromVals(r[i]) == Some(fs.value[i])
  {
    if forall i :: 0 <= i < |r| ==> FireFromVals(r[i]).Some? then
      Some(seq(|r|, i requires 0 <= i < |r| => FireFromVals(r[i]).value))
    else None
  }

  function DecodeTimers(s: bytes): Option<Parsed<seq<Timer>>> {
    var p :- GetAll(TimerKinds(), MAX_TIMERS, s);
    WritesAllRead(TimerKinds(), MAX_TIMERS, s);
    var ts :- AllTimers(p.value);
    Some(Parsed(ts, p.rest))
  }

  function DecodeQueue(s: bytes): Option<Parsed<seq<Fire>>> {
    var n :- Get([Kind.U32], s);
    if n.value[0] > MAX_TIMERS then None
    else
      var p :- GetAll(FIRE_KINDS, n.value[0], n.rest);
      WritesAllRead(FIRE_KINDS, n.value[0], n.rest);
      var fs :- AllFires(p.value);
      Some(Parsed(fs, p.rest))
  }

  predicate FixedPartAccepted(ips: nat, v: seq<nat>)
    requires |v| == 19
  {
    && v[0] == SECTION_VERSION && v[1] != 0 && v[1] == ips && v[15] <= 2
    && v[16] == MAX_TIMERS && v[17] <= MAX_TIMERS && v[18] <= MAX_TIMERS - 1
  }

  lemma FixedSplit(v: seq<nat>)
    requires Conforms(FixedKinds(), v)
    ensures Conforms(CLOCK_KINDS, v[..7]) && Conforms(LINE_KINDS, v[7..16]) && Conforms(COUNT_KINDS, v[16..])
  {
    ConformsSplit(CLOCK_KINDS, LINE_KINDS + COUNT_KINDS, v);
    ConformsSplit(LINE_KINDS, COUNT_KINDS, v[7..]);
    assert v[7..][..9] == v[7..16] && v[7..][9..] == v[16..];
  }

  function StateFromFixed(v: seq<nat>, timers: seq<Timer>, fired: seq<Fire>): State
    requires Conforms(FixedKinds(), v)
  {
    FixedSplit(v);
    StateFrom(v[..7], BoardFrom(v[..7], v[7..16]), v[16..], timers, fired)
  }

  lemma FixedRoundTrip(w: State)
    requires Typed(w) && w.numTimers <= MAX_TIMERS && w.triggered < MAX_TIMERS && w.ips != 0
    ensures Conforms(FixedKinds(), FixedVals(w)) && FixedPartAccepted(w.ips, FixedVals(w))
    ensures StateFromFixed(FixedVals(w), w.timers, w.fired) == w
  {
    var v := FixedVals(w);
    LinesConform(w.board);
    assert Conforms(CLOCK_KINDS, ClockVals(w));
    ConformsJoin(LINE_KINDS, LineVals(w.board), COUNT_KINDS, CountVals(w));
    ConformsJoin(CLOCK_KINDS, ClockVals(w), LINE_KINDS + COUNT_KINDS, LineVals(w.board) + CountVals(w));
    assert v[..7] == ClockVals(w) && v[7..16] == LineVals(w.board) && v[16..] == CountVals(w);
    assert v[15] == LineVals(w.board)[8] && v[16] == CountVals(w)[0] && v[17] == CountVals(w)[1];
    LinesRoundTrip(w.board, ClockVals(w));
  }

  lemma FixedCanonical(ips: nat, v: seq<nat>, timers: seq<Timer>, fired: seq<Fire>)
    requires Conforms(FixedKinds(), v) && FixedPartAccepted(ips, v)
    ensures FixedVals(StateFromFixed(v, timers, fired)) == v
    ensures StateFromFixed(v, timers, fired).ips == ips
  {
    var w := StateFromFixed(v, timers, fired);
    FixedSplit(v);
    LinesCanonical(v[..7], v[7..16]);
    assert ClockVals(w) == v[..7];
    assert CountVals(w) == v[16..];
    assert v == v[..7] + (v[7..16] + v[16..]);
  }

  lemma FixedTyped(ips: nat, v: seq<nat>, timers: seq<Timer>, fired: seq<Fire>)
    requires Conforms(FixedKinds(), v) && |timers| == MAX_TIMERS
    requires forall i :: 0 <= i < MAX_TIMERS ==> TimerTyped(timers[i])
    requires forall k :: 0 <= k < |fired| ==> fired[k].count < U32_LIMIT
    ensures Typed(StateFromFixed(v, timers, fired))
  {
    FixedSplit(v);
    var c := v[..7];
    assert c[1] < Limit(CLOCK_KINDS[1]) && c[2] < Limit(CLOCK_KINDS[2]) && c[3] < Limit(CLOCK_KINDS[3]) &&
           c[4] < Limit(CLOCK_KINDS[4]);
    forall i | 0 <= i < MAX_TIMERS
      ensures timers[i].period < U64_LIMIT && timers[i].deadline < U64_LIMIT && |timers[i].id| == ID_LEN
    {
      assert TimerTyped(timers[i]);
    }
  }

  /** What `restore` makes of a payload on a machine running at `ips`; nothing if it refuses. */
  function Decode(ips: nat, s: bytes): Option<Parsed<State>> {
    var f :- Get(FixedKinds(), s);
    var ts :- DecodeTimers(f.rest);
    var fs :- DecodeQueue(ts.rest);
    if !FixedPartAccepted(ips, f.value) then None
    else
      WritesWhatWasRead(FixedKinds(), s);
      var w := StateFromFixed(f.value, ts.value, fs.value);
      if Validates(w) then Some(Parsed(w, fs.rest)) else None
  }

  lemma AllTimersAre(r: seq<seq<nat>>, ts: seq<Timer>)
    requires |r| == |ts| && forall i :: 0 <= i < |r| ==> Conforms(TimerKinds(), r[i]) && TimerFromVals(r[i]) == Some(ts[i])
    ensures AllTimers(r) == Some(ts)
  {
    assert AllTimers(r).value == ts;
  }

  lemma RecordsRoundTrip(ts: seq<Timer>) returns (r: seq<seq<nat>>)
    requires forall i :: 0 <= i < |ts| ==> TimerTyped(ts[i])
    ensures r == TimerRecords(ts) && |r| == |ts| && forall i :: 0 <= i < |r| ==> Conforms(TimerKinds(), r[i])
    ensures AllTimers(r) == Some(ts)
  {
    r := TimerRecords(ts);
    forall i | 0 <= i < |r| ensures Conforms(TimerKinds(), r[i]) && TimerFromVals(r[i]) == Some(ts[i]) {
      TimerRoundTrip(ts[i]);
    }
    AllTimersAre(r, ts);
  }

  lemma TimersRoundTrip(ts: seq<Timer>, rest: bytes)
    requires |ts| == MAX_TIMERS && forall i :: 0 <= i < |ts| ==> TimerTyped(ts[i])
    ensures DecodeTimers(EncodeTimers(ts) + rest) == Some(Parsed(ts, rest))
  {
    var r := RecordsRoundTrip(ts);
    ReadsAllWritten(TimerKinds(), r, rest);
    assert EncodeTimers(ts) == PutAll(TimerKinds(), r);
  }

  lemma QueueRoundTrip(fs: seq<Fire>, rest: bytes)
    requires |fs| <= MAX_TIMERS && forall k :: 0 <= k < |fs| ==> OnWire(fs[k].owner) && fs[k].count < U32_LIMIT
    ensures DecodeQueue(EncodeQueue(fs) + rest) == Some(Parsed(fs, rest))
  {
    var r := FireRecords(fs);
    forall i | 0 <= i < |r| ensures Conforms(FIRE_KINDS, r[i]) && FireFromVals(r[i]) == Some(fs[i]) {
      FireRoundTrip(fs[i]);
    }
    Regroup(Put([Kind.U32], [|fs|]), PutAll(FIRE_KINDS, r), rest);
    ReadsWhatWasWritten([Kind.U32], [|fs|], PutAll(FIRE_KINDS, r) + rest);
    ReadsAllWritten(FIRE_KINDS, r, rest);
    assert AllFires(r).value == fs;
  }

  /** Saving any valid state and restoring it at the same rate gives that state back, bytes left over untouched. */
  lemma SaveThenRestore(w: State, rest: bytes)
    requires Typed(w) && Validates(w)
    ensures Encodable(w) && Decode(w.ips, Encode(w) + rest) == Some(Parsed(w, rest))
  {
    ValidatedIsEncodable(w);
    var q := EncodeQueue(w.fired) + rest;
    var t := EncodeTimers(w.timers) + q;
    Regroup(EncodeTimers(w.timers), EncodeQueue(w.fired), rest);
    Regroup(Put(FixedKinds(), FixedVals(w)), EncodeTimers(w.timers) + EncodeQueue(w.fired), rest);
    FixedRoundTrip(w);
    ReadsWhatWasWritten(FixedKinds(), FixedVals(w), t);
    TimersRoundTrip(w.timers, q);
    QueueRoundTrip(w.fired, rest);
  }

  lemma TimersCanonical(s: bytes)
    requires DecodeTimers(s).Some?
    ensures var p := DecodeTimers(s).value;
            && |p.value| == MAX_TIMERS
            && (forall i :: 0 <= i < MAX_TIMERS ==> TimerTyped(p.value[i]))
            && s == EncodeTimers(p.value) + p.rest
  {
    WritesAllRead(TimerKinds(), MAX_TIMERS, s);
    var g := GetAll(TimerKinds(), MAX_TIMERS, s).value;
    var p := DecodeTimers(s).value;
    forall i | 0 <= i < MAX_TIMERS ensures TimerTyped(p.value[i]) && TimerVals(p.value[i]) == g.value[i] {
      TimerCanonical(g.value[i]);
    }
    assert TimerRecords(p.value) == g.value;
  }

  lemma QueueCanonical(s: bytes)
    requires DecodeQueue(s).Some?
    ensures var p := DecodeQueue(s).value;
            && |p.value| <= MAX_TIMERS
            && (forall k :: 0 <= k < |p.value| ==> OnWire(p.value[k].owner) && p.value[k].count < U32_LIMIT)
            && s == EncodeQueue(p.value) + p.rest
  {
    var n := Get([Kind.U32], s).value;
    WritesWhatWasRead([Kind.U32], s);
    WritesAllRead(FIRE_KINDS, n.value[0], n.rest);
    var g := GetAll(FIRE_KINDS, n.value[0], n.rest).value;
    var p := DecodeQueue(s).value;
    forall i | 0 <= i < |p.value|
      ensures OnWire(p.value[i].owner) && p.value[i].count < U32_LIMIT && FireVals(p.value[i]) == g.value[i]
    {
      FireCanonical(g.value[i]);
    }
    assert FireRecords(p.value) == g.value;
    assert n.value == [|p.value|];
    Regroup(Put([Kind.U32], n.value), PutAll(FIRE_KINDS, g.value), p.rest);
  }

  /** The other way: whatever is accepted is a valid state, and exactly the bytes saving it would write. */
  lemma RestoreThenSave(ips: nat, s: bytes)
    requires Decode(ips, s).Some?
    ensures var p := Decode(ips, s).value;
            && Typed(p.value) && Validates(p.value) && p.value.ips == ips
            && Encodable(p.value) && s == Encode(p.value) + p.rest
  {
    var f := Get(FixedKinds(), s).value;
    var ts := DecodeTimers(f.rest).value;
    var fs := DecodeQueue(ts.rest).value;
    WritesWhatWasRead(FixedKinds(), s);
    TimersCanonical(f.rest);
    QueueCanonical(ts.rest);
    FixedCanonical(ips, f.value, ts.value, fs.value);
    FixedTyped(ips, f.value, ts.value, fs.value);
    Regroup(EncodeTimers(ts.value), EncodeQueue(fs.value), fs.rest);
    Regroup(Put(FixedKinds(), f.value), EncodeTimers(ts.value) + EncodeQueue(fs.value), fs.rest);
  }

  // ---- The declared length ----

  /** `snapshot_len`. */
  function SnapshotLen(fires: nat): nat {
    72 + 54 * MAX_TIMERS + 4 + 9 * fires
  }

  lemma {:induction false} RecordLenOfBytes(n: nat)
    ensures RecordLen(U8s(n)) == n
  {
    if n > 0 {
      assert U8s(n)[1..] == U8s(n - 1);
      RecordLenOfBytes(n - 1);
    }
  }

  lemma TimersLength(ts: seq<Timer>)
    requires forall i :: 0 <= i < |ts| ==> TimerTyped(ts[i])
    ensures |EncodeTimers(ts)| == 54 * |ts|
  {
    TimerRecordLength();
    PutAllLength(TimerKinds(), TimerRecords(ts));
  }

  lemma QueueLength(fs: seq<Fire>)
    requires forall k :: 0 <= k < |fs| ==> OnWire(fs[k].owner)
    ensures |EncodeQueue(fs)| == 4 + 9 * |fs|
  {
    RecordLenOfThree(U8, Kind.U32, Kind.U32);
    PutAllLength(FIRE_KINDS, FireRecords(fs));
    assert RecordLen([Kind.U32]) == 4;
  }

  lemma PayloadLength(w: State)
    requires Encodable(w)
    ensures |Encode(w)| == SnapshotLen(|w.fired|)
  {
    FixedRecordLength();
    TimersLength(w.timers);
    QueueLength(w.fired);
  }

  lemma TimerRecordLength()
    ensures RecordLen(TimerKinds()) == 54
  {
    RecordLenOfBytes(ID_LEN);
    RecordLenAdds(TIMER_HEAD, U8s(ID_LEN));
    RecordLenOfThree(U8, Kind.U64, Kind.U64);
    RecordLenAdds([U8, Kind.U64, Kind.U64], [U8] + [Kind.U32]);
    RecordLenAdds([U8], [Kind.U32]);
    assert TIMER_HEAD == [U8, Kind.U64, Kind.U64] + ([U8] + [Kind.U32]);
  }

  lemma RecordLenOfThree(a: Kind, b: Kind, c: Kind)
    ensures RecordLen([a, b, c]) == Width(a) + Width(b) + Width(c)
  {
    assert [a, b, c] == [a] + ([b] + [c]);
    RecordLenAdds([a], [b] + [c]);
    RecordLenAdds([b], [c]);
  }

  lemma RecordLenJoins(a: seq<Kind>, b: seq<Kind>, c: seq<Kind>)
    ensures RecordLen(a + (b + c)) == RecordLen(a) + RecordLen(b) + RecordLen(c)
  {
    RecordLenAdds(a, b + c);
    RecordLenAdds(b, c);
  }

  lemma ClockLength()
    ensures RecordLen(CLOCK_KINDS) == 44
  {
    assert CLOCK_KINDS == [Kind.U32, Kind.U64, Kind.U32] + ([Kind.U32, Kind.U64, Kind.U64] + [Kind.U64]);
    RecordLenJoins([Kind.U32, Kind.U64, Kind.U32], [Kind.U32, Kind.U64, Kind.U64], [Kind.U64]);
    RecordLenOfThree(Kind.U32, Kind.U64, Kind.U32);
    RecordLenOfThree(Kind.U32, Kind.U64, Kind.U64);
  }

  lemma LineLength()
    ensures RecordLen(LINE_KINDS) == 16
  {
    assert LINE_KINDS == [Flag, Kind.U64, Flag] + ([Flag, Flag, Flag] + [Flag, Flag, U8]);
    RecordLenJoins([Flag, Kind.U64, Flag], [Flag, Flag, Flag], [Flag, Flag, U8]);
    RecordLenOfThree(Flag, Kind.U64, Flag);
    RecordLenOfThree(Flag, Flag, Flag);
    RecordLenOfThree(Flag, Flag, U8);
  }

  lemma FixedRecordLength()
    ensures RecordLen(FixedKinds()) == 72
  {
    ClockLength();
    LineLength();
    RecordLenOfThree(Kind.U32, Kind.U32, Kind.U32);
    RecordLenJoins(CLOCK_KINDS, LINE_KINDS, COUNT_KINDS);
  }
}
