/**
 The snapshot container (`rusty_box/src/snapshot.rs`): a header, then sections framed
 by identity and exact length. Sections of unknown identity are skipped; known ones
 must come once each, in one order.
 */
module Container {
  import opened Base
  import opened Wire

  const MAGIC: bytes := [82, 66, 88, 83, 78, 65, 80, 49]
  const CONTAINER_VERSION: nat := 11
  const MAX_SECTION_LEN: nat := 4 * 1024 * 1024 * 1024
  const MAX_COUNT: nat := 0x10_0000

  const SEC_MEMORY: nat := 10
  /** Memory, PC system, platform, CPU, PIC, PIT, CMOS, DMA, keyboard, serial, disks, PCI, ACPI, VGA, IOAPIC, LAPIC, HPET. */
  const ORDER: seq<nat> := [10, 30, 33, 1, 20, 21, 22, 23, 25, 26, 27, 31, 32, 24, 28, 29, 34]

  datatype Section = Section(id: nat, body: bytes)

  /**
   A section decoder: given the bodies restored before it and the bytes its bounded
   reader can reach, how many it consumes, or nothing if it refuses them. Which
   section it decodes is how many came before. It cannot consume what it cannot reach.
   */
  type Decoder = d: (seq<bytes>, bytes) -> Option<nat> |
    forall done, window :: d(done, window).Some? ==> d(done, window).value <= |window|
    witness (_, _) => None

  function SectionLimit(memoryLen: nat, id: nat): nat {
    if id == SEC_MEMORY then memoryLen else MAX_SECTION_LEN
  }

  // ---- Writing ----

  function PrintSection(s: Section): bytes {
    LittleEndian(s.id, 4) + (LittleEndian(|s.body|, 8) + s.body)
  }

  function PrintAll(secs: seq<Section>): bytes {
    if secs == [] then [] else PrintSection(secs[0]) + PrintAll(secs[1..])
  }

  function Header(count: nat): bytes {
    MAGIC + (LittleEndian(CONTAINER_VERSION, 4) + LittleEndian(count, 4))
  }

  function Print(secs: seq<Section>): bytes {
    Header(|secs|) + PrintAll(secs)
  }

  // ---- What a stream has to be ----

  predicate IsKnown(id: nat) {
    id in ORDER
  }

  function Known(secs: seq<Section>): seq<Section> {
    if secs == [] then []
    else if IsKnown(secs[0].id) then [secs[0]] + Known(secs[1..])
    else Known(secs[1..])
  }

  function Bodies(secs: seq<Section>): (b: seq<bytes>)
    ensures |b| == |secs| && forall i :: 0 <= i < |b| ==> b[i] == secs[i].body
  {
    seq(|secs|, i requires 0 <= i < |secs| => secs[i].body)
  }

  /**
   Starting at position `k` of the order with `done` restored: the known sections are
   the rest of the order, each body bounded and consumed exactly by its decoder.
   */
  ghost predicate AcceptableFrom(dec: Decoder, memoryLen: nat, secs: seq<Section>, k: nat, done: seq<bytes>) {
    && k <= |ORDER|
    && (forall i :: 0 <= i < |secs| ==>
          secs[i].id < U32_LIMIT && |secs[i].body| < U64_LIMIT && |secs[i].body| <= SectionLimit(memoryLen, secs[i].id))
    && var known := Known(secs);
       && |known| == |ORDER| - k
       && (forall i :: 0 <= i < |known| ==> known[i].id == ORDER[k + i])
       && (forall i :: 0 <= i < |known| ==> dec(done + Bodies(known[..i]), known[i].body) == Some(|known[i].body|))
  }

  /** The same, section by section. */
  ghost predicate Follows(dec: Decoder, memoryLen: nat, secs: seq<Section>, done: seq<bytes>)
    decreases |secs|
  {
    if secs == [] then |done| == |ORDER|
    else
      var h := secs[0];
      && h.id < U32_LIMIT && |h.body| < U64_LIMIT
      && if IsKnown(h.id) then
           && |done| < |ORDER| && h.id == ORDER[|done|] && |h.body| <= SectionLimit(memoryLen, h.id)
           && dec(done, h.body) == Some(|h.body|) && Follows(dec, memoryLen, secs[1..], done + [h.body])
         else |h.body| <= MAX_SECTION_LEN && Follows(dec, memoryLen, secs[1..], done)
  }

  function Gathered(secs: seq<Section>, done: seq<bytes>): seq<bytes>
    decreases |secs|
  {
    if secs == [] then done
    else Gathered(secs[1..], if IsKnown(secs[0].id) then done + [secs[0].body] else done)
  }

  // ---- Reading ----

  datatype Frame = Frame(id: nat, len: nat, rest: bytes)

  function ReadFrame(s: bytes): Option<Frame> {
    if |s| < 12 then None
    else Some(Frame(FromLittleEndian(s[..4]), FromLittleEndian(s[4..12]), s[12..]))
  }

  datatype Loaded = Loaded(bodies: seq<bytes>, rest: bytes)

  function Window(s: bytes, len: nat): bytes {
    if |s| < len then s else s[..len]
  }

  datatype Progress = Progress(done: seq<bytes>, rest: bytes)

  /** One turn of the section loop of `restore_snapshot_inner`. */
  function Turn(dec: Decoder, memoryLen: nat, done: seq<bytes>, s: bytes): Option<Progress> {
    var f :- ReadFrame(s);
    if |done| < |ORDER| && f.id == ORDER[|done|] then
      if f.len > SectionLimit(memoryLen, f.id) then None
      else
        var body := Window(f.rest, f.len);
        var used :- dec(done, body);
        if used != f.len then None else Some(Progress(done + [body], f.rest[f.len..]))
    else if IsKnown(f.id) || f.len > MAX_SECTION_LEN || |f.rest| < f.len then None
    else Some(Progress(done, f.rest[f.len..]))
  }

  /** The whole loop, with `n` sections to go. */
  function Load(dec: Decoder, memoryLen: nat, n: nat, done: seq<bytes>, s: bytes): Option<Loaded>
    decreases n
  {
    if n == 0 then if |done| == |ORDER| then Some(Loaded(done, s)) else None
    else
      var t :- Turn(dec, memoryLen, done, s);
      Load(dec, memoryLen, n - 1, t.done, t.rest)
  }

  function Restore(dec: Decoder, memoryLen: nat, s: bytes): Option<seq<bytes>> {
    if |s| < 16 || s[..8] != MAGIC || FromLittleEndian(s[8..12]) != CONTAINER_VERSION then None
    else
      var count := FromLittleEndian(s[12..16]);
      if !(|ORDER| <= count <= MAX_COUNT) then None
      else
        var l :- Load(dec, memoryLen, count, [], s[16..]);
        if l.rest != [] then None else Some(l.bodies)
  }

  // ---- It parses what it prints ----

  lemma FrameOfPrinted(s: Section, rest: bytes)
    requires s.id < U32_LIMIT && |s.body| < U64_LIMIT
    ensures ReadFrame(PrintSection(s) + rest) == Some(Frame(s.id, |s.body|, s.body + rest))
  {
    var a, b := LittleEndian(s.id, 4), LittleEndian(|s.body|, 8);
    Regroup(a, b + s.body, rest);
    Regroup(b, s.body, rest);
    SplitsInThree(a, b, s.body + rest);
    Wire.LimitIsWidth(Kind.U32);
    Wire.LimitIsWidth(Kind.U64);
    ReadsBackInteger(s.id, 4);
    ReadsBackInteger(|s.body|, 8);
  }

  lemma SplitsInThree(a: bytes, b: bytes, c: bytes)
    requires |a| == 4 && |b| == 8
    ensures var t := a + (b + c); |t| >= 12 && t[..4] == a && t[4..12] == b && t[12..] == c
  {
  }

  lemma KnownCons(s: Section, secs: seq<Section>)
    ensures Known([s] + secs) == (if IsKnown(s.id) then [s] else []) + Known(secs)
  {
    assert ([s] + secs)[1..] == secs;
  }

  lemma BodiesBefore(done: seq<bytes>, h: Section, next: seq<Section>, i: nat)
    requires i <= |next|
    ensures done + Bodies(([h] + next)[..i + 1]) == done + [h.body] + Bodies(next[..i])
  {
    assert ([h] + next)[..i + 1] == [h] + next[..i];
  }

  /** A known section at the head is the next in order, and the rest is acceptable after it. */
  lemma AcceptableKnown(dec: Decoder, memoryLen: nat, secs: seq<Section>, k: nat, done: seq<bytes>)
    requires AcceptableFrom(dec, memoryLen, secs, k, done) && |done| == k && secs != [] && IsKnown(secs[0].id)
    ensures k < |ORDER| && secs[0].id == ORDER[k] && dec(done, secs[0].body) == Some(|secs[0].body|)
    ensures AcceptableFrom(dec, memoryLen, secs[1..], k + 1, done + [secs[0].body])
  {
    var known := Known(secs);
    var next := Known(secs[1..]);
    assert known == [secs[0]] + next;
    assert known[0] == secs[0];
    assert done + Bodies(known[..0]) == done;
    forall i | 0 <= i < |next|
      ensures next[i].id == ORDER[k + 1 + i]
      ensures dec(done + [secs[0].body] + Bodies(next[..i]), next[i].body) == Some(|next[i].body|)
    {
      assert next[i] == known[i + 1];
      BodiesBefore(done, secs[0], next, i);
    }
  }

  lemma AcceptableUnknown(dec: Decoder, memoryLen: nat, secs: seq<Section>, k: nat, done: seq<bytes>)
    requires AcceptableFrom(dec, memoryLen, secs, k, done) && secs != [] && !IsKnown(secs[0].id)
    ensures AcceptableFrom(dec, memoryLen, secs[1..], k, done) && |secs[0].body| <= MAX_SECTION_LEN
  {
    assert Known(secs) == Known(secs[1..]);
  }

  lemma TakesBody(body: bytes, tail: bytes)
    ensures Window(body + tail, |body|) == body && (body + tail)[|body|..] == tail
  {
  }

  lemma TurnKnown(dec: Decoder, memoryLen: nat, done: seq<bytes>, h: Section, tail: bytes)
    requires h.id < U32_LIMIT && |h.body| < U64_LIMIT
    requires |done| < |ORDER| && h.id == ORDER[|done|] && |h.body| <= SectionLimit(memoryLen, h.id)
    requires dec(done, h.body) == Some(|h.body|)
    ensures Turn(dec, memoryLen, done, PrintSection(h) + tail) == Some(Progress(done + [h.body], tail))
  {
    FrameOfPrinted(h, tail);
    TakesBody(h.body, tail);
  }

  lemma TurnUnknown(dec: Decoder, memoryLen: nat, done: seq<bytes>, h: Section, tail: bytes)
    requires h.id < U32_LIMIT && |h.body| <= MAX_SECTION_LEN && !IsKnown(h.id)
    ensures Turn(dec, memoryLen, done, PrintSection(h) + tail) == Some(Progress(done, tail))
  {
    FrameOfPrinted(h, tail);
    TakesBody(h.body, tail);
    assert |done| < |ORDER| ==> h.id != ORDER[|done|];
  }

  lemma TurnFollows(dec: Decoder, memoryLen: nat, secs: seq<Section>, done: seq<bytes>, tail: bytes) returns (next: seq<bytes>)
    requires secs != [] && Follows(dec, memoryLen, secs, done)
    ensures Turn(dec, memoryLen, done, PrintSection(secs[0]) + tail) == Some(Progress(next, tail))
    ensures Follows(dec, memoryLen, secs[1..], next) && Gathered(secs, done) == Gathered(secs[1..], next)
  {
    if IsKnown(secs[0].id) {
      TurnKnown(dec, memoryLen, done, secs[0], tail);
      next := done + [secs[0].body];
    } else {
      TurnUnknown(dec, memoryLen, done, secs[0], tail);
      next := done;
    }
  }

  lemma LoadTurn(dec: Decoder, memoryLen: nat, n: nat, done: seq<bytes>, s: bytes, t: Progress)
    requires n > 0 && Turn(dec, memoryLen, done, s) == Some(t)
    ensures Load(dec, memoryLen, n, done, s) == Load(dec, memoryLen, n - 1, t.done, t.rest)
  {
  }

  lemma PrintAllStep(secs: seq<Section>, rest: bytes)
    requires secs != []
    ensures PrintAll(secs) + rest == PrintSection(secs[0]) + (PrintAll(secs[1..]) + rest)
  {
    Regroup(PrintSection(secs[0]), PrintAll(secs[1..]), rest);
  }

  /** Streams and restored bodies, turn by turn, are what the loop goes through. */
  lemma {:induction false} LoadsAlong(dec: Decoder, memoryLen: nat, n: nat, dones: seq<seq<bytes>>, streams: seq<bytes>)
    requires |dones| == |streams| == n + 1
    requires forall i :: 0 <= i < n ==> Turn(dec, memoryLen, dones[i], streams[i]) == Some(Progress(dones[i + 1], streams[i + 1]))
    ensures Load(dec, memoryLen, n, dones[0], streams[0]) == Load(dec, memoryLen, 0, dones[n], streams[n])
    decreases n
  {
    if n > 0 {
      LoadTurn(dec, memoryLen, n, dones[0], streams[0], Progress(dones[1], streams[1]));
      LoadsAlong(dec, memoryLen, n - 1, dones[1..], streams[1..]);
    }
  }

  lemma {:induction false} PrintedTurns(dec: Decoder, memoryLen: nat, secs: seq<Section>, done: seq<bytes>, rest: bytes)
    returns (dones: seq<seq<bytes>>, streams: seq<bytes>)
    requires Follows(dec, memoryLen, secs, done)
    ensures |dones| == |streams| == |secs| + 1
    ensures dones[0] == done && streams[0] == PrintAll(secs) + rest
    ensures dones[|secs|] == Gathered(secs, done) && |dones[|secs|]| == |ORDER| && streams[|secs|] == rest
    ensures forall i :: 0 <= i < |secs| ==> Turn(dec, memoryLen, dones[i], streams[i]) == Some(Progress(dones[i + 1], streams[i + 1]))
    decreases |secs|
  {
    if secs == [] {
      dones, streams := [done], [rest];
    } else {
      var tail := PrintAll(secs[1..]) + rest;
      var next := TurnFollows(dec, memoryLen, secs, done, tail);
      PrintAllStep(secs, rest);
      var ds, ss := PrintedTurns(dec, memoryLen, secs[1..], next, rest);
      dones, streams := [done] + ds, [PrintAll(secs) + rest] + ss;
    }
  }

  lemma LoadsPrinted(dec: Decoder, memoryLen: nat, secs: seq<Section>, done: seq<bytes>, rest: bytes)
    requires Follows(dec, memoryLen, secs, done)
    ensures Load(dec, memoryLen, |secs|, done, PrintAll(secs) + rest) == Some(Loaded(Gathered(secs, done), rest))
  {
    var dones, streams := PrintedTurns(dec, memoryLen, secs, done, rest);
    LoadsAlong(dec, memoryLen, |secs|, dones, streams);
  }

  lemma {:induction false} AcceptableFollows(dec: Decoder, memoryLen: nat, secs: seq<Section>, done: seq<bytes>)
    requires AcceptableFrom(dec, memoryLen, secs, |done|, done)
    ensures Follows(dec, memoryLen, secs, done) && Gathered(secs, done) == done + Bodies(Known(secs))
    decreases |secs|
  {
    if secs == [] {
      assert done + Bodies(Known(secs)) == done;
    } else if IsKnown(secs[0].id) {
      AcceptableKnown(dec, memoryLen, secs, |done|, done);
      AcceptableFollows(dec, memoryLen, secs[1..], done + [secs[0].body]);
      BodiesCons(done, secs[0], Known(secs[1..]));
    } else {
      AcceptableUnknown(dec, memoryLen, secs, |done|, done);
      AcceptableFollows(dec, memoryLen, secs[1..], done);
    }
  }

  lemma {:induction false} FollowsAcceptable(dec: Decoder, memoryLen: nat, secs: seq<Section>, done: seq<bytes>)
    requires Follows(dec, memoryLen, secs, done) && |done| <= |ORDER|
    ensures AcceptableFrom(dec, memoryLen, secs, |done|, done)
    decreases |secs|
  {
    if secs != [] {
      assert secs == [secs[0]] + secs[1..];
      if IsKnown(secs[0].id) {
        FollowsAcceptable(dec, memoryLen, secs[1..], done + [secs[0].body]);
        AcceptableKnownBack(dec, memoryLen, secs[0], secs[1..], done);
      } else {
        FollowsAcceptable(dec, memoryLen, secs[1..], done);
        AcceptableUnknownBack(dec, memoryLen, secs[0], secs[1..], done);
      }
    }
  }

  lemma BodiesCons(done: seq<bytes>, h: Section, known: seq<Section>)
    ensures done + [h.body] + Bodies(known) == done + Bodies([h] + known)
  {
  }

  lemma HeaderRead(count: nat, rest: bytes)
    requires count < U32_LIMIT
    ensures var s := Header(count) + rest;
            && |s| >= 16 && s[..8] == MAGIC && FromLittleEndian(s[8..12]) == CONTAINER_VERSION
            && FromLittleEndian(s[12..16]) == count && s[16..] == rest
  {
    var s := Header(count) + rest;
    assert s[..8] == MAGIC;
    assert s[8..12] == LittleEndian(CONTAINER_VERSION, 4);
    assert s[12..16] == LittleEndian(count, 4);
    assert s[16..] == rest;
    Wire.LimitIsWidth(Kind.U32);
    ReadsBackInteger(CONTAINER_VERSION, 4);
    ReadsBackInteger(count, 4);
  }

  ghost predicate Acceptable(dec: Decoder, memoryLen: nat, secs: seq<Section>) {
    |ORDER| <= |secs| <= MAX_COUNT && AcceptableFrom(dec, memoryLen, secs, 0, [])
  }

  /** Each known section is handed exactly its own bytes; whatever unknown ones lie between are ignored. */
  lemma ParsesWhatItPrints(dec: Decoder, memoryLen: nat, secs: seq<Section>)
    requires Acceptable(dec, memoryLen, secs)
    ensures Restore(dec, memoryLen, Print(secs)) == Some(Bodies(Known(secs)))
  {
    HeaderRead(|secs|, PrintAll(secs));
    AcceptableFollows(dec, memoryLen, secs, []);
    LoadsPrinted(dec, memoryLen, secs, [], []);
    assert PrintAll(secs) + [] == PrintAll(secs);
    assert [] + Bodies(Known(secs)) == Bodies(Known(secs));
  }

  // ---- And nothing else ----

  /** The sections a loadable stream is made of. */
  function Frames(n: nat, s: bytes): seq<Section>
    decreases n
  {
    if n == 0 then []
    else
      match ReadFrame(s)
      case None => []
      case Some(f) => if |f.rest| < f.len then [] else [Section(f.id, f.rest[..f.len])] + Frames(n - 1, f.rest[f.len..])
  }

  lemma FrameIsPrinted(s: bytes)
    requires ReadFrame(s).Some? && ReadFrame(s).value.len <= |ReadFrame(s).value.rest|
    ensures var f := ReadFrame(s).value;
            var h := Section(f.id, f.rest[..f.len]);
            s == PrintSection(h) + f.rest[f.len..] && h.id < U32_LIMIT && |h.body| < U64_LIMIT
  {
    var f := ReadFrame(s).value;
    var h := Section(f.id, f.rest[..f.len]);
    WritesBackInteger(s[..4]);
    WritesBackInteger(s[4..12]);
    Wire.LimitIsWidth(Kind.U32);
    Wire.LimitIsWidth(Kind.U64);
    assert s == s[..4] + (s[4..12] + s[12..]);
    assert f.rest == h.body + f.rest[f.len..];
    assert s == (s[..4] + (s[4..12] + h.body)) + f.rest[f.len..];
  }

  lemma AcceptableKnownBack(dec: Decoder, memoryLen: nat, h: Section, secs: seq<Section>, done: seq<bytes>)
    requires |done| < |ORDER| && h.id == ORDER[|done|] && h.id < U32_LIMIT && |h.body| < U64_LIMIT
    requires |h.body| <= SectionLimit(memoryLen, h.id) && dec(done, h.body) == Some(|h.body|)
    requires AcceptableFrom(dec, memoryLen, secs, |done| + 1, done + [h.body])
    ensures AcceptableFrom(dec, memoryLen, [h] + secs, |done|, done)
  {
    var next, known := Known(secs), Known([h] + secs);
    KnownCons(h, secs);
    assert known == [h] + next;
    forall i | 0 <= i < |known|
      ensures known[i].id == ORDER[|done| + i]
      ensures dec(done + Bodies(known[..i]), known[i].body) == Some(|known[i].body|)
    {
      if i == 0 {
        assert done + Bodies(known[..0]) == done;
      } else {
        BodiesBefore(done, h, next, i - 1);
      }
    }
  }

  lemma AcceptableUnknownBack(dec: Decoder, memoryLen: nat, h: Section, secs: seq<Section>, done: seq<bytes>)
    requires !IsKnown(h.id) && h.id < U32_LIMIT && |h.body| <= MAX_SECTION_LEN
    requires AcceptableFrom(dec, memoryLen, secs, |done|, done)
    ensures AcceptableFrom(dec, memoryLen, [h] + secs, |done|, done)
  {
    KnownCons(h, secs);
    assert Known([h] + secs) == Known(secs);
    assert IsKnown(SEC_MEMORY) by {
      assert ORDER[0] == SEC_MEMORY;
    }
  }

  lemma {:induction false} LoadedWasPrinted(dec: Decoder, memoryLen: nat, n: nat, done: seq<bytes>, s: bytes)
    requires Load(dec, memoryLen, n, done, s).Some?
    ensures var secs := Frames(n, s);
            && |secs| == n && Follows(dec, memoryLen, secs, done)
            && s == PrintAll(secs) + Load(dec, memoryLen, n, done, s).value.rest
    decreases n
  {
    if n > 0 {
      var t := Turn(dec, memoryLen, done, s).value;
      LoadTurn(dec, memoryLen, n, done, s, t);
      LoadedWasPrinted(dec, memoryLen, n - 1, t.done, t.rest);
      FrameOfTurn(dec, memoryLen, done, s);
      FrameIsPrinted(s);
      FramesStep(n, s);
      PrintAllStep(Frames(n, s), Load(dec, memoryLen, n, done, s).value.rest);
    }
  }

  lemma FramesStep(n: nat, s: bytes)
    requires n > 0 && ReadFrame(s).Some? && ReadFrame(s).value.len <= |ReadFrame(s).value.rest|
    ensures var f := ReadFrame(s).value;
            && Frames(n, s) != [] && Frames(n, s)[0] == Section(f.id, f.rest[..f.len])
            && Frames(n, s)[1..] == Frames(n - 1, f.rest[f.len..])
  {
  }

  /** What one successful turn of the loop saw. */
  lemma FrameOfTurn(dec: Decoder, memoryLen: nat, done: seq<bytes>, s: bytes)
    requires Turn(dec, memoryLen, done, s).Some?
    ensures ReadFrame(s).Some? && ReadFrame(s).value.len <= |ReadFrame(s).value.rest|
    ensures var f, t := ReadFrame(s).value, Turn(dec, memoryLen, done, s).value;
            var body := f.rest[..f.len];
            && t.rest == f.rest[f.len..]
            && if IsKnown(f.id) then
                 && |done| < |ORDER| && f.id == ORDER[|done|] && f.len <= SectionLimit(memoryLen, f.id)
                 && dec(done, body) == Some(f.len) && t.done == done + [body]
               else f.len <= MAX_SECTION_LEN && t.done == done
  {
  }

  /**
   A stream is accepted exactly when it is the header followed by framed sections, the
   known ones once each in order, each body bounded and consumed exactly, nothing after.
   */
  lemma AcceptsExactlyWhatIsPrinted(dec: Decoder, memoryLen: nat, s: bytes)
    ensures Restore(dec, memoryLen, s).Some? <==>
            exists secs :: Acceptable(dec, memoryLen, secs) && s == Print(secs)
  {
    if Restore(dec, memoryLen, s).Some? {
      var count := FromLittleEndian(s[12..16]);
      LoadedWasPrinted(dec, memoryLen, count, [], s[16..]);
      var secs := Frames(count, s[16..]);
      FollowsAcceptable(dec, memoryLen, secs, []);
      HeaderIsPrinted(s);
      assert PrintAll(secs) + [] == PrintAll(secs);
      assert Acceptable(dec, memoryLen, secs) && s == Print(secs);
    }
    forall secs | Acceptable(dec, memoryLen, secs) && s == Print(secs) ensures Restore(dec, memoryLen, s).Some? {
      ParsesWhatItPrints(dec, memoryLen, secs);
    }
  }

  lemma HeaderIsPrinted(s: bytes)
    requires |s| >= 16 && s[..8] == MAGIC && FromLittleEndian(s[8..12]) == CONTAINER_VERSION
    ensures s == Header(FromLittleEndian(s[12..16])) + s[16..]
  {
    WritesBackInteger(s[8..12]);
    WritesBackInteger(s[12..16]);
    assert s == (s[..8] + (s[8..12] + s[12..16])) + s[16..];
  }
}
