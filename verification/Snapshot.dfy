/**
 A whole machine through a snapshot (`rusty_box/src/snapshot.rs`): the container, with
 the memory, timer and interrupt-controller sections decoded by their own codecs and
 the other sections by whatever decodes them.
 */
module Snapshot {
  import opened Base
  import opened Arith
  import opened Wire
  import opened Container
  import MemorySection
  import PicCodec
  import PicPair
  import PicRuns
  import Wheel
  import WheelAccounts
  import WheelCodec
  import WheelRuns
  import WheelSnapshot

  const PC_SYSTEM_AT: nat := 1
  const PIC_AT: nat := 4

  /** A section's own codec: how much of its window it takes. */
  type Codec = c: bytes -> Option<nat> | forall window :: c(window).Some? ==> c(window).value <= |window| witness _ => None

  ghost function Consumed<T>(p: Option<Parsed<T>>, window: bytes): (n: Option<nat>)
    ensures n.Some? ==> n.value <= |window|
  {
    if p.Some? && |p.value.rest| <= |window| then Some(|window| - |p.value.rest|) else None
  }

  /** `c` is how the sections of memory, of the timers and of the interrupt controllers are read. */
  ghost predicate ReadsMemory(c: Codec, live: MemorySection.Geometry) {
    forall window :: c(window) == Consumed(MemorySection.Decode(live, window), window)
  }

  ghost predicate ReadsWheel(c: Codec, ips: nat) {
    forall window :: c(window) == Consumed(WheelCodec.Decode(ips, window), window)
  }

  ghost predicate ReadsPic(c: Codec) {
    forall window :: c(window) == Consumed(PicCodec.Decode(window), window)
  }

  ghost function MemoryCodec(live: MemorySection.Geometry): (c: Codec)
    ensures ReadsMemory(c, live)
  {
    window => Consumed(MemorySection.Decode(live, window), window)
  }

  ghost function TimerCodec(ips: nat): (c: Codec)
    ensures ReadsWheel(c, ips)
  {
    window => Consumed(WheelCodec.Decode(ips, window), window)
  }

  ghost function InterruptCodec(): (c: Codec)
    ensures ReadsPic(c)
  {
    window => Consumed(PicCodec.Decode(window), window)
  }

  /** The three codecs at their places in the order, and `other` everywhere else. */
  function Take(memory: Codec, wheel: Codec, pic: Codec, other: Decoder, done: seq<bytes>, window: bytes): (n: Option<nat>)
    ensures n.Some? ==> n.value <= |window|
  {
    if |done| == 0 then memory(window)
    else if |done| == PC_SYSTEM_AT then wheel(window)
    else if |done| == PIC_AT then pic(window)
    else other(done, window)
  }

  function Together(memory: Codec, wheel: Codec, pic: Codec, other: Decoder): Decoder {
    (done: seq<bytes>, window: bytes) => Take(memory, wheel, pic, other, done, window)
  }

  datatype Memory = Memory(geometry: MemorySection.Geometry, homes: seq<MemorySection.Residency>, blocks: seq<bytes>)

  ghost predicate MemoryValid(m: Memory) {
    var g := m.geometry;
    && MemorySection.GeometryTyped(g) && MemorySection.GeometryMatches(g, g) && MemorySection.GoodMap(g, m.homes)
    && |m.blocks| == g.numBlocks && MemorySection.BlocksSized(g, 0, m.blocks)
  }

  /** For one, a machine with a single resident block of any contents. */
  lemma OneBlockIsValid(block: bytes)
    requires 0 < |block| < U32_LIMIT
    ensures MemoryValid(Memory(MemorySection.Geometry(|block|, |block|, |block|, 1, 1, 1, 0), [MemorySection.Resident(0)], [block]))
  {
    var n := |block|;
    var g, homes := MemorySection.Geometry(n, n, n, 1, 1, 1, 0), [MemorySection.Resident(0)];
    DivIs(n + (n - 1), n, 1, n - 1);
    assert MemorySection.BlockLen(g, 0) == n;
    assert homes[0] == MemorySection.Resident(0);
    assert 0 in MemorySection.Slots(homes);
    assert MemorySection.Slots(homes) == MemorySection.Below(1);
  }

  ghost function MemoryLen(m: Memory): nat {
    44 + 5 * m.geometry.numBlocks + m.geometry.guestLen
  }

  /** The known sections in order, bounded, the three bodies in their places, with unknown ones anywhere between. */
  ghost predicate Saved(memoryLen: nat, memory: bytes, wheel: bytes, pic: bytes, other: Decoder, secs: seq<Section>) {
    var known := Known(secs);
    && |ORDER| <= |secs| <= MAX_COUNT
    && (forall i :: 0 <= i < |secs| ==>
          secs[i].id < U32_LIMIT && |secs[i].body| < U64_LIMIT && |secs[i].body| <= SectionLimit(memoryLen, secs[i].id))
    && |known| == |ORDER| && (forall i :: 0 <= i < |known| ==> known[i].id == ORDER[i])
    && known[0].body == memory && known[PC_SYSTEM_AT].body == wheel && known[PIC_AT].body == pic
    && (forall i :: 0 <= i < |known| && i != 0 && i != PC_SYSTEM_AT && i != PIC_AT ==>
          other(Bodies(known[..i]), known[i].body) == Some(|known[i].body|))
  }

  lemma SavedIsAcceptable(mc: Codec, wc: Codec, pc: Codec, other: Decoder, memoryLen: nat, m: bytes, w: bytes, p: bytes,
                          secs: seq<Section>)
    requires mc(m) == Some(|m|) && wc(w) == Some(|w|) && pc(p) == Some(|p|) && Saved(memoryLen, m, w, p, other, secs)
    ensures Acceptable(Together(mc, wc, pc, other), memoryLen, secs)
  {
    var dec, known := Together(mc, wc, pc, other), Known(secs);
    forall i | 0 <= i < |known| ensures dec([] + Bodies(known[..i]), known[i].body) == Some(|known[i].body|) {
      assert [] + Bodies(known[..i]) == Bodies(known[..i]);
    }
  }

  lemma MemoryBack(m: Memory)
    requires MemoryValid(m)
    ensures MemorySection.Decode(m.geometry, MemorySection.Encode(m.geometry, m.homes, m.blocks)) ==
            Some(Parsed(MemorySection.Restored(m.geometry, MemorySection.Layout(m.homes, m.blocks)), []))
  {
    MemorySection.SaveThenRestore(m.geometry, m.homes, m.blocks, []);
    NothingAfter(MemorySection.Encode(m.geometry, m.homes, m.blocks));
  }

  lemma NothingAfter(b: bytes)
    ensures b + [] == b
  {
  }

  lemma WheelBack(w: Wheel.State)
    requires WheelSnapshot.Typed(w) && WheelSnapshot.Validates(w)
    ensures WheelCodec.Encodable(w) && WheelCodec.Decode(w.ips, WheelCodec.Encode(w)) == Some(Parsed(w, []))
  {
    WheelCodec.SaveThenRestore(w, []);
    NothingAfter(WheelCodec.Encode(w));
  }

  lemma PairBack(p: PicPair.Pair)
    requires PicCodec.Restorable(p)
    ensures PicCodec.Decode(PicCodec.Encode(p)) == Some(Parsed(PicCodec.Restored(p, []), []))
  {
    PicCodec.SaveThenRestore(p, []);
    NothingAfter(PicCodec.Encode(p));
  }

  lemma ConsumedAll<T>(p: Option<Parsed<T>>, window: bytes)
    requires p.Some? && p.value.rest == []
    ensures Consumed(p, window) == Some(|window|)
  {
  }

  lemma MemoryTaken(c: Codec, m: Memory)
    requires MemoryValid(m) && ReadsMemory(c, m.geometry)
    ensures var body := MemorySection.Encode(m.geometry, m.homes, m.blocks); c(body) == Some(|body|)
  {
    var body := MemorySection.Encode(m.geometry, m.homes, m.blocks);
    MemoryBack(m);
    ConsumedAll(MemorySection.Decode(m.geometry, body), body);
  }

  lemma WheelTaken(c: Codec, w: Wheel.State)
    requires WheelSnapshot.Typed(w) && WheelSnapshot.Validates(w) && ReadsWheel(c, w.ips)
    ensures WheelCodec.Encodable(w) && c(WheelCodec.Encode(w)) == Some(|WheelCodec.Encode(w)|)
  {
    WheelBack(w);
    ConsumedAll(WheelCodec.Decode(w.ips, WheelCodec.Encode(w)), WheelCodec.Encode(w));
  }

  lemma PairTaken(c: Codec, p: PicPair.Pair)
    requires PicCodec.Restorable(p) && ReadsPic(c)
    ensures c(PicCodec.Encode(p)) == Some(|PicCodec.Encode(p)|)
  {
    PairBack(p);
    ConsumedAll(PicCodec.Decode(PicCodec.Encode(p)), PicCodec.Encode(p));
  }

  /**
   Whatever is written for a valid machine is accepted, and each of the three sections
   is handed back the very bytes its own codec turns into the state that was saved.
   */
  lemma MachineRoundTrip(m: Memory, w: Wheel.State, p: PicPair.Pair, mc: Codec, wc: Codec, pc: Codec, other: Decoder,
                         secs: seq<Section>)
    requires MemoryValid(m) && WheelSnapshot.Typed(w) && WheelSnapshot.Validates(w) && PicCodec.Restorable(p)
    requires ReadsMemory(mc, m.geometry) && ReadsWheel(wc, w.ips) && ReadsPic(pc) && WheelCodec.Encodable(w)
    requires Saved(MemoryLen(m), MemorySection.Encode(m.geometry, m.homes, m.blocks), WheelCodec.Encode(w), PicCodec.Encode(p),
                   other, secs)
    ensures Restore(Together(mc, wc, pc, other), MemoryLen(m), Print(secs)) == Some(Bodies(Known(secs)))
    ensures MemorySection.Decode(m.geometry, Known(secs)[0].body) ==
            Some(Parsed(MemorySection.Restored(m.geometry, MemorySection.Layout(m.homes, m.blocks)), []))
    ensures WheelCodec.Decode(w.ips, Known(secs)[PC_SYSTEM_AT].body) == Some(Parsed(w, []))
    ensures PicCodec.Decode(Known(secs)[PIC_AT].body) == Some(Parsed(PicCodec.Restored(p, []), []))
  {
    MemoryTaken(mc, m);
    WheelTaken(wc, w);
    PairTaken(pc, p);
    SavedIsAcceptable(mc, wc, pc, other, MemoryLen(m),
                      MemorySection.Encode(m.geometry, m.homes, m.blocks), WheelCodec.Encode(w), PicCodec.Encode(p), secs);
    ParsesWhatItPrints(Together(mc, wc, pc, other), MemoryLen(m), secs);
    MemoryBack(m);
    WheelBack(w);
    PairBack(p);
  }

  /** The same, with the three codecs written out. */
  lemma MachineRestores(m: Memory, w: Wheel.State, p: PicPair.Pair, other: Decoder, secs: seq<Section>)
    requires MemoryValid(m) && WheelSnapshot.Typed(w) && WheelSnapshot.Validates(w) && PicCodec.Restorable(p)
    requires WheelCodec.Encodable(w)
    requires Saved(MemoryLen(m), MemorySection.Encode(m.geometry, m.homes, m.blocks), WheelCodec.Encode(w), PicCodec.Encode(p),
                   other, secs)
    ensures Restore(Together(MemoryCodec(m.geometry), TimerCodec(w.ips), InterruptCodec(), other), MemoryLen(m), Print(secs)) ==
            Some(Bodies(Known(secs)))
  {
    MachineRoundTrip(m, w, p, MemoryCodec(m.geometry), TimerCodec(w.ips), InterruptCodec(), other, secs);
  }

  /** A machine whose timers and interrupt controllers got where they are by running is such a machine. */
  lemma RunningMachineIsValid(ips: u32, ticking: seq<WheelRuns.Op>, poking: seq<PicRuns.Op>)
    requires var w := Wheel.Initialize(Wheel.New(), ips);
             WheelRuns.Running(w) && WheelRuns.RunEnabled(w, ticking) && WheelAccounts.RunDisciplined(w, ticking)
    ensures var w := WheelRuns.Run(Wheel.Initialize(Wheel.New(), ips), ticking);
            WheelSnapshot.Typed(w) && WheelSnapshot.Validates(w) && WheelCodec.Encodable(w)
    ensures PicCodec.Restorable(PicRuns.Run(PicPair.New(), poking))
  {
    WheelSnapshot.ReachableStatesValidate(ticking, ips);
    WheelCodec.ValidatedIsEncodable(WheelRuns.Run(Wheel.Initialize(Wheel.New(), ips), ticking));
    PicCodec.RunStaysProgrammed(PicPair.New(), poking);
  }
}
