/**
 The memory section of a snapshot (`rusty_box/src/snapshot.rs`, lines 377-446): a
 geometry, then for every guest block where it resides and its bytes.
 */
module MemorySection {
  import opened Base
  import opened Sets
  import opened Wire

  datatype Geometry = Geometry(
    guestLen: nat,
    hostRamLen: nat,
    blockSize: nat,
    numBlocks: nat,
    residentCapacity: nat,
    usedBlocks: nat,
    nextSwapout: nat)

  /** Where a guest block lives: in a slot of host RAM, or swapped out. */
  datatype Residency = Swapped | Resident(slot: nat)

  ghost predicate GeometryTyped(g: Geometry) {
    && g.guestLen < U64_LIMIT && g.hostRamLen < U64_LIMIT && g.blockSize < U64_LIMIT
    && g.numBlocks < U32_LIMIT && g.residentCapacity < U32_LIMIT && g.usedBlocks < U32_LIMIT && g.nextSwapout < U32_LIMIT
  }

  // ---- What is demanded ----

  /** The saved geometry is coherent and is that of the machine restored into. */
  predicate GeometryMatches(g: Geometry, live: Geometry) {
    && g.blockSize > 0 && g.guestLen + (g.blockSize - 1) < U64_LIMIT
    && g.guestLen == live.guestLen && g.hostRamLen == live.hostRamLen && g.blockSize == live.blockSize
    && g.numBlocks == live.numBlocks && g.residentCapacity == live.residentCapacity
    && (g.guestLen + (g.blockSize - 1)) / g.blockSize == g.numBlocks
    && g.usedBlocks <= g.residentCapacity && g.usedBlocks <= g.numBlocks
    && (g.numBlocks == 0 ==> g.nextSwapout == 0) && (g.numBlocks != 0 ==> g.nextSwapout < g.numBlocks)
  }

  /** `memory_block_len`: every block is whole but perhaps the last. */
  function BlockLen(g: Geometry, b: nat): nat {
    var start := b * g.blockSize;
    if start >= g.guestLen then 0
    else if g.guestLen - start < g.blockSize then g.guestLen - start
    else g.blockSize
  }

  /** A resident block's slot exists and holds it within host RAM. */
  predicate SlotFits(g: Geometry, b: nat, slot: nat) {
    slot < g.residentCapacity && slot * g.blockSize + BlockLen(g, b) <= g.hostRamLen
  }

  ghost predicate Injective(homes: seq<Residency>) {
    forall a, b :: 0 <= a < b < |homes| && homes[a].Resident? && homes[b].Resident? ==> homes[a].slot != homes[b].slot
  }

  ghost function Slots(homes: seq<Residency>): set<nat> {
    set b | 0 <= b < |homes| && homes[b].Resident? :: homes[b].slot
  }

  ghost function Below(n: nat): (s: set<nat>)
    ensures |s| == n && forall k :: k in s <==> 0 <= k < n
  {
    if n == 0 then {} else Below(n - 1) + {n - 1}
  }

  /** The resident blocks occupy exactly the slots `0..usedBlocks-1`, one each. */
  ghost predicate GoodMap(g: Geometry, homes: seq<Residency>) {
    && |homes| == g.numBlocks
    && (forall b :: 0 <= b < |homes| && homes[b].Resident? ==> SlotFits(g, b, homes[b].slot))
    && Injective(homes)
    && Slots(homes) == Below(g.usedBlocks)
  }

  // ---- The layout ----

  const HEADER_KINDS: seq<Kind> := [Kind.U32, Kind.U64, Kind.U64, Kind.U64, Kind.U32, Kind.U32, Kind.U32, Kind.U32]
  const DESCRIPTOR_KINDS: seq<Kind> := [U8, Kind.U32]

  function HeaderVals(g: Geometry): seq<nat> {
    [SECTION_VERSION, g.guestLen, g.hostRamLen, g.blockSize, g.numBlocks, g.residentCapacity, g.usedBlocks, g.nextSwapout]
  }

  function DescriptorVals(r: Residency): (v: seq<nat>)
    ensures |v| == 2
  {
    match r
    case Swapped => [0, U32_MAX]
    case Resident(slot) => [1, slot]
  }

  function ResidencyFrom(v: seq<nat>): Option<Residency>
    requires |v| == 2
  {
    if v[0] == 0 && v[1] == U32_MAX then Some(Swapped)
    else if v[0] == 1 then Some(Resident(v[1]))
    else None
  }

  function EncodeBlocks(homes: seq<Residency>, blocks: seq<bytes>): bytes
    requires |homes| == |blocks|
  {
    if homes == [] then []
    else Put(DESCRIPTOR_KINDS, DescriptorVals(homes[0])) + (blocks[0] + EncodeBlocks(homes[1..], blocks[1..]))
  }

  /** What `save_memory` writes. */
  function Encode(g: Geometry, homes: seq<Residency>, blocks: seq<bytes>): bytes
    requires |homes| == |blocks|
  {
    Put(HEADER_KINDS, HeaderVals(g)) + EncodeBlocks(homes, blocks)
  }

  // ---- The length ----

  function TotalLen(g: Geometry, b: nat): nat {
    if b == 0 then 0 else TotalLen(g, b - 1) + BlockLen(g, b - 1)
  }

  lemma {:induction false} BlocksCoverGuest(g: Geometry, b: nat)
    ensures TotalLen(g, b) == if b * g.blockSize <= g.guestLen then b * g.blockSize else g.guestLen
  {
    if b > 0 {
      BlocksCoverGuest(g, b - 1);
      assert b * g.blockSize == (b - 1) * g.blockSize + g.blockSize;
    }
  }

  lemma RoundedUpCovers(len: nat, size: nat, n: nat)
    requires size > 0 && n == (len + (size - 1)) / size
    ensures len <= n * size
  {
    var e := len + (size - 1);
    assert e == n * size + e % size;
  }

  ghost predicate BlocksSized(g: Geometry, from: nat, blocks: seq<bytes>) {
    forall i :: 0 <= i < |blocks| ==> |blocks[i]| == BlockLen(g, from + i)
  }

  lemma {:induction false} EncodedLength(g: Geometry, homes: seq<Residency>, blocks: seq<bytes>, from: nat)
    requires |homes| == |blocks| && BlocksSized(g, from, blocks)
    ensures |EncodeBlocks(homes, blocks)| + TotalLen(g, from) == 5 * |homes| + TotalLen(g, from + |homes|)
    decreases |homes|
  {
    if homes != [] {
      assert RecordLen(DESCRIPTOR_KINDS) == 5;
      SizedTail(g, from, blocks);
      EncodedLength(g, homes[1..], blocks[1..], from + 1);
    }
  }

  lemma HeaderIs44Bytes()
    ensures RecordLen(HEADER_KINDS) == 44
  {
    var a, b := HEADER_KINDS[..4], HEADER_KINDS[4..];
    assert HEADER_KINDS == a + b;
    RecordLenAdds(a, b);
    assert a == [Kind.U32, Kind.U64] + [Kind.U64, Kind.U64];
    RecordLenAdds([Kind.U32, Kind.U64], [Kind.U64, Kind.U64]);
    assert b == [Kind.U32, Kind.U32] + [Kind.U32, Kind.U32];
    RecordLenAdds([Kind.U32, Kind.U32], [Kind.U32, Kind.U32]);
  }

  /** `memory_payload_len_for_geometry` is exact, because the block lengths sum to guest memory. */
  lemma PayloadLength(g: Geometry, live: Geometry, homes: seq<Residency>, blocks: seq<bytes>)
    requires GeometryMatches(g, live) && |homes| == |blocks| == g.numBlocks && BlocksSized(g, 0, blocks)
    ensures |Encode(g, homes, blocks)| == 44 + 5 * g.numBlocks + g.guestLen
  {
    HeaderIs44Bytes();
    EncodedLength(g, homes, blocks, 0);
    BlocksCoverGuest(g, g.numBlocks);
    RoundedUpCovers(g.guestLen, g.blockSize, g.numBlocks);
  }

  // ---- Reading it back ----

  datatype Layout = Layout(homes: seq<Residency>, blocks: seq<bytes>)
  datatype Restored = Restored(geometry: Geometry, layout: Layout)

  function Append(acc: Layout, r: Residency, block: bytes): Layout {
    Layout(acc.homes + [r], acc.blocks + [block])
  }

  /** One block: its descriptor, then as many bytes as its place in guest memory has. */
  function DecodeBlock(g: Geometry, acc: Layout, s: bytes): Option<Parsed<Layout>> {
    var d :- Get(DESCRIPTOR_KINDS, s);
    var r :- ResidencyFrom(d.value);
    var len := BlockLen(g, |acc.homes|);
    if |d.rest| < len then None else Some(Parsed(Append(acc, r, d.rest[..len]), d.rest[len..]))
  }

  function DecodeBlocks(g: Geometry, acc: Layout, n: nat, s: bytes): Option<Parsed<Layout>>
    decreases n
  {
    if n == 0 then Some(Parsed(acc, s))
    else
      var p :- DecodeBlock(g, acc, s);
      DecodeBlocks(g, p.value, n - 1, p.rest)
  }

  function GeometryFrom(v: seq<nat>): Geometry
    requires |v| == 8
  {
    Geometry(v[1], v[2], v[3], v[4], v[5], v[6], v[7])
  }

  ghost function DecodeGood(g: Geometry, s: bytes): Option<Parsed<Layout>> {
    var l :- DecodeBlocks(g, Layout([], []), g.numBlocks, s);
    if GoodMap(g, l.value.homes) then Some(l) else None
  }

  /** What `restore_memory` accepts, and what it makes of it, on a machine of geometry `live`. */
  ghost function Decode(live: Geometry, s: bytes): Option<Parsed<Restored>> {
    var h :- Get(HEADER_KINDS, s);
    var g := GeometryFrom(h.value);
    if h.value[0] != SECTION_VERSION || !GeometryMatches(g, live) then None
    else
      var l :- DecodeGood(g, h.rest);
      Some(Parsed(Restored(g, l.value), l.rest))
  }

  /** Decoding only ever appends. */
  lemma {:induction false} DecodedExtends(g: Geometry, acc: Layout, n: nat, s: bytes)
    requires DecodeBlocks(g, acc, n, s).Some?
    ensures acc.homes <= DecodeBlocks(g, acc, n, s).value.value.homes
    ensures |DecodeBlocks(g, acc, n, s).value.value.homes| == |acc.homes| + n
    decreases n
  {
    if n > 0 {
      var p := DecodeBlock(g, acc, s).value;
      DecodedExtends(g, p.value, n - 1, p.rest);
    }
  }

  lemma SlotsAppend(homes: seq<Residency>, r: Residency)
    ensures Slots(homes + [r]) == if r.Resident? then Slots(homes) + {r.slot} else Slots(homes)
  {
    var h := homes + [r];
    forall b | 0 <= b < |homes| ensures h[b] == homes[b] {
    }
    assert h[|homes|] == r;
    if r.Resident? {
      assert r.slot in Slots(h);
    }
    forall k | k in Slots(homes) ensures k in Slots(h) {
      var b :| 0 <= b < |homes| && homes[b].Resident? && homes[b].slot == k;
      assert h[b] == homes[b];
    }
  }

  // ---- The one pass the code makes ----

  /** A descriptor is refused exactly when its slot is not there, too small for the block, or taken. */
  ghost predicate HomeOk(g: Geometry, homes: seq<Residency>, r: Residency) {
    r.Resident? ==> SlotFits(g, |homes|, r.slot) && r.slot !in Slots(homes)
  }

  ghost function DecodeChecked(g: Geometry, acc: Layout, n: nat, s: bytes): Option<Parsed<Layout>>
    decreases n
  {
    if n == 0 then Some(Parsed(acc, s))
    else
      var p :- DecodeBlock(g, acc, s);
      if !HomeOk(g, acc.homes, p.value.homes[|acc.homes|]) then None
      else DecodeChecked(g, p.value, n - 1, p.rest)
  }

  ghost predicate HomesOk(g: Geometry, homes: seq<Residency>) {
    forall b :: 0 <= b < |homes| ==> HomeOk(g, homes[..b], homes[b])
  }

  lemma HomesOkIsInjective(g: Geometry, homes: seq<Residency>)
    ensures HomesOk(g, homes) <==>
            && Injective(homes)
            && forall b :: 0 <= b < |homes| && homes[b].Resident? ==> SlotFits(g, b, homes[b].slot)
  {
    if HomesOk(g, homes) {
      forall a, b | 0 <= a < b < |homes| && homes[a].Resident? && homes[b].Resident? ensures homes[a].slot != homes[b].slot {
        assert HomeOk(g, homes[..b], homes[b]);
        assert homes[..b][a] == homes[a];
      }
      forall b | 0 <= b < |homes| && homes[b].Resident? ensures SlotFits(g, b, homes[b].slot) {
        assert HomeOk(g, homes[..b], homes[b]);
      }
    }
    if Injective(homes) && forall b :: 0 <= b < |homes| && homes[b].Resident? ==> SlotFits(g, b, homes[b].slot) {
      forall b | 0 <= b < |homes| ensures HomeOk(g, homes[..b], homes[b]) {
        forall a | 0 <= a < b && homes[a].Resident? && homes[b].Resident? ensures homes[..b][a].slot != homes[b].slot {
        }
      }
    }
  }

  lemma HomesOkAppend(g: Geometry, homes: seq<Residency>, r: Residency)
    requires HomesOk(g, homes)
    ensures HomesOk(g, homes + [r]) <==> HomeOk(g, homes, r)
  {
    var h := homes + [r];
    assert h[..|homes|] == homes && h[|homes|] == r;
    forall b | 0 <= b < |homes| ensures h[..b] == homes[..b] && h[b] == homes[b] {
    }
    if HomesOk(g, h) {
      assert HomeOk(g, h[..|homes|], h[|homes|]);
    }
    if HomeOk(g, homes, r) {
      forall b | 0 <= b < |h| ensures HomeOk(g, h[..b], h[b]) {
        if b < |homes| {
          assert HomeOk(g, homes[..b], homes[b]);
        }
      }
    }
  }

  lemma HomesOkPrefix(g: Geometry, homes: seq<Residency>, full: seq<Residency>)
    requires homes <= full && HomesOk(g, full)
    ensures HomesOk(g, homes)
  {
    forall b | 0 <= b < |homes| ensures HomeOk(g, homes[..b], homes[b]) {
      assert full[..b] == homes[..b] && full[b] == homes[b];
      assert HomeOk(g, full[..b], full[b]);
    }
  }

  lemma DecodeBlocksStep(g: Geometry, acc: Layout, s: bytes)
    requires DecodeBlock(g, acc, s).Some?
    ensures var p := DecodeBlock(g, acc, s).value;
            |p.value.homes| == |acc.homes| + 1 && p.value.homes == acc.homes + [p.value.homes[|acc.homes|]]
  {
  }

  /** Checking each descriptor as it comes accepts exactly the maps that are good as a whole. */
  lemma {:induction false} CheckedAsItComes(g: Geometry, acc: Layout, n: nat, s: bytes)
    requires HomesOk(g, acc.homes)
    ensures var all, checked := DecodeBlocks(g, acc, n, s), DecodeChecked(g, acc, n, s);
            checked == if all.Some? && HomesOk(g, all.value.value.homes) then all else None
    decreases n
  {
    if n > 0 && DecodeBlock(g, acc, s).Some? {
      var p := DecodeBlock(g, acc, s).value;
      DecodeBlocksStep(g, acc, s);
      var r := p.value.homes[|acc.homes|];
      HomesOkAppend(g, acc.homes, r);
      var all := DecodeBlocks(g, p.value, n - 1, p.rest);
      if HomeOk(g, acc.homes, r) {
        CheckedAsItComes(g, p.value, n - 1, p.rest);
      } else if all.Some? && HomesOk(g, all.value.value.homes) {
        DecodedExtends(g, p.value, n - 1, p.rest);
        HomesOkPrefix(g, p.value.homes, all.value.value.homes);
      }
    }
  }

  /** What the loop's variables know of the slots taken so far. */
  ghost predicate Tracks(seen: seq<bool>, used: nat, homes: seq<Residency>) {
    && used == |Slots(homes)|
    && Slots(homes) <= Below(|seen|)
    && forall k :: 0 <= k < |seen| ==> seen[k] == (k in Slots(homes))
  }

  lemma TracksAppend(seen: seq<bool>, used: nat, homes: seq<Residency>, slot: nat)
    requires Tracks(seen, used, homes) && slot < |seen| && !seen[slot]
    ensures Tracks(seen[slot := true], used + 1, homes + [Resident(slot)])
  {
    SlotsAppend(homes, Resident(slot));
  }

  /** The final count check, with every slot below the count taken, is exactly that those slots are the ones taken. */
  lemma CountMeansExact(seen: seq<bool>, used: nat, homes: seq<Residency>, expected: nat)
    requires Tracks(seen, used, homes) && expected <= |seen|
    ensures used <= |seen|
    ensures Slots(homes) == Below(expected) <==> used == expected && forall k :: 0 <= k < used ==> seen[k]
  {
    var taken := Slots(homes);
    SubsetIsNoLarger(taken, Below(|seen|));
    if used == expected && forall k :: 0 <= k < used ==> seen[k] {
      forall k | k in Below(used) ensures k in taken {
        assert seen[k];
      }
      SubsetIsNoLarger(Below(used), taken);
    }
    if taken == Below(expected) {
      forall k | 0 <= k < used ensures seen[k] {
        assert k in Below(expected);
      }
    }
  }

  method ReadHeader(live: Geometry, s: bytes) returns (h: Option<Parsed<Geometry>>)
    ensures h.Some? ==> Get(HEADER_KINDS, s).Some? && (var v := Get(HEADER_KINDS, s).value;
              v.value[0] == SECTION_VERSION && GeometryMatches(GeometryFrom(v.value), live) &&
              h == Some(Parsed(GeometryFrom(v.value), v.rest)))
    ensures h.None? ==> Decode(live, s).None?
  {
    var v := Get(HEADER_KINDS, s);
    if v.None? {
      return None;
    }
    var g := GeometryFrom(v.value.value);
    if v.value.value[0] != SECTION_VERSION || !GeometryMatches(g, live) {
      return None;
    }
    return Some(Parsed(g, v.value.rest));
  }

  /** One descriptor against the slots seen before it. */
  method TakeSlot(g: Geometry, ghost homes: seq<Residency>, block: nat, home: Residency, seen: array<bool>, used: nat)
    returns (ok: bool, count: nat)
    requires Tracks(seen[..], used, homes) && seen.Length == g.residentCapacity && block == |homes|
    modifies seen
    ensures ok == HomeOk(g, homes, home)
    ensures ok ==> Tracks(seen[..], count, homes + [home])
  {
    match home {
      case Swapped =>
        SlotsAppend(homes, home);
        return true, used;
      case Resident(slot) =>
        if slot >= g.residentCapacity || seen[slot] || !SlotFits(g, block, slot) {
          assert slot < g.residentCapacity ==> seen[slot] == seen[..][slot];
          return false, used;
        }
        TracksAppend(seen[..], used, homes, slot);
        ghost var flags := seen[..];
        assert !flags[slot];
        seen[slot] := true;
        assert seen[..] == flags[slot := true];
        return true, used + 1;
    }
  }

  ghost function DecodeOnce(g: Geometry, s: bytes): Option<Parsed<Layout>> {
    var l :- DecodeChecked(g, Layout([], []), g.numBlocks, s);
    if Slots(l.value.homes) == Below(g.usedBlocks) then Some(l) else None
  }

  lemma OnePassIsEnough(g: Geometry, s: bytes)
    ensures DecodeOnce(g, s) == DecodeGood(g, s)
  {
    var acc := Layout([], []);
    CheckedAsItComes(g, acc, g.numBlocks, s);
    var all := DecodeBlocks(g, acc, g.numBlocks, s);
    if all.Some? {
      DecodedExtends(g, acc, g.numBlocks, s);
      HomesOkIsInjective(g, all.value.value.homes);
    }
  }

  lemma CheckedStep(g: Geometry, acc: Layout, n: nat, s: bytes)
    requires n > 0
    ensures var d, all := DecodeBlock(g, acc, s), DecodeChecked(g, acc, n, s);
            && (d.None? ==> all.None?)
            && (d.Some? ==>
                  && |d.value.value.homes| == |acc.homes| + 1
                  && d.value.value.homes == acc.homes + [d.value.value.homes[|acc.homes|]]
                  && all == if HomeOk(g, acc.homes, d.value.value.homes[|acc.homes|])
                            then DecodeChecked(g, d.value.value, n - 1, d.value.rest) else None)
  {
  }

  /** One block, read and then checked against the slots seen before it. */
  method TakeBlock(g: Geometry, layout: Layout, data: bytes, seen: array<bool>, used: nat, ghost left: nat)
    returns (d: Option<Parsed<Layout>>, count: nat)
    requires left > 0 && Tracks(seen[..], used, layout.homes) && seen.Length == g.residentCapacity
    modifies seen
    ensures d.None? ==> DecodeChecked(g, layout, left, data).None?
    ensures d.Some? ==>
              && |d.value.value.homes| == |layout.homes| + 1
              && DecodeChecked(g, layout, left, data) == DecodeChecked(g, d.value.value, left - 1, d.value.rest)
              && Tracks(seen[..], count, d.value.value.homes)
  {
    CheckedStep(g, layout, left, data);
    d := DecodeBlock(g, layout, data);
    if d.None? {
      return None, used;
    }
    var ok;
    ok, count := TakeSlot(g, layout.homes, |layout.homes|, d.value.value.homes[|layout.homes|], seen, used);
    if !ok {
      return None, used;
    }
  }

  /** Where nothing is left to read, what was read is the answer. */
  lemma NothingLeft(g: Geometry, layout: Layout, data: bytes)
    ensures DecodeChecked(g, layout, 0, data) == Some(Parsed(layout, data))
  {
  }

  method ReadAll(g: Geometry, start: Layout, s: bytes, seen: array<bool>) returns (r: Option<Parsed<Layout>>, used: nat)
    requires Tracks(seen[..], 0, start.homes) && seen.Length == g.residentCapacity
    modifies seen
    ensures r == DecodeChecked(g, start, g.numBlocks, s)
    ensures r.Some? ==> Tracks(seen[..], used, r.value.value.homes)
  {
    var left := g.numBlocks;
    r, used := Some(Parsed(start, s)), 0;
    ghost var all := DecodeChecked(g, start, left, s);
    while left > 0 && r.Some?
      invariant r.None? ==> all.None?
      invariant r.Some? ==> all == DecodeChecked(g, r.value.value, left, r.value.rest) && Tracks(seen[..], used, r.value.value.homes)
      decreases left
    {
      r, used := TakeBlock(g, r.value.value, r.value.rest, seen, used, left);
      left := left - 1;
    }
    if r.Some? {
      NothingLeft(g, r.value.value, r.value.rest);
    }
  }

  /** One pass, checking each slot against those seen before it and the count at the end. */
  method OnePass(g: Geometry, s: bytes) returns (r: Option<Parsed<Layout>>)
    requires g.usedBlocks <= g.residentCapacity
    ensures r == DecodeOnce(g, s)
  {
    var seen := new bool[g.residentCapacity](_ => false);
    var used;
    r, used := ReadAll(g, Layout([], []), s, seen);
    if r.Some? {
      CountMeansExact(seen[..], used, r.value.value.homes, g.usedBlocks);
      if used != g.usedBlocks || exists k :: 0 <= k < used && !seen[k] {
        return None;
      }
    }
  }

  method RestoreBlocks(g: Geometry, s: bytes) returns (r: Option<Parsed<Layout>>)
    requires g.usedBlocks <= g.residentCapacity
    ensures r == DecodeGood(g, s)
  {
    r := OnePass(g, s);
    OnePassIsEnough(g, s);
  }

  /** `restore_memory`. */
  method RestoreMemory(live: Geometry, s: bytes) returns (r: Option<Parsed<Restored>>)
    ensures r == Decode(live, s)
  {
    var h := ReadHeader(live, s);
    if h.None? {
      return None;
    }
    var l := RestoreBlocks(h.value.value, h.value.rest);
    if l.None? {
      return None;
    }
    return Some(Parsed(Restored(h.value.value, l.value.value), l.value.rest));
  }

  // ---- Round trip ----

  lemma DescriptorRoundTrip(r: Residency, rest: bytes)
    requires r.Resident? ==> r.slot < U32_LIMIT
    ensures var d := Get(DESCRIPTOR_KINDS, Put(DESCRIPTOR_KINDS, DescriptorVals(r)) + rest);
            d == Some(Parsed(DescriptorVals(r), rest)) && ResidencyFrom(DescriptorVals(r)) == Some(r)
  {
    ReadsWhatWasWritten(DESCRIPTOR_KINDS, DescriptorVals(r), rest);
  }

  lemma BlockRoundTrip(g: Geometry, acc: Layout, r: Residency, block: bytes, rest: bytes)
    requires (r.Resident? ==> r.slot < U32_LIMIT) && |block| == BlockLen(g, |acc.homes|)
    ensures DecodeBlock(g, acc, Put(DESCRIPTOR_KINDS, DescriptorVals(r)) + (block + rest)) ==
            Some(Parsed(Append(acc, r, block), rest))
  {
    DescriptorRoundTrip(r, block + rest);
    assert (block + rest)[..|block|] == block && (block + rest)[|block|..] == rest;
  }

  lemma DecodesOn(g: Geometry, acc: Layout, n: nat, s: bytes, p: Parsed<Layout>)
    requires n > 0 && DecodeBlock(g, acc, s) == Some(p)
    ensures DecodeBlocks(g, acc, n, s) == DecodeBlocks(g, p.value, n - 1, p.rest)
  {
  }

  lemma FirstBlock(g: Geometry, acc: Layout, homes: seq<Residency>, blocks: seq<bytes>, rest: bytes) returns (next: Layout, tail: bytes)
    requires |homes| == |blocks| && homes != [] && |acc.homes| == |acc.blocks| && BlocksSized(g, |acc.homes|, blocks)
    requires homes[0].Resident? ==> homes[0].slot < U32_LIMIT
    ensures next == Append(acc, homes[0], blocks[0]) && tail == EncodeBlocks(homes[1..], blocks[1..]) + rest
    ensures DecodeBlocks(g, acc, |homes|, EncodeBlocks(homes, blocks) + rest) == DecodeBlocks(g, next, |homes| - 1, tail)
  {
    next, tail := Append(acc, homes[0], blocks[0]), EncodeBlocks(homes[1..], blocks[1..]) + rest;
    EncodeBlocksStep(homes, blocks, rest);
    BlockRoundTrip(g, acc, homes[0], blocks[0], tail);
    DecodesOn(g, acc, |homes|, EncodeBlocks(homes, blocks) + rest, Parsed(next, tail));
  }

  lemma {:induction false} BlocksRoundTrip(g: Geometry, acc: Layout, homes: seq<Residency>, blocks: seq<bytes>, rest: bytes)
    requires |homes| == |blocks| && |acc.homes| == |acc.blocks| && BlocksSized(g, |acc.homes|, blocks)
    requires forall b :: 0 <= b < |homes| && homes[b].Resident? ==> homes[b].slot < U32_LIMIT
    ensures DecodeBlocks(g, acc, |homes|, EncodeBlocks(homes, blocks) + rest) ==
            Some(Parsed(Layout(acc.homes + homes, acc.blocks + blocks), rest))
    decreases |homes|
  {
    if homes == [] {
      assert EncodeBlocks(homes, blocks) + rest == rest;
      assert acc == Layout(acc.homes + homes, acc.blocks + blocks);
    } else {
      var next, tail := FirstBlock(g, acc, homes, blocks, rest);
      SizedTail(g, |acc.homes|, blocks);
      BlocksRoundTrip(g, next, homes[1..], blocks[1..], rest);
      ConsMoves(acc.homes, homes);
      ConsMoves(acc.blocks, blocks);
    }
  }

  lemma EncodeBlocksStep(homes: seq<Residency>, blocks: seq<bytes>, rest: bytes)
    requires |homes| == |blocks| && homes != []
    ensures EncodeBlocks(homes, blocks) + rest ==
            Put(DESCRIPTOR_KINDS, DescriptorVals(homes[0])) + (blocks[0] + (EncodeBlocks(homes[1..], blocks[1..]) + rest))
  {
    var d := Put(DESCRIPTOR_KINDS, DescriptorVals(homes[0]));
    Regroup(d, blocks[0] + EncodeBlocks(homes[1..], blocks[1..]), rest);
    Regroup(blocks[0], EncodeBlocks(homes[1..], blocks[1..]), rest);
  }

  lemma SizedTail(g: Geometry, from: nat, blocks: seq<bytes>)
    requires blocks != [] && BlocksSized(g, from, blocks)
    ensures BlocksSized(g, from + 1, blocks[1..])
  {
    forall i | 0 <= i < |blocks[1..]| ensures |blocks[1..][i]| == BlockLen(g, from + 1 + i) {
      assert blocks[1..][i] == blocks[i + 1];
    }
  }

  lemma ConsMoves<T>(a: seq<T>, b: seq<T>)
    requires b != []
    ensures (a + [b[0]]) + b[1..] == a + b
  {
  }

  /** A machine's own memory section, saved and restored, comes back block for block and slot for slot. */
  lemma SaveThenRestore(g: Geometry, homes: seq<Residency>, blocks: seq<bytes>, rest: bytes)
    requires GeometryTyped(g) && GeometryMatches(g, g) && GoodMap(g, homes)
    requires |blocks| == g.numBlocks && BlocksSized(g, 0, blocks)
    ensures Decode(g, Encode(g, homes, blocks) + rest) == Some(Parsed(Restored(g, Layout(homes, blocks)), rest))
  {
    var body := EncodeBlocks(homes, blocks) + rest;
    Regroup(Put(HEADER_KINDS, HeaderVals(g)), EncodeBlocks(homes, blocks), rest);
    HeaderRoundTrip(g, body);
    GoodRoundTrip(g, homes, blocks, rest);
  }

  lemma HeaderRoundTrip(g: Geometry, rest: bytes)
    requires GeometryTyped(g)
    ensures Get(HEADER_KINDS, Put(HEADER_KINDS, HeaderVals(g)) + rest) == Some(Parsed(HeaderVals(g), rest))
    ensures GeometryFrom(HeaderVals(g)) == g && HeaderVals(g)[0] == SECTION_VERSION
  {
    assert Conforms(HEADER_KINDS, HeaderVals(g));
    ReadsWhatWasWritten(HEADER_KINDS, HeaderVals(g), rest);
  }

  lemma GoodRoundTrip(g: Geometry, homes: seq<Residency>, blocks: seq<bytes>, rest: bytes)
    requires GoodMap(g, homes) && g.residentCapacity < U32_LIMIT && |blocks| == g.numBlocks && BlocksSized(g, 0, blocks)
    ensures DecodeGood(g, EncodeBlocks(homes, blocks) + rest) == Some(Parsed(Layout(homes, blocks), rest))
  {
    BlocksRoundTrip(g, Layout([], []), homes, blocks, rest);
    assert [] + homes == homes && [] + blocks == blocks;
  }
}
