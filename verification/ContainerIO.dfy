/**
 The readers and writers of `rusty_box/src/snapshot.rs` (lines 273-364 and 522-682) at
 work: a bounded reader that can be skipped or must be used up, a bounded writer, and
 the section loop, each doing to its stream what `Container` says.
 */
module ContainerIO {
  import opened Base
  import opened Wire
  import opened Container

  datatype SnapError = Truncated | TrailingBytes | Overran(section: nat) | UnderRan(short: nat) | LengthOutOfRange

  /** Bytes in memory, consumed from the front. */
  class Source {
    var data: bytes

    constructor (data: bytes)
      ensures this.data == data
    {
      this.data := data;
    }

    /** All of the bytes asked for, or none. */
    method ReadBytes(n: nat) returns (r: Option<bytes>)
      modifies this
      ensures |old(data)| < n ==> r == None && data == old(data)
      ensures n <= |old(data)| ==> r == Some(old(data)[..n]) && data == old(data)[n..]
    {
      if |data| < n {
        return None;
      }
      r := Some(data[..n]);
      data := data[n..];
    }
  }

  /** `SnapshotReader`: a section can only ever see its own bytes. */
  class BoundedReader {
    const inner: Source
    var remaining: nat

    constructor (inner: Source, remaining: nat)
      ensures this.inner == inner && this.remaining == remaining
    {
      this.inner, this.remaining := inner, remaining;
    }

    method ReadBytes(n: nat) returns (r: Result)
      modifies this, inner
      ensures n <= old(remaining) && n <= |old(inner.data)| ==>
                r == Bytes(old(inner.data)[..n]) && inner.data == old(inner.data)[n..] && remaining == old(remaining) - n
      ensures !(n <= old(remaining) && n <= |old(inner.data)|) ==>
                r == Failed(Truncated) && inner.data == old(inner.data) && remaining == old(remaining)
    {
      if n > remaining {
        return Failed(Truncated);
      }
      var b := inner.ReadBytes(n);
      if b.None? {
        return Failed(Truncated);
      }
      remaining := remaining - n;
      return Bytes(b.value);
    }

    /** Consume whatever is left, 64 KiB at a time. */
    method Discard() returns (ok: bool)
      modifies this, inner
      ensures ok <==> old(remaining) <= |old(inner.data)|
      ensures ok ==> remaining == 0 && inner.data == old(inner.data)[old(remaining)..]
    {
      while remaining != 0
        invariant old(remaining) - |old(inner.data)| == remaining - |inner.data| && remaining <= old(remaining)
        invariant old(remaining) - remaining <= |old(inner.data)|
        invariant inner.data == old(inner.data)[old(remaining) - remaining..]
        decreases remaining
      {
        var n := if remaining < 0x1_0000 then remaining else 0x1_0000;
        var r := ReadBytes(n);
        if r.Failed? {
          return false;
        }
      }
      return true;
    }

    /** A device must consume its section exactly. */
    method FinishExact() returns (error: Option<SnapError>)
      ensures error == if remaining == 0 then None else Some(TrailingBytes)
    {
      return if remaining == 0 then None else Some(TrailingBytes);
    }
  }

  datatype Result = Bytes(bytes: bytes) | Failed(error: SnapError)

  // ---- The section loop ----

  method ReadInteger(src: Source, width: nat) returns (r: Option<nat>)
    modifies src
    ensures |old(src.data)| < width ==> r == None && src.data == old(src.data)
    ensures width <= |old(src.data)| ==>
              r == Some(FromLittleEndian(old(src.data)[..width])) && src.data == old(src.data)[width..]
  {
    var b := src.ReadBytes(width);
    if b.None? {
      return None;
    }
    return Some(FromLittleEndian(b.value));
  }

  method ReadSectionHeader(src: Source) returns (f: Option<Frame>)
    modifies src
    ensures f == ReadFrame(old(src.data))
    ensures f.Some? ==> src.data == f.value.rest
  {
    var id := ReadInteger(src, 4);
    if id.None? {
      return None;
    }
    var len := ReadInteger(src, 8);
    if len.None? {
      return None;
    }
    ghost var s := old(src.data);
    assert s[4..][..8] == s[4..12] && s[4..][8..] == s[12..];
    return Some(Frame(id.value, len.value, src.data));
  }

  /** A known section: bounded, decoded, and finished exactly. */
  method DecodeSection(src: Source, dec: Decoder, limit: nat, len: nat, done: seq<bytes>) returns (body: Option<bytes>)
    modifies src
    ensures var s := old(src.data);
            body.Some? <==> len <= limit && dec(done, Window(s, len)) == Some(len)
    ensures body.Some? ==> len <= |old(src.data)| && body == Some(old(src.data)[..len]) && src.data == old(src.data)[len..]
  {
    if len > limit {
      return None;
    }
    var section := new BoundedReader(src, len);
    var used := dec(done, Window(src.data, len));
    if used.None? {
      return None;
    }
    var r := section.ReadBytes(used.value);
    if r.Failed? {
      return None;
    }
    var error := section.FinishExact();
    if error.Some? {
      return None;
    }
    return Some(r.bytes);
  }

  /** One section of the stream: the next in order is restored, an unknown one skipped. */
  method LoadSection(src: Source, dec: Decoder, memoryLen: nat, done: seq<bytes>) returns (next: Option<seq<bytes>>)
    modifies src
    ensures next.Some? <==> Turn(dec, memoryLen, done, old(src.data)).Some?
    ensures next.Some? ==> Turn(dec, memoryLen, done, old(src.data)) == Some(Progress(next.value, src.data))
  {
    var f := ReadSectionHeader(src);
    if f.None? {
      return None;
    }
    var id, len := f.value.id, f.value.len;
    if |done| == |ORDER| || |done| > |ORDER| || id != ORDER[|done|] {
      if id in ORDER || len > MAX_SECTION_LEN {
        return None;
      }
      var extension := new BoundedReader(src, len);
      var ok := extension.Discard();
      return if ok then Some(done) else None;
    }
    var body := DecodeSection(src, dec, SectionLimit(memoryLen, id), len, done);
    return if body.Some? then Some(done + [body.value]) else None;
  }

  method RestoreSnapshot(src: Source, dec: Decoder, memoryLen: nat) returns (r: Option<seq<bytes>>)
    modifies src
    ensures r == Restore(dec, memoryLen, old(src.data))
  {
    ghost var s := src.data;
    var magic := src.ReadBytes(8);
    if magic.None? || magic.value != MAGIC {
      return None;
    }
    var version := ReadInteger(src, 4);
    if version.None? || version.value != CONTAINER_VERSION {
      assert |s| >= 12 ==> s[8..][..4] == s[8..12];
      return None;
    }
    var count := ReadInteger(src, 4);
    if count.None? {
      return None;
    }
    assert s[8..][..4] == s[8..12] && s[8..][4..][..4] == s[12..16] && s[8..][4..][4..] == s[16..];
    if !(|ORDER| <= count.value <= MAX_COUNT) {
      return None;
    }
    var done: seq<bytes> := [];
    var i := 0;
    while i < count.value
      invariant i <= count.value
      invariant Load(dec, memoryLen, count.value, [], s[16..]) == Load(dec, memoryLen, count.value - i, done, src.data)
    {
      var next := LoadSection(src, dec, memoryLen, done);
      if next.None? {
        return None;
      }
      done := next.value;
      i := i + 1;
    }
    if |done| != |ORDER| || src.data != [] {
      return None;
    }
    return Some(done);
  }

  // ---- Writing ----

  class Sink {
    var data: bytes

    constructor ()
      ensures data == []
    {
      data := [];
    }

    method WriteBytes(b: bytes)
      modifies this
      ensures data == old(data) + b
    {
      data := data + b;
    }
  }

  function Concat(chunks: seq<bytes>): bytes {
    if chunks == [] then [] else Concat(chunks[..|chunks| - 1]) + chunks[|chunks| - 1]
  }

  lemma {:induction false} ConcatGrows(chunks: seq<bytes>, n: nat)
    requires n <= |chunks|
    ensures |Concat(chunks[..n])| <= |Concat(chunks)|
    decreases |chunks|
  {
    if n < |chunks| {
      var m := |chunks| - 1;
      ConcatGrows(chunks[..m], n);
      assert chunks[..m][..n] == chunks[..n];
    } else {
      assert chunks[..n] == chunks;
    }
  }

  /** `SectionWriter`: a device cannot write past the length it declared. */
  class BoundedWriter {
    const inner: Sink
    const id: nat
    var remaining: nat

    constructor (inner: Sink, id: nat, remaining: nat)
      ensures this.inner == inner && this.id == id && this.remaining == remaining
    {
      this.inner, this.id, this.remaining := inner, id, remaining;
    }

    method WriteBytes(b: bytes) returns (error: Option<SnapError>)
      modifies this, inner
      ensures |b| <= old(remaining) ==>
                error == None && remaining == old(remaining) - |b| && inner.data == old(inner.data) + b
      ensures |b| > old(remaining) ==>
                error == Some(Overran(id)) && remaining == old(remaining) && inner.data == old(inner.data)
    {
      if |b| > remaining {
        return Some(Overran(id));
      }
      inner.WriteBytes(b);
      remaining := remaining - |b|;
      return None;
    }

    /** A device's writes, one after another, stopping at the first that overruns. */
    method WriteAll(chunks: seq<bytes>) returns (error: Option<SnapError>)
      modifies this, inner
      ensures |Concat(chunks)| <= old(remaining) ==>
                error == None && remaining == old(remaining) - |Concat(chunks)| &&
                inner.data == old(inner.data) + Concat(chunks)
      ensures |Concat(chunks)| > old(remaining) ==> error == Some(Overran(id))
    {
      var i := 0;
      while i < |chunks|
        invariant i <= |chunks| && |Concat(chunks[..i])| + remaining == old(remaining)
        invariant inner.data == old(inner.data) + Concat(chunks[..i])
      {
        assert chunks[..i + 1][..i] == chunks[..i];
        error := WriteBytes(chunks[i]);
        if error.Some? {
          ConcatGrows(chunks, i + 1);
          return;
        }
        i := i + 1;
      }
      assert chunks[..i] == chunks;
      return None;
    }
  }

  /**
   `write_section_with_limit`, the body being the chunks a device writes. It succeeds
   exactly when the device writes what it declared, and then the section is framed
   whole; otherwise the error says whether too much or too little was written.
   */
  method WriteSection(out: Sink, id: nat, len: nat, maximum: nat, chunks: seq<bytes>) returns (error: Option<SnapError>)
    modifies out
    ensures error.None? <==> len <= maximum && |Concat(chunks)| == len
    ensures error.None? ==> out.data == old(out.data) + PrintSection(Section(id, Concat(chunks)))
    ensures error == Some(LengthOutOfRange) <==> len > maximum
    ensures error == Some(Overran(id)) <==> len <= maximum && |Concat(chunks)| > len
    ensures error == Some(UnderRan(id)) <==> len <= maximum && |Concat(chunks)| < len
    ensures len > maximum ==> out.data == old(out.data)
  {
    if len > maximum {
      return Some(LengthOutOfRange);
    }
    out.WriteBytes(LittleEndian(id, 4));
    out.WriteBytes(LittleEndian(len, 8));
    var section := new BoundedWriter(out, id, len);
    error := section.WriteAll(chunks);
    if error.Some? {
      return;
    }
    if section.remaining != 0 {
      return Some(UnderRan(id));
    }
    Regroup(old(out.data) + LittleEndian(id, 4), LittleEndian(len, 8), Concat(chunks));
    Regroup(old(out.data), LittleEndian(id, 4), LittleEndian(len, 8) + Concat(chunks));
    return None;
  }
}
