/**
 The 16-bit channels of DMA2 (`rusty_box/src/dma.rs`, lines 444-624): how their words are
 counted and addressed over whole runs, and two places where the code falls short: a
 block of 32768 words or more never completes, and half of what is moved is written.
 */
module DmaWords {
  import opened Base
  import opened Dma8237
  import opened DmaLines
  import opened DmaConservation
  import opened DmaController
  import opened DmaDriver

  function Wide(b: Block): Grant {
    Grant(Two, b.slot)
  }

  // ---- One grant ----

  /**
   A device is never asked for more words than are left, nor for more than the buffer
   holds; and it is asked for some exactly when there are some left, and not 32768.
   */
  lemma WordsAsked(c: Channel, b: Block, moved: nat)
    requires Fits(b) && At(c, b, moved) && moved <= Size(b)
    ensures var left, asked := Size(b) - moved, Asked(Two, c);
            && asked <= left && 2 * asked <= BUFFER_SIZE && (asked >= 1 <==> left > 0 && left != 0x8000)
            && (left >= 0x8000 ==> asked <= left - 0x8000)
  {
    var left := Size(b) - moved;
    if left == 0 {
      assert c.count == EXPIRED;
    } else {
      assert c.count == left - 1;
    }
  }

  /** One grant moves on by what the device delivered, and expires exactly at the end. */
  lemma WordsMove(c: Channel, b: Block, moved: nat, len: nat)
    requires Fits(b) && At(c, b, moved) && moved <= Size(b) && len <= Asked(Two, c)
    ensures moved + len <= Size(b) && At(Advance(c, len), b, moved + len)
    ensures Advance(c, len).count == EXPIRED <==> moved + len == Size(b)
    ensures b.autoinit ==> At(Reload(Advance(c, len)), b, 0)
    ensures !b.autoinit ==> Reload(Advance(c, len)) == Advance(c, len)
  {
    WordsAsked(c, b, moved);
    AdvanceMoves(c, b, moved, len);
    CountExpires(b.count, moved + len);
  }

  /** Where a grant goes: words from an even page number on, 65536 of them, and from an odd one 32768. */
  lemma WordAddress(c: Channel)
    ensures c.page % 2 == 0 ==> Physical(Two, c) == c.page * 0x1_0000 + 2 * c.address
    ensures c.page % 2 == 1 ==> Physical(Two, c) == c.page * 0x1_0000 + (2 * c.address) % 0x1_0000
  {
  }

  /** A hold moves channel `k` of DMA2 only by serving it. */
  lemma HoldMovesWords(s: State, a: Answer, k: Slot)
    requires k != 0
    ensures var o, c := RaiseHlda(s, a), s.high.chan[k];
            if o.transfer.Some? && MovedBy(o.transfer.value, k) then
              var len := o.transfer.value.len;
              && Granted(s) == Some(Grant(Two, k)) && Some(len) == Moved(s, Grant(Two, k), a)
              && o.transfer.value.address == Physical(Two, c)
              && (c.mode.transfer == WRITE ==> o.transfer.value.data == Prefix(a.buffer, len))
              && o.transfer.value.expired == (Advance(c, len).count == EXPIRED)
              && o.state.high.chan[k] == Served(c, len)
            else o.state.high.chan[k] == c
  {
    if Granted(s).Some? && Moved(s, Granted(s).value, a).Some? {
      var g := Granted(s).value;
      ExpireKeepsWords(Move(Granting(s), g, Moved(s, g, a).value), g);
    }
  }

  predicate MovedBy(t: Transfer, k: Slot) {
    t.grant == Grant(Two, k)
  }

  lemma ExpireKeepsWords(s: State, g: Grant)
    ensures Expire(s, g).high.chan == if g.unit.Two? then s.high.chan[g.slot := Reload(s.high.chan[g.slot])] else s.high.chan
  {
    if g.unit.One? {
      var s1 := s.(low := ExpiredChip(s.low, g.slot), tc := false, hlda := false, hrq := Some(false));
      CascadeFrame(s1, false);
    }
  }

  // ---- Over a run ----

  /** The words channel `k` of DMA2 moved. */
  function Words(trace: seq<Transfer>, k: Slot): nat {
    if trace == [] then 0
    else
      var t := trace[|trace| - 1];
      Words(trace[..|trace| - 1], k) + if MovedBy(t, k) then t.len else 0
  }

  /** The bytes that were written to memory for it. */
  function BytesWritten(trace: seq<Transfer>, k: Slot): nat {
    if trace == [] then 0
    else
      var t := trace[|trace| - 1];
      BytesWritten(trace[..|trace| - 1], k) + if MovedBy(t, k) then |t.data| else 0
  }

  function Ends(trace: seq<Transfer>, k: Slot): nat {
    if trace == [] then 0
    else
      var t := trace[|trace| - 1];
      Ends(trace[..|trace| - 1], k) + if MovedBy(t, k) && t.expired then 1 else 0
  }

  lemma WordsGrow(trace: seq<Transfer>, t: Transfer, k: Slot)
    ensures Words(trace + [t], k) == Words(trace, k) + if MovedBy(t, k) then t.len else 0
    ensures BytesWritten(trace + [t], k) == BytesWritten(trace, k) + if MovedBy(t, k) then |t.data| else 0
    ensures Ends(trace + [t], k) == Ends(trace, k) + if MovedBy(t, k) && t.expired then 1 else 0
  {
    assert (trace + [t])[..|trace|] == trace;
  }

  /** How far into its block the channel is. */
  function WordsInto(trace: seq<Transfer>, b: Block): int {
    Words(trace, b.slot) - if b.autoinit then Ends(trace, b.slot) * Size(b) else 0
  }

  ghost predicate WordProgress(h: History, b: Block) {
    var moved, ends := WordsInto(h.trace, b), Ends(h.trace, b.slot);
    && 0 <= moved && At(h.state.high.chan[b.slot], b, moved)
    && (b.autoinit ==> moved < Size(b))
    && (!b.autoinit ==> moved <= Size(b) && (ends > 0 <==> moved == Size(b)))
    && (Size(b) >= 0x8000 ==> moved <= Size(b) - 0x8000 && ends == 0)
    && BytesWritten(h.trace, b.slot) == Words(h.trace, b.slot)
  }

  lemma IntoGrows(trace: seq<Transfer>, t: Transfer, b: Block)
    requires MovedBy(t, b.slot)
    ensures WordsInto(trace + [t], b) == WordsInto(trace, b) + t.len - if t.expired && b.autoinit then Size(b) else 0
  {
    WordsGrow(trace, t, b.slot);
    LapsGrow(Ends(trace, b.slot), Size(b));
  }

  lemma WordsServed(h: History, t: Transfer, after: State, b: Block)
    requires Fits(b) && WordProgress(h, b) && MovedBy(t, b.slot)
    requires var c := h.state.high.chan[b.slot];
             && |t.data| == t.len <= Asked(Two, c) && t.expired == (Advance(c, t.len).count == EXPIRED)
             && after.high.chan[b.slot] == Served(c, t.len)
    ensures WordProgress(History(after, h.trace + [t]), b)
  {
    var c, moved := h.state.high.chan[b.slot], WordsInto(h.trace, b);
    WordsGrow(h.trace, t, b.slot);
    IntoGrows(h.trace, t, b);
    WordsAsked(c, b, moved);
    WordsMove(c, b, moved, t.len);
  }

  lemma WordsSkipped(h: History, t: Transfer, after: State, b: Block)
    requires WordProgress(h, b) && !MovedBy(t, b.slot) && after.high.chan[b.slot] == h.state.high.chan[b.slot]
    ensures WordProgress(History(after, h.trace + [t]), b)
  {
    WordsGrow(h.trace, t, b.slot);
    assert WordsInto(h.trace + [t], b) == WordsInto(h.trace, b);
  }

  lemma SameWords(h: History, t: History, b: Block)
    requires WordProgress(h, b) && t.trace == h.trace
    requires t.state.high.chan[b.slot] == h.state.high.chan[b.slot].(used := t.state.high.chan[b.slot].used)
    ensures WordProgress(t, b)
  {
  }

  /** What a write channel of DMA2 writes for a grant: as many bytes as it moved words. */
  lemma WordData(s: State, a: Answer, b: Block)
    requires Honest(s, a) && Programmed(s.high.chan[b.slot], b) && b.slot != 0
    requires RaiseHlda(s, a).transfer.Some? && MovedBy(RaiseHlda(s, a).transfer.value, b.slot)
    ensures |RaiseHlda(s, a).transfer.value.data| == RaiseHlda(s, a).transfer.value.len <= Asked(Two, s.high.chan[b.slot])
  {
    HoldMovesWords(s, a, b.slot);
  }

  lemma WordHold(h: History, a: Answer, b: Block)
    requires Fits(b) && WordProgress(h, b) && Honest(h.state, a) && b.slot != 0
    ensures WordProgress(Extend(h, Hold(a)), b)
  {
    var o := RaiseHlda(h.state, a);
    HoldMovesWords(h.state, a, b.slot);
    if o.transfer.None? {
      SameWords(h, History(o.state, h.trace), b);
    } else if MovedBy(o.transfer.value, b.slot) {
      WordData(h.state, a, b);
      WordsServed(h, o.transfer.value, o.state, b);
    } else {
      WordsSkipped(h, o.transfer.value, o.state, b);
    }
  }

  lemma WordOther(h: History, op: Op, b: Block)
    requires WordProgress(h, b) && !op.Hold? && !Reprograms(op, Wide(b))
    ensures WordProgress(Extend(h, op), b)
  {
    OtherStepsLeave(h.state, op, Wide(b));
    SameWords(h, Extend(h, op), b);
  }

  /**
   Over every run the registers say how many words were moved; the count expires once a
   lap, or without autoinit exactly when the block is complete; a block of 32768 words or
   more stops 32768 short of its end and never expires; and as many bytes are written as
   words are moved.
   */
  lemma {:induction false} WordConservation(h: History, ops: seq<Op>, b: Block)
    requires Fits(b) && b.slot != 0 && WordProgress(h, b) && Undisturbed(h, ops, Wide(b))
    ensures WordProgress(Play(h, ops), b)
    decreases |ops|
  {
    if ops != [] {
      var op := ops[0];
      if op.Hold? {
        WordHold(h, op.answer, b);
      } else {
        WordOther(h, op, b);
      }
      WordConservation(Extend(h, op), ops[1..], b);
    }
  }

  lemma FreshWords(s: State, b: Block)
    requires Fits(b) && At(s.high.chan[b.slot], b, 0)
    ensures WordProgress(History(s, []), b)
  {
  }

  /** So half of what is moved reaches memory: all of it exactly when nothing was moved. */
  lemma HalfIsWritten(h: History, b: Block)
    requires WordProgress(h, b)
    ensures BytesWritten(h.trace, b.slot) == Words(h.trace, b.slot)
    ensures BytesWritten(h.trace, b.slot) == 2 * Words(h.trace, b.slot) <==> Words(h.trace, b.slot) == 0
  {
  }

  /** And the other half is left out grant by grant: within a page the next grant begins twice as far on as was written. */
  lemma GrantsLeaveGaps(c: Channel, b: Block, moved: nat, len: nat)
    requires Fits(b) && At(c, b, moved) && len <= Asked(Two, c) && moved <= Size(b)
    requires b.page % 2 == 0 && b.base + moved + len <= 0xFFFF
    ensures Physical(Two, Advance(c, len)) == Physical(Two, c) + 2 * len
  {
    WordsMove(c, b, moved, len);
    WordAddress(c);
    WordAddress(Advance(c, len));
  }

  /** The channel `moved` words into its block. */
  function AfterWords(c: Channel, b: Block, moved: nat): Channel {
    c.(address := Wrap(b.base + moved), count := Wrap(b.count - moved))
  }

  /** A device is asked for more until the block is complete exactly if it has fewer than 32768 words. */
  lemma AskedUntilComplete(c: Channel, b: Block)
    requires Fits(b) && Programmed(c, b)
    ensures (forall moved: nat :: moved < Size(b) ==> Asked(Two, AfterWords(c, b, moved)) >= 1) <==> Size(b) < 0x8000
  {
    forall moved: nat | moved < Size(b)
      ensures Asked(Two, AfterWords(c, b, moved)) >= 1 <==> Size(b) - moved != 0x8000
    {
      WordsAsked(AfterWords(c, b, moved), b, moved);
    }
    if Size(b) >= 0x8000 {
      assert !(Asked(Two, AfterWords(c, b, Size(b) - 0x8000)) >= 1);
    }
  }

  // ---- Through the ports ----

  function WideJob(b: Block, kind: nat): Job {
    Job(Two, b.slot, Mode(kind, false, b.autoinit, WRITE), b.page, b.base, b.count)
  }

  /** Programmed through the ports of DMA2, over any run that then leaves the channel alone. */
  lemma WideDriverTransfers(s: State, b: Block, kind: nat, any: byte, ops: seq<Op>) returns (t: State)
    requires kind < 4 && Fits(b) && b.slot != 0
    requires Undisturbed(History(Writes(s, DriverWrites(WideJob(b, kind), any)), []), ops, Wide(b))
    ensures t == Writes(s, DriverWrites(WideJob(b, kind), any))
    ensures At(t.high.chan[b.slot], b, 0) && b.slot !in t.high.mask && WordProgress(Play(History(t, []), ops), b)
  {
    t := DriverPrograms(s, WideJob(b, kind), any);
    WrapsSmall(b.base);
    WrapsSmall(b.count);
    FreshWords(t, b);
    WordConservation(History(t, []), ops, b);
  }

  /** In particular a block of exactly 32768 words moves nothing at all, whatever the device does. */
  lemma LargeBlockStalls(s: State, b: Block, kind: nat, any: byte, ops: seq<Op>) returns (t: State)
    requires kind < 4 && b.slot != 0 && b.count == 0x7FFF
    requires Undisturbed(History(Writes(s, DriverWrites(WideJob(b, kind), any)), []), ops, Wide(b))
    ensures t == Writes(s, DriverWrites(WideJob(b, kind), any)) && Words(Play(History(t, []), ops).trace, b.slot) == 0
  {
    t := WideDriverTransfers(s, b, kind, any, ops);
  }

  /** A request on channel 5, 6 or 7 brings the next hold to it if nothing more urgent waits, the cascade included. */
  lemma WideRequestIsGranted(s: State, k: Slot)
    requires k != 0 && !s.high.disabled && s.high.chan[k].used && k !in s.high.mask
    requires forall j: Slot :: j < k && j in s.high.request ==> j in s.high.mask
    ensures Granted(SetDrq(s, 4 + k, true)) == Some(Grant(Two, k))
  {
    var c := s.high.(drq := s.high.drq + {k}, request := s.high.request + {k});
    var t := SetDrq(s, 4 + k, true);
    assert t == ControlHrq(s.(high := c), Two);
    assert k in Eligible(c);
    assert IsLowest(Eligible(t.high), k);
    GrantIsLowest(t, Grant(Two, k));
  }
}
