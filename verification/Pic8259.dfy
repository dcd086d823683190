/**
 One 8259A interrupt controller (`rusty_box/src/pic.rs`, lines 193-378).

 The eight-bit registers are sets of lines: bit `l` of a register is set exactly
 when line `l` is in the set. Priority rotates: the line after `lowest` is the most
 urgent, and rank counts from there.
 */
module Pic8259 {
  import opened Base

  type Line = n: nat | n < 8

  /** Where the initialization sequence put the vectors, and how far it has got. */
  datatype Program = Program(offset: byte, inInit: bool, requires4: bool, byteExpected: byte)

  /** Modes that bear on nothing here but what a read shows and how auto-EOI rotates. */
  datatype Modes = Modes(
    sfnm: bool,
    bufferedMode: bool,
    masterSlave: bool,
    rotateOnAutoEoi: bool,
    readIsr: bool,
    polled: bool)

  datatype Chip = Chip(
    master: bool,
    imr: set<Line>,
    isr: set<Line>,
    irr: set<Line>,
    irqIn: set<Line>,
    edgeLevel: set<Line>,
    irq: Line,
    lowest: Line,
    intPin: bool,
    specialMask: bool,
    autoEoi: bool,
    program: Program,
    modes: Modes)

  datatype Action = NoAction | RaiseIntr | ClearIntr | RaiseCascade | LowerCascade

  const ALL_LINES: set<Line> := {0, 1, 2, 3, 4, 5, 6, 7}

  function Highest(c: Chip): Line {
    if c.lowest == 7 then 0 else c.lowest + 1
  }

  /** The line of rank `k`, rank 0 being the most urgent. */
  function At(c: Chip, k: nat): Line
    requires k <= 8
  {
    if Highest(c) + k < 8 then Highest(c) + k else Highest(c) + k - 8
  }

  function Rank(c: Chip, l: Line): (k: nat)
    ensures k < 8 && At(c, k) == l
  {
    if l >= Highest(c) then l - Highest(c) else l + 8 - Highest(c)
  }

  lemma RankAt(c: Chip, k: nat)
    requires k < 8
    ensures Rank(c, At(c, k)) == k
  {
  }

  lemma AtStep(c: Chip, k: nat)
    requires k < 8
    ensures At(c, k + 1) == if At(c, k) == 7 then 0 else At(c, k) + 1
  {
  }

  lemma AtDistinct(c: Chip, j: nat, k: nat)
    requires j <= k <= 8 && k < j + 8 && At(c, j) == At(c, k)
    ensures j == k
  {
  }

  // ---- Registers as bytes ----

  predicate HasBit(v: nat, l: nat) {
    if l == 0 then v % 2 == 1 else HasBit(v / 2, l - 1)
  }

  function Lines(v: byte): set<Line> {
    set l | l in ALL_LINES && HasBit(v, l)
  }

  /** Lines `l` and up, as a number with line `l` in its lowest bit. */
  function BitsFrom(s: set<Line>, l: nat): (v: nat)
    requires l <= 8
    decreases 8 - l
  {
    if l == 8 then 0 else (if l in s then 1 else 0) + 2 * BitsFrom(s, l + 1)
  }

  function ByteOf(s: set<Line>): byte {
    BitsFromFits(s);
    BitsFrom(s, 0)
  }

  lemma BitsFromFits(s: set<Line>)
    ensures BitsFrom(s, 0) < 256
  {
    assert BitsFrom(s, 6) <= 1 + 2 * 1;
    assert BitsFrom(s, 4) <= 1 + 2 * (1 + 2 * BitsFrom(s, 6));
    assert BitsFrom(s, 2) <= 1 + 2 * (1 + 2 * BitsFrom(s, 4));
  }

  lemma {:induction false} BitOfBits(s: set<Line>, l: nat, k: Line)
    requires l <= k
    ensures HasBit(BitsFrom(s, l), k - l) <==> k in s
    decreases k - l
  {
    if l < k {
      assert BitsFrom(s, l) / 2 == BitsFrom(s, l + 1);
      BitOfBits(s, l + 1, k);
    }
  }

  lemma LinesOfByte(s: set<Line>)
    ensures Lines(ByteOf(s)) == s
  {
    forall l: Line ensures l in Lines(ByteOf(s)) <==> l in s {
      BitOfBits(s, 0, l);
      assert l in ALL_LINES;
    }
  }

  // ---- What the chip should do ----

  /**
   A request is eligible when it is not masked and, in special mask mode, not itself
   in service; otherwise when it outranks everything in service.
   */
  predicate Eligible(c: Chip, l: Line) {
    && l in c.irr && l !in c.imr
    && if c.specialMask then l !in c.isr
       else forall s | s in c.isr :: Rank(c, l) < Rank(c, s)
  }

  function EligibleSet(c: Chip): set<Line> {
    set l | l in c.irr && Eligible(c, l)
  }

  predicate IsMostUrgent(c: Chip, s: set<Line>, l: Line) {
    l in s && forall m | m in s :: Rank(c, l) <= Rank(c, m)
  }

  lemma MostUrgentIsUnique(c: Chip, s: set<Line>, l: Line, m: Line)
    requires IsMostUrgent(c, s, l) && IsMostUrgent(c, s, m)
    ensures l == m
  {
    assert At(c, Rank(c, l)) == At(c, Rank(c, m));
  }

  /** The most urgent line of a nonempty set, from rank `k` on. */
  function FirstFrom(c: Chip, s: set<Line>, k: nat): (l: Line)
    requires k < 8 && s != {} && forall m | m in s :: k <= Rank(c, m)
    ensures IsMostUrgent(c, s, l)
    decreases 8 - k
  {
    if At(c, k) in s then
      RankAt(c, k);
      At(c, k)
    else
      assert forall m | m in s :: Rank(c, m) != k;
      SomeRankBeyond(c, s, k);
      FirstFrom(c, s, k + 1)
  }

  lemma SomeRankBeyond(c: Chip, s: set<Line>, k: nat)
    requires k < 8 && s != {} && forall m | m in s :: k < Rank(c, m)
    ensures k + 1 < 8
  {
    var m :| m in s;
  }

  function MostUrgent(c: Chip, s: set<Line>): (l: Line)
    requires s != {}
    ensures IsMostUrgent(c, s, l)
  {
    FirstFrom(c, s, 0)
  }

  datatype Served = Served(chip: Chip, action: Action)

  /** Nothing is asked of a chip whose most urgent line is already in service. */
  predicate Saturated(c: Chip) {
    !c.specialMask && Highest(c) in c.isr
  }

  /**
   What servicing the chip does: with INT low, raise it for the most urgent eligible
   request; with INT high and nothing unmasked, drop it; otherwise nothing.
   */
  function Serve(c: Chip): Served {
    if Saturated(c) then Served(c, NoAction)
    else if !c.intPin then
      if EligibleSet(c) == {} then Served(c, NoAction)
      else
        Served(c.(intPin := true, irq := MostUrgent(c, EligibleSet(c))), if c.master then RaiseIntr else RaiseCascade)
    else if c.irr - c.imr == {} then
      Served(c.(intPin := false), if c.master then ClearIntr else LowerCascade)
    else Served(c, NoAction)
  }

  function Retire(c: Chip): Chip {
    if c.isr == {} then c else c.(isr := c.isr - {MostUrgent(c, c.isr)})
  }

  // ---- How it does it ----

  lemma AllRanksCovered(c: Chip, s: set<Line>, r: nat)
    requires r == 8 && forall k :: 0 <= k < r ==> At(c, k) !in s
    ensures s == {}
  {
    forall l: Line ensures l !in s {
      assert At(c, Rank(c, l)) !in s;
    }
  }

  lemma FirstFoundIsMostUrgent(c: Chip, s: set<Line>, k: nat)
    requires k < 8 && At(c, k) in s && forall j :: 0 <= j < k ==> At(c, j) !in s
    ensures At(c, k) == MostUrgent(c, s)
  {
    RankAt(c, k);
    forall m | m in s ensures k <= Rank(c, m) {
      assert At(c, Rank(c, m)) == m;
    }
    MostUrgentIsUnique(c, s, At(c, k), MostUrgent(c, s));
  }

  /** `clear_highest_interrupt`: the loop from the most urgent line round to it again. */
  method ClearHighestInterrupt(c: Chip) returns (r: Chip)
    ensures r == Retire(c)
  {
    r := c;
    var highest: nat := c.lowest + 1;
    if highest > 7 {
      highest := 0;
    }
    var irq := highest;
    ghost var k := 0;
    while true
      invariant 0 <= k < 8 && irq == At(c, k) && highest == Highest(c) && r == c
      invariant forall j :: 0 <= j < k ==> At(c, j) !in c.isr
      decreases 8 - k
    {
      if irq in c.isr {
        FirstFoundIsMostUrgent(c, c.isr, k);
        r := c.(isr := c.isr - {irq});
        break;
      }
      AtStep(c, k);
      irq := irq + 1;
      if irq > 7 {
        irq := 0;
      }
      k := k + 1;
      if irq == highest {
        AtDistinct(c, k, 8);
        AllRanksCovered(c, c.isr, k);
        break;
      }
    }
  }

  /** The first line in service in rotated order, where the scan for requests must stop. */
  method BlockingLine(c: Chip) returns (maxIrq: Line)
    requires c.isr != {}
    ensures maxIrq == MostUrgent(c, c.isr)
  {
    maxIrq := Highest(c);
    ghost var k := 0;
    while maxIrq !in c.isr
      invariant 0 <= k < 8 && maxIrq == At(c, k)
      invariant forall j :: 0 <= j < k ==> At(c, j) !in c.isr
      decreases 8 - k
    {
      if k == 7 {
        AllRanksCovered(c, c.isr, 8);
      }
      AtStep(c, k);
      maxIrq := if maxIrq == 7 then 0 else maxIrq + 1;
      k := k + 1;
    }
    FirstFoundIsMostUrgent(c, c.isr, k);
  }

  /** How many ranks the scan visits. */
  ghost function ScanLength(c: Chip): nat {
    if c.specialMask || c.isr == {} then 8 else Rank(c, MostUrgent(c, c.isr))
  }

  lemma EligibleIsScanned(c: Chip, k: nat)
    requires k < 8
    ensures At(c, k) in EligibleSet(c) <==>
            At(c, k) in c.irr - c.imr && k < ScanLength(c) && !(c.specialMask && At(c, k) in c.isr)
  {
    RankAt(c, k);
    var l := At(c, k);
    if !c.specialMask && c.isr != {} {
      var top := MostUrgent(c, c.isr);
      assert (forall s | s in c.isr :: k < Rank(c, s)) <==> k < Rank(c, top);
    }
  }

  /** The scan of `service` from the most urgent line up to `maxIrq`. */
  method ScanRequests(c: Chip, maxIrq: Line) returns (found: Option<Line>)
    requires 0 < ScanLength(c) && maxIrq == At(c, ScanLength(c))
    ensures found == if c.intPin || EligibleSet(c) == {} then None else Some(MostUrgent(c, EligibleSet(c)))
  {
    found := None;
    var unmasked := c.irr - c.imr;
    var irq := Highest(c);
    ghost var k, stop, eligible := 0, ScanLength(c), EligibleSet(c);
    while true
      invariant 0 <= k < stop <= 8 && irq == At(c, k) && found == None
      invariant !c.intPin ==> forall j :: 0 <= j < k ==> At(c, j) !in eligible
      decreases 8 - k
    {
      EligibleIsScanned(c, k);
      if !(c.specialMask && irq in c.isr) {
        if !c.intPin && irq in unmasked {
          FirstFoundIsMostUrgent(c, eligible, k);
          return Some(irq);
        }
      }
      AtStep(c, k);
      irq := if irq == 7 then 0 else irq + 1;
      k := k + 1;
      if irq == maxIrq {
        AtDistinct(c, k, stop);
        break;
      }
    }
    if !c.intPin {
      NothingEligible(c);
    }
  }

  lemma SaturatedMeansBlocked(c: Chip)
    requires !c.specialMask && c.isr != {}
    ensures Saturated(c) <==> MostUrgent(c, c.isr) == Highest(c)
    ensures Saturated(c) <==> ScanLength(c) == 0
  {
    RankAt(c, 0);
    assert Highest(c) == At(c, 0);
    if Highest(c) in c.isr {
      MostUrgentIsUnique(c, c.isr, Highest(c), MostUrgent(c, c.isr));
    }
  }

  /** `service`, with its two wrap-around loops. */
  method Service(c: Chip) returns (r: Chip, action: Action)
    ensures Served(r, action) == Serve(c)
  {
    r, action := c, NoAction;
    var highest := Highest(c);
    var maxIrq := highest;
    if !c.specialMask && c.isr != {} {
      SaturatedMeansBlocked(c);
      maxIrq := BlockingLine(c);
      if maxIrq == highest {
        return;
      }
    }
    var unmasked := c.irr - c.imr;
    if unmasked != {} {
      var found := ScanRequests(c, maxIrq);
      if found.Some? {
        r := c.(intPin := true, irq := found.value);
        action := if c.master then RaiseIntr else RaiseCascade;
      }
    } else if c.intPin {
      r := c.(intPin := false);
      action := if c.master then ClearIntr else LowerCascade;
    }
  }

  lemma NothingEligible(c: Chip)
    requires forall j :: 0 <= j < ScanLength(c) ==> At(c, j) !in EligibleSet(c)
    ensures EligibleSet(c) == {}
  {
    forall j | 0 <= j < 8 ensures At(c, j) !in EligibleSet(c) {
      EligibleIsScanned(c, j);
    }
    AllRanksCovered(c, EligibleSet(c), 8);
  }
}
