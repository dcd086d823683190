/**
 The guest-physical plan (`rusty_box_core/src/engine.rs`, lines 101-268): which windows
 are accepted as a map, and what an accepted map guarantees.
 */
module GpaPlan {
  import opened Base
  import opened Sets

  const PAGE: nat := 4096

  datatype Perms = Perms(read: bool, write: bool, execute: bool, trackDirty: bool)

  datatype Window = Window(gpa: u64, len: u64, host: u64, perms: Perms)

  datatype Error = NotPageShaped(at: nat) | PermitsNothing(at: nat) | Overlap(first: nat, second: nat)

  function End(w: Window): Option<u64> {
    if w.gpa + w.len <= U64_MAX then Some(w.gpa + w.len) else None
  }

  predicate Contains(w: Window, gpa: u64) {
    match End(w)
    case Some(end) => w.gpa <= gpa < end
    case None => w.gpa <= gpa
  }

  predicate IsPageShaped(w: Window) {
    w.len != 0 && w.gpa % PAGE == 0 && w.len % PAGE == 0 && w.host % PAGE == 0
  }

  predicate ServesAnything(p: Perms) {
    p.read || p.write || p.execute
  }

  predicate Overlaps(a: Window, b: Window) {
    if End(a).None? || End(b).None? then true
    else a.gpa < End(b).value && b.gpa < End(a).value
  }

  // ---- What the windows have to do with addresses ----

  ghost predicate Share(a: Window, b: Window) {
    exists g: u64 :: Contains(a, g) && Contains(b, g)
  }

  /** For windows that end, overlapping is sharing an address; one that runs off is taken to overlap everything. */
  lemma OverlapIsSharing(a: Window, b: Window)
    requires a.len > 0 && b.len > 0
    ensures Overlaps(a, b) <==> End(a).None? || End(b).None? || Share(a, b)
    ensures Share(a, b) ==> Overlaps(a, b)
  {
    if End(a).Some? && End(b).Some? && Overlaps(a, b) {
      var g := if a.gpa < b.gpa then b.gpa else a.gpa;
      assert Contains(a, g) && Contains(b, g);
    }
  }

  // ---- Acceptance ----

  predicate Sound(w: Window) {
    IsPageShaped(w) && ServesAnything(w.perms)
  }

  ghost predicate Apart(ws: seq<Window>) {
    forall i, j :: 0 <= i < j < |ws| ==> !Overlaps(ws[i], ws[j])
  }

  ghost predicate Good(ws: seq<Window>) {
    (forall i :: 0 <= i < |ws| ==> Sound(ws[i])) && Apart(ws)
  }

  /** No pair before (`first`, `second`) overlaps, taken in the order the code looks. */
  ghost predicate ApartBefore(ws: seq<Window>, first: nat, second: nat) {
    forall i, j :: 0 <= i < j < |ws| && (i < first || (i == first && j < second)) ==> !Overlaps(ws[i], ws[j])
  }

  /** What an error means: the first offence in the order the code looks for them. */
  ghost predicate Explains(ws: seq<Window>, e: Error) {
    match e
    case NotPageShaped(at) => at < |ws| && !IsPageShaped(ws[at]) && forall i :: 0 <= i < at ==> Sound(ws[i])
    case PermitsNothing(at) =>
      at < |ws| && IsPageShaped(ws[at]) && !ServesAnything(ws[at].perms) && forall i :: 0 <= i < at ==> Sound(ws[i])
    case Overlap(first, second) =>
      && first < second < |ws| && Overlaps(ws[first], ws[second]) && ApartBefore(ws, first, second)
      && forall i :: 0 <= i < |ws| ==> Sound(ws[i])
  }

  method CheckEach(ws: seq<Window>) returns (e: Option<Error>)
    ensures e.None? <==> forall i :: 0 <= i < |ws| ==> Sound(ws[i])
    ensures e.Some? ==> !e.value.Overlap? && Explains(ws, e.value)
  {
    for at := 0 to |ws|
      invariant forall i :: 0 <= i < at ==> Sound(ws[i])
    {
      if !IsPageShaped(ws[at]) {
        return Some(NotPageShaped(at));
      }
      if !ServesAnything(ws[at].perms) {
        return Some(PermitsNothing(at));
      }
    }
    return None;
  }

  /** `GpaPlan::new`: accepted exactly when every window is sound and no two overlap, else the first offence. */
  method New(ws: seq<Window>) returns (e: Option<Error>)
    ensures e.None? <==> Good(ws)
    ensures e.Some? ==> Explains(ws, e.value)
  {
    e := CheckEach(ws);
    if e.Some? {
      return;
    }
    for first := 0 to |ws|
      invariant ApartBefore(ws, first, 0)
    {
      for second := first + 1 to |ws|
        invariant ApartBefore(ws, first, second)
      {
        if Overlaps(ws[first], ws[second]) {
          return Some(Overlap(first, second));
        }
      }
    }
    return None;
  }

  /** Acceptance does not depend on the order of the windows. */
  lemma OrderDoesNotMatter(ws: seq<Window>, vs: seq<Window>, from: seq<nat>)
    requires Good(ws) && |vs| == |from|
    requires forall i :: 0 <= i < |from| ==> from[i] < |ws| && vs[i] == ws[from[i]]
    requires forall i, j :: 0 <= i < j < |from| ==> from[i] != from[j]
    ensures Good(vs)
  {
    forall i, j | 0 <= i < j < |vs| ensures !Overlaps(vs[i], vs[j]) {
      if from[i] < from[j] {
        assert !Overlaps(ws[from[i]], ws[from[j]]);
      } else {
        assert !Overlaps(ws[from[j]], ws[from[i]]);
      }
    }
  }

  // ---- Looking an address up ----

  /** `window_at`: the first window that contains the address. */
  function WindowAt(ws: seq<Window>, g: u64): Option<Window> {
    if ws == [] then None else if Contains(ws[0], g) then Some(ws[0]) else WindowAt(ws[1..], g)
  }

  lemma AtMostOne(ws: seq<Window>, g: u64, i: nat, j: nat)
    requires Good(ws) && i < |ws| && j < |ws| && Contains(ws[i], g) && Contains(ws[j], g)
    ensures i == j
  {
    assert Share(ws[i], ws[j]) && Share(ws[j], ws[i]);
    OverlapIsSharing(ws[i], ws[j]);
    OverlapIsSharing(ws[j], ws[i]);
  }

  lemma {:induction false} WindowAtFinds(ws: seq<Window>, g: u64)
    ensures WindowAt(ws, g).Some? ==> exists i :: 0 <= i < |ws| && ws[i] == WindowAt(ws, g).value && Contains(ws[i], g)
    ensures WindowAt(ws, g).None? ==> forall i :: 0 <= i < |ws| ==> !Contains(ws[i], g)
    decreases |ws|
  {
    if ws != [] {
      if Contains(ws[0], g) {
        assert ws[0] == WindowAt(ws, g).value;
      } else {
        WindowAtFinds(ws[1..], g);
        if WindowAt(ws[1..], g).Some? {
          var i :| 0 <= i < |ws[1..]| && ws[1..][i] == WindowAt(ws[1..], g).value && Contains(ws[1..][i], g);
          assert ws[i + 1] == ws[1..][i];
        } else {
          forall i | 0 <= i < |ws| ensures !Contains(ws[i], g) {
            if i > 0 {
              assert ws[i] == ws[1..][i - 1];
            }
          }
        }
      }
    }
  }

  /** In an accepted plan the window found is the one that contains the address, wherever it stands. */
  lemma WindowAtIsTheOne(ws: seq<Window>, g: u64, w: Window)
    requires Good(ws)
    ensures WindowAt(ws, g) == Some(w) <==> w in ws && Contains(w, g)
  {
    WindowAtFinds(ws, g);
    if w in ws && Contains(w, g) {
      var j :| 0 <= j < |ws| && ws[j] == w;
      var i :| 0 <= i < |ws| && ws[i] == WindowAt(ws, g).value && Contains(ws[i], g);
      AtMostOne(ws, g, i, j);
    }
  }

  /** With company, no window runs off the address space; alone, one may. */
  lemma NoneRunsOff(ws: seq<Window>, i: nat)
    requires Good(ws) && |ws| >= 2 && i < |ws|
    ensures End(ws[i]).Some?
  {
    if i == 0 {
      assert !Overlaps(ws[0], ws[1]);
    } else {
      assert !Overlaps(ws[0], ws[i]);
    }
  }

  // ---- How much is mapped ----

  ghost function Range(start: nat, n: nat): (s: set<nat>)
    ensures |s| == n && forall x :: x in s <==> start <= x < start + n
    decreases n
  {
    if n == 0 then {} else Range(start, n - 1) + {start + n - 1}
  }

  /** The addresses a window serves, cut off at the end of the address space. */
  ghost function Served(w: Window, limit: nat): set<nat> {
    if w.gpa + w.len <= limit then Range(w.gpa, w.len)
    else if w.gpa <= limit then Range(w.gpa, limit - w.gpa)
    else {}
  }

  lemma ServedIsContained(w: Window, limit: nat, g: u64)
    requires limit == U64_LIMIT
    ensures g in Served(w, limit) <==> Contains(w, g)
  {
  }

  ghost function Mapped(ws: seq<Window>, limit: nat): set<nat> {
    if ws == [] then {} else Served(ws[0], limit) + Mapped(ws[1..], limit)
  }

  /** `total_bytes` before the overflow check. */
  function SumLen(ws: seq<Window>): nat {
    if ws == [] then 0 else ws[0].len + SumLen(ws[1..])
  }

  function TotalBytes(ws: seq<Window>): Option<u64> {
    if SumLen(ws) <= U64_MAX then Some(SumLen(ws)) else None
  }

  lemma {:induction false} MappedSomewhere(ws: seq<Window>, limit: nat, x: nat)
    requires x in Mapped(ws, limit)
    ensures exists i :: 0 <= i < |ws| && x in Served(ws[i], limit)
    decreases |ws|
  {
    if x in Served(ws[0], limit) {
    } else {
      MappedSomewhere(ws[1..], limit, x);
      var i :| 0 <= i < |ws[1..]| && x in Served(ws[1..][i], limit);
      assert ws[i + 1] == ws[1..][i];
    }
  }

  lemma DisjointUnion(a: set<nat>, b: set<nat>)
    requires a !! b
    ensures |a + b| == |a| + |b|
  {
  }

  /** Served ranges of windows that stay inside and apart do not meet. */
  lemma FirstIsApart(ws: seq<Window>, limit: nat)
    requires ws != [] && Apart(ws) && forall i :: 0 <= i < |ws| ==> ws[i].gpa + ws[i].len <= limit
    ensures Served(ws[0], limit) !! Mapped(ws[1..], limit)
  {
    forall x | x in Mapped(ws[1..], limit) ensures x !in Served(ws[0], limit) {
      MappedSomewhere(ws[1..], limit, x);
      var i :| 0 <= i < |ws[1..]| && x in Served(ws[1..][i], limit);
      assert ws[1..][i] == ws[i + 1] && !Overlaps(ws[0], ws[i + 1]);
    }
  }

  lemma {:induction false} SumIsMapped(ws: seq<Window>, limit: nat)
    requires Apart(ws) && forall i :: 0 <= i < |ws| ==> ws[i].gpa + ws[i].len <= limit
    ensures |Mapped(ws, limit)| == SumLen(ws)
    decreases |ws|
  {
    if ws != [] {
      FirstIsApart(ws, limit);
      DisjointUnion(Served(ws[0], limit), Mapped(ws[1..], limit));
      forall i | 0 <= i < |ws[1..]| ensures ws[1..][i] == ws[i + 1] {
      }
      SumIsMapped(ws[1..], limit);
    }
  }

  /** An accepted plan's total never overflows. */
  lemma TotalNeverOverflows(ws: seq<Window>, limit: nat)
    requires Good(ws) && limit == U64_MAX
    ensures TotalBytes(ws) == Some(SumLen(ws))
  {
    if |ws| >= 2 {
      forall i | 0 <= i < |ws| ensures ws[i].gpa + ws[i].len <= limit {
        NoneRunsOff(ws, i);
      }
      SumIsMapped(ws, limit);
      forall x | x in Mapped(ws, limit) ensures x in Range(0, limit) {
        MappedSomewhere(ws, limit, x);
      }
      SubsetIsNoLarger(Mapped(ws, limit), Range(0, limit));
    } else if |ws| == 1 {
      assert ws[1..] == [];
    }
  }

  /** The total is the number of addresses mapped exactly when no window reaches past the last address. */
  lemma TotalIsMapped(ws: seq<Window>, limit: nat)
    requires Good(ws) && limit == U64_LIMIT
    ensures |Mapped(ws, limit)| == SumLen(ws) <==> forall i :: 0 <= i < |ws| ==> ws[i].gpa + ws[i].len <= limit
  {
    if forall i :: 0 <= i < |ws| ==> ws[i].gpa + ws[i].len <= limit {
      SumIsMapped(ws, limit);
    } else {
      var i :| 0 <= i < |ws| && ws[i].gpa + ws[i].len > limit;
      if |ws| >= 2 {
        NoneRunsOff(ws, i);
      }
      assert ws == [ws[0]] && ws[1..] == [];
      assert Mapped(ws, limit) == Served(ws[0], limit);
    }
  }

  /** A window that runs off the end is accepted when it is the only one. */
  lemma LoneWindowMayRunOff(w: Window)
    requires Sound(w) && End(w).None?
    ensures Good([w])
  {
  }
}
