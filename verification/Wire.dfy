/**
 Snapshot scalars (`rusty_box_core/src/snap.rs`): little-endian integers and
 canonical booleans, read from the front of a byte string.

 A record is a list of scalars. Reading takes exactly the bytes writing made, and
 what reading accepts is exactly what writing makes.
 */
module Wire {
  import opened Base
  import opened Arith

  type bytes = seq<byte>

  function Pow256(n: nat): (p: nat)
    ensures p >= 1
  {
    if n == 0 then 1 else 256 * Pow256(n - 1)
  }

  /** The `n` low bytes of `v`, least significant first. */
  function LittleEndian(v: nat, n: nat): (b: bytes)
    ensures |b| == n
    decreases n, v
  {
    if n == 0 then [] else [v % 256] + LittleEndian(v / 256, n - 1)
  }

  function FromLittleEndian(b: bytes): (v: nat)
    ensures v < Pow256(|b|)
  {
    if b == [] then 0
    else
      assert FromLittleEndian(b[1..]) + 1 <= Pow256(|b| - 1);
      b[0] + 256 * FromLittleEndian(b[1..])
  }

  lemma {:induction false} ReadsBackInteger(v: nat, n: nat)
    requires v < Pow256(n)
    ensures FromLittleEndian(LittleEndian(v, n)) == v
    decreases n
  {
    if n > 0 {
      assert LittleEndian(v, n)[1..] == LittleEndian(v / 256, n - 1);
      ReadsBackInteger(v / 256, n - 1);
    }
  }

  lemma {:induction false} WritesBackInteger(b: bytes)
    ensures LittleEndian(FromLittleEndian(b), |b|) == b
  {
    if b != [] {
      var rest := FromLittleEndian(b[1..]);
      LowByte(b[0], rest);
      WritesBackInteger(b[1..]);
      assert b == [b[0]] + LittleEndian(rest, |b| - 1);
    }
  }

  /** The place of each byte: byte `i` is the digit of weight 256^i. */
  lemma {:induction false} DigitAt(v: nat, n: nat, i: nat)
    requires i < n
    ensures LittleEndian(v, n)[i] == v / Pow256(i) % 256
    decreases i
  {
    if i > 0 {
      DigitAt(v / 256, n - 1, i - 1);
      DivDiv(v, 256, Pow256(i - 1));
    }
  }

  /** What the first `n` bytes are worth, each at its own weight. */
  function Worth(b: bytes, n: nat): nat
    requires n <= |b|
  {
    if n == 0 then 0 else Worth(b, n - 1) + b[n - 1] * Pow256(n - 1)
  }

  lemma {:induction false} LastDigit(b: bytes, x: byte)
    ensures FromLittleEndian(b + [x]) == FromLittleEndian(b) + x * Pow256(|b|)
    decreases |b|
  {
    if b == [] {
      assert b + [x] == [x] && [x][1..] == [];
    } else {
      var p := Pow256(|b| - 1);
      assert (b + [x])[1..] == b[1..] + [x];
      LastDigit(b[1..], x);
      assert 256 * (x * p) == x * (256 * p);
    }
  }

  /** An integer read is the sum of its bytes, each at its own weight. */
  lemma {:induction false} ReadsItsWorth(b: bytes, n: nat)
    requires n <= |b|
    ensures FromLittleEndian(b[..n]) == Worth(b, n)
  {
    if n > 0 {
      assert b[..n] == b[..n - 1] + [b[n - 1]];
      LastDigit(b[..n - 1], b[n - 1]);
      ReadsItsWorth(b, n - 1);
    }
  }

  lemma LowByte(b: byte, rest: nat)
    ensures (b + 256 * rest) % 256 == b && (b + 256 * rest) / 256 == rest
  {
  }

  // ---- Records of scalars ----

  datatype Kind = U8 | Flag | U32 | U64

  function Width(k: Kind): (n: nat)
    ensures n >= 1
  {
    match k
    case U8 => 1
    case Flag => 1
    case U32 => 4
    case U64 => 8
  }

  function Limit(k: Kind): nat {
    match k
    case U8 => 256
    case Flag => 2
    case U32 => U32_LIMIT
    case U64 => U64_LIMIT
  }

  lemma LimitIsWidth(k: Kind)
    ensures Limit(k) <= Pow256(Width(k))
    ensures !k.Flag? ==> Limit(k) == Pow256(Width(k))
  {
    assert Pow256(1) == 256;
    assert Pow256(4) == 256 * (256 * Pow256(2)) && Pow256(2) == 256 * Pow256(1);
    assert Pow256(8) == 256 * (256 * Pow256(6)) && Pow256(6) == 256 * (256 * Pow256(4));
  }

  ghost predicate Conforms(kinds: seq<Kind>, vals: seq<nat>) {
    |kinds| == |vals| && forall i :: 0 <= i < |kinds| ==> vals[i] < Limit(kinds[i])
  }

  lemma ConformsJoin(a: seq<Kind>, x: seq<nat>, b: seq<Kind>, y: seq<nat>)
    requires Conforms(a, x) && Conforms(b, y)
    ensures Conforms(a + b, x + y)
  {
  }

  lemma ConformsSplit(a: seq<Kind>, b: seq<Kind>, v: seq<nat>)
    requires Conforms(a + b, v)
    ensures Conforms(a, v[..|a|]) && Conforms(b, v[|a|..])
  {
    forall i | 0 <= i < |a| ensures v[..|a|][i] < Limit(a[i]) {
      assert (a + b)[i] == a[i];
    }
    forall i | 0 <= i < |b| ensures v[|a|..][i] < Limit(b[i]) {
      assert (a + b)[|a| + i] == b[i];
    }
  }

  function RecordLen(kinds: seq<Kind>): nat {
    if kinds == [] then 0 else Width(kinds[0]) + RecordLen(kinds[1..])
  }

  lemma {:induction false} RecordLenAdds(a: seq<Kind>, b: seq<Kind>)
    ensures RecordLen(a + b) == RecordLen(a) + RecordLen(b)
    decreases |a|
  {
    if a == [] {
      assert a + b == b;
    } else {
      assert (a + b)[1..] == a[1..] + b;
      RecordLenAdds(a[1..], b);
    }
  }

  function Put(kinds: seq<Kind>, vals: seq<nat>): (b: bytes)
    requires |kinds| == |vals|
    ensures |b| == RecordLen(kinds)
  {
    if kinds == [] then [] else LittleEndian(vals[0], Width(kinds[0])) + Put(kinds[1..], vals[1..])
  }

  /** What the `n` bytes from `at` on are worth. */
  function ValueAt(b: bytes, at: nat, n: nat): nat
    requires at + n <= |b|
  {
    Worth(b[at..at + n], n)
  }

  lemma SliceAfter(a: bytes, b: bytes, from: nat, n: nat)
    requires from + n <= |b|
    ensures (a + b)[|a| + from..|a| + from + n] == b[from..from + n]
  {
  }

  lemma {:induction false} FieldBytes(kinds: seq<Kind>, vals: seq<nat>, j: nat) returns (at: nat)
    requires |kinds| == |vals| && j < |kinds|
    ensures at == RecordLen(kinds[..j]) && at + Width(kinds[j]) <= RecordLen(kinds)
    ensures Put(kinds, vals)[at..at + Width(kinds[j])] == LittleEndian(vals[j], Width(kinds[j]))
    decreases j
  {
    if j == 0 {
      at := 0;
    } else {
      var from := FieldBytes(kinds[1..], vals[1..], j - 1);
      assert kinds[..j][1..] == kinds[1..][..j - 1];
      at := Width(kinds[0]) + from;
      SliceAfter(LittleEndian(vals[0], Width(kinds[0])), Put(kinds[1..], vals[1..]), from, Width(kinds[j]));
    }
  }

  /** Field `j`, which starts at `at`, is worth its value. */
  lemma FieldValue(kinds: seq<Kind>, vals: seq<nat>, j: nat, at: nat)
    requires Conforms(kinds, vals) && j < |kinds| && at == RecordLen(kinds[..j])
    ensures at + Width(kinds[j]) <= RecordLen(kinds) && ValueAt(Put(kinds, vals), at, Width(kinds[j])) == vals[j]
  {
    var w := Width(kinds[j]);
    var from := FieldBytes(kinds, vals, j);
    LimitIsWidth(kinds[j]);
    ReadsBackInteger(vals[j], w);
    ReadsItsWorth(LittleEndian(vals[j], w), w);
    assert LittleEndian(vals[j], w)[..w] == LittleEndian(vals[j], w);
  }

  lemma NextField(kinds: seq<Kind>, j: nat)
    requires j < |kinds|
    ensures RecordLen(kinds[..j + 1]) == RecordLen(kinds[..j]) + Width(kinds[j])
  {
    assert kinds[..j + 1] == kinds[..j] + [kinds[j]];
    RecordLenAdds(kinds[..j], [kinds[j]]);
  }

  lemma ValueAtFront(b: bytes, c: bytes, at: nat, n: nat)
    requires at + n <= |b|
    ensures ValueAt(b + c, at, n) == ValueAt(b, at, n)
  {
    assert (b + c)[at..at + n] == b[at..at + n];
  }

  /** The same bytes further in. */
  lemma ValueInside(a: bytes, b: bytes, c: bytes, at: nat, n: nat)
    requires at + n <= |b|
    ensures ValueAt(a + (b + c), |a| + at, n) == ValueAt(b, at, n)
  {
    assert (a + (b + c))[|a| + at..|a| + at + n] == b[at..at + n];
  }

  datatype Parsed<T> = Parsed(value: T, rest: bytes)

  /** Fails on a short input, and on a boolean byte other than 0 and 1. */
  function Get(kinds: seq<Kind>, s: bytes): (r: Option<Parsed<seq<nat>>>)
    ensures r.Some? ==> |r.value.value| == |kinds|
  {
    if kinds == [] then Some(Parsed([], s))
    else
      var n := Width(kinds[0]);
      if |s| < n then None
      else
        var v := FromLittleEndian(s[..n]);
        if v >= Limit(kinds[0]) then None
        else
          match Get(kinds[1..], s[n..])
          case None => None
          case Some(p) => Some(Parsed([v] + p.value, p.rest))
  }

  lemma {:induction false} ReadsWhatWasWritten(kinds: seq<Kind>, vals: seq<nat>, rest: bytes)
    requires Conforms(kinds, vals)
    ensures Get(kinds, Put(kinds, vals) + rest) == Some(Parsed(vals, rest))
    decreases |kinds|
  {
    var s := Put(kinds, vals) + rest;
    if kinds == [] {
      assert s == rest && vals == [];
    } else {
      var n := Width(kinds[0]);
      assert s[..n] == LittleEndian(vals[0], n);
      assert s[n..] == Put(kinds[1..], vals[1..]) + rest;
      LimitIsWidth(kinds[0]);
      ReadsBackInteger(vals[0], n);
      ReadsWhatWasWritten(kinds[1..], vals[1..], rest);
      assert vals == [vals[0]] + vals[1..];
    }
  }

  /** What was read is in range, and writing it again gives the very bytes consumed. */
  lemma {:induction false} WritesWhatWasRead(kinds: seq<Kind>, s: bytes)
    requires Get(kinds, s).Some?
    ensures var p := Get(kinds, s).value;
            Conforms(kinds, p.value) && s == Put(kinds, p.value) + p.rest
    decreases |kinds|
  {
    if kinds != [] {
      var n := Width(kinds[0]);
      var v := FromLittleEndian(s[..n]);
      var p := Get(kinds, s).value;
      var q := Get(kinds[1..], s[n..]).value;
      WritesWhatWasRead(kinds[1..], s[n..]);
      assert p == Parsed([v] + q.value, q.rest);
      ConformsCons(kinds, v, q.value);
      assert Put(kinds, p.value) == s[..n] + Put(kinds[1..], q.value) by {
        WritesBackInteger(s[..n]);
        PutCons(kinds, v, q.value);
      }
      Regroup(s[..n], Put(kinds[1..], q.value), q.rest);
      SplitsAt(s, n);
    }
  }

  lemma ConformsCons(kinds: seq<Kind>, v: nat, vals: seq<nat>)
    requires kinds != [] && v < Limit(kinds[0]) && Conforms(kinds[1..], vals)
    ensures Conforms(kinds, [v] + vals)
  {
    forall i | 1 <= i < |kinds| ensures ([v] + vals)[i] < Limit(kinds[i]) {
      assert kinds[i] == kinds[1..][i - 1];
    }
  }

  lemma PutCons(kinds: seq<Kind>, v: nat, vals: seq<nat>)
    requires |kinds| == |vals| + 1
    ensures Put(kinds, [v] + vals) == LittleEndian(v, Width(kinds[0])) + Put(kinds[1..], vals)
  {
    assert ([v] + vals)[1..] == vals;
  }

  lemma SplitsAt(s: bytes, n: nat)
    requires n <= |s|
    ensures s == s[..n] + s[n..]
  {
  }

  lemma Regroup(a: bytes, b: bytes, c: bytes)
    ensures a + (b + c) == (a + b) + c
  {
  }

  // ---- Arrays of records ----

  function PutAll(kinds: seq<Kind>, records: seq<seq<nat>>): (b: bytes)
    requires forall i :: 0 <= i < |records| ==> |records[i]| == |kinds|
  {
    if records == [] then [] else Put(kinds, records[0]) + PutAll(kinds, records[1..])
  }

  lemma {:induction false} PutAllLength(kinds: seq<Kind>, records: seq<seq<nat>>)
    requires forall i :: 0 <= i < |records| ==> |records[i]| == |kinds|
    ensures |PutAll(kinds, records)| == RecordLen(kinds) * |records|
    decreases |records|
  {
    if records != [] {
      PutAllLength(kinds, records[1..]);
    }
  }

  lemma OneMore(n: nat, i: nat)
    requires i > 0
    ensures n * i == n * (i - 1) + n
  {
  }

  /** Record `i` of an array, all of one length. */
  lemma {:induction false} RecordAt(kinds: seq<Kind>, records: seq<seq<nat>>, i: nat) returns (at: nat)
    requires (forall k :: 0 <= k < |records| ==> |records[k]| == |kinds|) && i < |records|
    ensures at == RecordLen(kinds) * i && at + RecordLen(kinds) <= |PutAll(kinds, records)|
    ensures PutAll(kinds, records)[at..at + RecordLen(kinds)] == Put(kinds, records[i])
    decreases i
  {
    if i == 0 {
      at := 0;
    } else {
      var before := RecordAt(kinds, records[1..], i - 1);
      OneMore(RecordLen(kinds), i);
      at := RecordLen(kinds) + before;
      SliceAfter(Put(kinds, records[0]), PutAll(kinds, records[1..]), before, RecordLen(kinds));
    }
  }

  function GetAll(kinds: seq<Kind>, n: nat, s: bytes): (r: Option<Parsed<seq<seq<nat>>>>)
    ensures r.Some? ==> |r.value.value| == n
    ensures r.Some? ==> forall i :: 0 <= i < n ==> |r.value.value[i]| == |kinds|
    decreases n, s
  {
    if n == 0 then Some(Parsed([], s))
    else
      match Get(kinds, s)
      case None => None
      case Some(p) =>
        match GetAll(kinds, n - 1, p.rest)
        case None => None
        case Some(q) => Some(Parsed([p.value] + q.value, q.rest))
  }

  lemma {:induction false} ReadsAllWritten(kinds: seq<Kind>, records: seq<seq<nat>>, rest: bytes)
    requires forall i :: 0 <= i < |records| ==> |records[i]| == |kinds| && Conforms(kinds, records[i])
    ensures GetAll(kinds, |records|, PutAll(kinds, records) + rest) == Some(Parsed(records, rest))
    decreases |records|
  {
    if records != [] {
      var tail := PutAll(kinds, records[1..]) + rest;
      assert PutAll(kinds, records) + rest == Put(kinds, records[0]) + tail;
      ReadsWhatWasWritten(kinds, records[0], tail);
      ReadsAllWritten(kinds, records[1..], rest);
      assert records == [records[0]] + records[1..];
    } else {
      assert PutAll(kinds, records) + rest == rest;
    }
  }

  lemma {:induction false} WritesAllRead(kinds: seq<Kind>, n: nat, s: bytes)
    requires GetAll(kinds, n, s).Some?
    ensures var p := GetAll(kinds, n, s).value;
            && (forall i :: 0 <= i < n ==> Conforms(kinds, p.value[i]))
            && s == PutAll(kinds, p.value) + p.rest
    decreases n
  {
    if n > 0 {
      var h := Get(kinds, s).value;
      var t := GetAll(kinds, n - 1, h.rest).value;
      var p := GetAll(kinds, n, s).value;
      WritesWhatWasRead(kinds, s);
      WritesAllRead(kinds, n - 1, h.rest);
      assert p == Parsed([h.value] + t.value, t.rest);
      PutAllCons(kinds, h.value, t.value);
      Regroup(Put(kinds, h.value), PutAll(kinds, t.value), t.rest);
    }
  }

  lemma PutAllCons(kinds: seq<Kind>, vals: seq<nat>, records: seq<seq<nat>>)
    requires |vals| == |kinds| && forall i :: 0 <= i < |records| ==> |records[i]| == |kinds|
    ensures PutAll(kinds, [vals] + records) == Put(kinds, vals) + PutAll(kinds, records)
  {
    assert ([vals] + records)[1..] == records;
  }
}
