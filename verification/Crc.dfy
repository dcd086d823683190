/**
 The table-driven CRC-32 (`rusty_box/src/crc.rs`) against division of polynomials over GF(2).

 A word is the string of its bits, most significant first, which are also the
 coefficients of a polynomial, highest power first: the order in which section 3.2.9
 of IEEE 802.3 divides a frame by its generator. Everything is proved for any
 generator `g` of degree 32 and any number `n` of bits consumed per table look-up;
 the code's own generator and its eight bits come in at the end.
 */
module Crc {
  import opened Base
  import opened Arith

  type Bits = seq<bool>
  type Word = s: Bits | |s| == 32 witness Zeros(32)

  // ---- Bit strings ----

  function Zeros(n: nat): (r: Bits)
    ensures |r| == n && forall i :: 0 <= i < n ==> !r[i]
  {
    seq(n, _ => false)
  }

  function Ones(n: nat): (r: Bits)
    ensures |r| == n && forall i :: 0 <= i < n ==> r[i]
  {
    seq(n, _ => true)
  }

  function Xor(a: Bits, b: Bits): (r: Bits)
    requires |a| == |b|
    ensures |r| == |a| && forall i :: 0 <= i < |a| ==> r[i] == (a[i] != b[i])
  {
    seq(|a|, i requires 0 <= i < |a| => a[i] != b[i])
  }

  lemma XorTwice(a: Word, b: Word)
    ensures Xor(Xor(a, b), b) == a
  {
  }

  /** The `n` low bits of a number. */
  function BitsOf(v: nat, n: nat): (r: Bits)
    ensures |r| == n
  {
    if n == 0 then [] else BitsOf(v / 2, n - 1) + [v % 2 == 1]
  }

  function ValueOf(b: Bits): nat {
    if b == [] then 0 else 2 * ValueOf(b[..|b| - 1]) + if b[|b| - 1] then 1 else 0
  }

  lemma {:induction false} BitsOfValue(b: Bits)
    ensures BitsOf(ValueOf(b), |b|) == b
  {
    if b != [] {
      BitsOfValue(b[..|b| - 1]);
    }
  }

  function Power(n: nat): nat {
    if n == 0 then 1 else 2 * Power(n - 1)
  }

  lemma {:induction false} ValueFits(b: Bits)
    ensures ValueOf(b) < Power(|b|)
  {
    if b != [] {
      ValueFits(b[..|b| - 1]);
    }
  }

  lemma PowerIsPositive(n: nat)
    ensures Power(n) >= 1
  {
  }

  /** The place of each bit: the most significant of the `n` first. */
  lemma {:induction false} BitPlace(v: nat, n: nat, i: nat)
    requires i < n
    ensures Power(n - 1 - i) >= 1 && BitsOf(v, n)[i] == (v / Power(n - 1 - i) % 2 == 1)
    decreases n
  {
    PowerIsPositive(n - 1 - i);
    if i < n - 1 {
      BitPlace(v / 2, n - 1, i);
      DivDiv(v, 2, Power(n - 2 - i));
    }
  }

  // ---- The shift register ----

  function Times(c: Word): Word {
    c[1..] + [false]
  }

  /** One step: shift out the top bit, and subtract the generator if it was set. */
  function Shift(g: Word, c: Word): Word {
    if c[0] then Xor(Times(c), g) else Times(c)
  }

  function Shifts(g: Word, c: Word, n: nat): Word
    decreases n
  {
    if n == 0 then c else Shifts(g, Shift(g, c), n - 1)
  }

  /** Shifting distributes over exclusive or. */
  lemma ShiftIsLinear(g: Word, a: Word, b: Word)
    ensures Shift(g, Xor(a, b)) == Xor(Shift(g, a), Shift(g, b))
  {
    var l, r := Shift(g, Xor(a, b)), Xor(Shift(g, a), Shift(g, b));
    forall i | 0 <= i < 32 ensures l[i] == r[i] {
    }
  }

  lemma {:induction false} ShiftsAreLinear(g: Word, a: Word, b: Word, n: nat)
    ensures Shifts(g, Xor(a, b), n) == Xor(Shifts(g, a, n), Shifts(g, b, n))
    decreases n
  {
    if n > 0 {
      ShiftIsLinear(g, a, b);
      ShiftsAreLinear(g, Shift(g, a), Shift(g, b), n - 1);
    }
  }

  /** Leading zeros shift out without touching the generator. */
  lemma {:induction false} ShiftsDropZeros(g: Word, low: Bits, n: nat)
    requires |low| + n <= 32
    ensures Shifts(g, Zeros(n) + low + Zeros(32 - n - |low|), n) == low + Zeros(32 - |low|)
    decreases n
  {
    var c := Zeros(n) + low + Zeros(32 - n - |low|);
    if n == 0 {
      assert c == low + Zeros(32 - |low|);
    } else {
      assert Shift(g, c) == Zeros(n - 1) + low + Zeros(32 - (n - 1) - |low|);
      ShiftsDropZeros(g, low, n - 1);
    }
  }

  // ---- The table ----

  /** A symbol placed at the top of a word. */
  function AtTop(b: Bits): Word
    requires |b| <= 32
  {
    b + Zeros(32 - |b|)
  }

  ghost predicate IsTable(g: Word, n: nat, t: seq<Word>) {
    n <= 32 && |t| == Power(n) && forall i :: 0 <= i < |t| ==> t[i] == Shifts(g, AtTop(BitsOf(i, n)), n)
  }

  /** A symbol added to the top of the register only meets its top bits. */
  lemma TopMeetsTop(n: nat, c: Word, b: Bits)
    requires |b| == n <= 32
    ensures Xor(c, AtTop(b)) == Xor(Zeros(n) + c[n..] + Zeros(0), AtTop(Xor(c[..n], b)))
  {
  }

  /** One look-up does `n` steps. */
  lemma LookUpIsSteps(g: Word, n: nat, t: seq<Word>, c: Word, b: Bits)
    requires IsTable(g, n, t) && |b| == n
    ensures ValueOf(Xor(c[..n], b)) < |t|
    ensures Xor(c[n..] + Zeros(n), t[ValueOf(Xor(c[..n], b))]) == Shifts(g, Xor(c, AtTop(b)), n)
  {
    var index := Xor(c[..n], b);
    ValueFits(index);
    BitsOfValue(index);
    TopMeetsTop(n, c, b);
    ShiftsAreLinear(g, Zeros(n) + c[n..] + Zeros(0), AtTop(index), n);
    ShiftsDropZeros(g, c[n..], n);
  }

  // ---- Bit by bit ----

  /** The register run over a message bit by bit, each bit meeting the top of the register. */
  function Feed(g: Word, c: Word, bit: bool): Word {
    Shift(g, Xor(c, [bit] + Zeros(31)))
  }

  function FeedAll(g: Word, c: Word, m: Bits): Word
    decreases |m|
  {
    if m == [] then c else FeedAll(g, Feed(g, c, m[0]), m[1..])
  }

  lemma FirstOff(g: Word, c: Word, w: Bits)
    requires 0 < |w| <= 32
    ensures Shift(g, Xor(c, AtTop(w))) == Xor(Feed(g, c, w[0]), AtTop(w[1..]))
  {
    var first: Word := Xor(c, [w[0]] + Zeros(31));
    var rest: Word := [false] + w[1..] + Zeros(32 - |w|);
    assert Xor(c, AtTop(w)) == Xor(first, rest);
    ShiftIsLinear(g, first, rest);
    assert Shift(g, rest) == AtTop(w[1..]);
  }

  /** Feeding up to a word bit by bit is adding it to the top and shifting. */
  lemma {:induction false} FeedIsShifts(g: Word, c: Word, w: Bits)
    requires |w| <= 32
    ensures FeedAll(g, c, w) == Shifts(g, Xor(c, AtTop(w)), |w|)
    decreases |w|
  {
    if w == [] {
      assert Xor(c, AtTop(w)) == c;
    } else {
      FirstOff(g, c, w);
      FeedIsShifts(g, Feed(g, c, w[0]), w[1..]);
    }
  }

  lemma {:induction false} FeedAllJoins(g: Word, c: Word, a: Bits, b: Bits)
    ensures FeedAll(g, c, a + b) == FeedAll(g, FeedAll(g, c, a), b)
    decreases |a|
  {
    if a == [] {
      assert a + b == b;
    } else {
      assert (a + b)[1..] == a[1..] + b;
      FeedAllJoins(g, Feed(g, c, a[0]), a[1..], b);
    }
  }

  /** A message of `n`-bit symbols as one bit string. */
  function MessageBits(n: nat, m: seq<nat>): Bits {
    if m == [] then [] else MessageBits(n, m[..|m| - 1]) + BitsOf(m[|m| - 1], n)
  }

  lemma {:induction false} MessageLength(n: nat, m: seq<nat>)
    ensures |MessageBits(n, m)| == n * |m|
    decreases |m|
  {
    if m != [] {
      MessageLength(n, m[..|m| - 1]);
      assert n * |m| == n * (|m| - 1) + n;
    }
  }

  /** Symbols go in order, each most significant bit first. */
  lemma {:induction false} MessagePlace(n: nat, m: seq<nat>, k: nat, i: nat)
    requires k < |m| && i < n
    ensures n * k + i < |MessageBits(n, m)| && MessageBits(n, m)[n * k + i] == BitsOf(m[k], n)[i]
    decreases |m|
  {
    var j := |m| - 1;
    MessageLength(n, m[..j]);
    if k < j {
      MessagePlace(n, m[..j], k, i);
    }
  }

  // ---- Division ----

  /** One line of long division by the generator: clear the leading term, and bring down the next. */
  function Reduce(g: Word, d: Bits): (r: Bits)
    requires |d| > 32
    ensures |r| == |d| - 1
  {
    if d[0] then Xor(d[1..33], g) + d[33..] else d[1..]
  }

  function Remainder(g: Word, d: Bits): Word
    requires |d| >= 32
    decreases |d|
  {
    if |d| == 32 then d else Remainder(g, Reduce(g, d))
  }

  function Quotient(g: Word, d: Bits): (q: Bits)
    requires |d| >= 32
    ensures |q| == |d| - 32
    decreases |d|
  {
    if |d| == 32 then [] else [d[0]] + Quotient(g, Reduce(g, d))
  }

  /** A polynomial multiplied by the generator, whose leading term `g` leaves out. */
  function Product(g: Word, q: Bits): (r: Bits)
    ensures |r| == |q| + 32
  {
    if q == [] then Zeros(32) else Xor([false] + Product(g, q[1..]), Lead(g, q))
  }

  function Lead(g: Word, q: Bits): (r: Bits)
    requires q != []
    ensures |r| == |q| + 32
  {
    (if q[0] then [true] + g else Zeros(33)) + Zeros(|q| - 1)
  }

  /** `d == q * G + r`, with `r` of degree below that of the generator. */
  ghost predicate Divides(g: Word, d: Bits, q: Bits, r: Word) {
    |d| == |q| + 32 && d == Xor(Product(g, q), Zeros(|q|) + r)
  }

  lemma ReduceSubtracts(g: Word, d: Bits, q: Bits)
    requires |d| > 32 && |q| == |d| - 32 && q[0] == d[0]
    ensures Subtracts(d, Lead(g, q), Reduce(g, d))
  {
  }

  ghost predicate Subtracts(d: Bits, lead: Bits, r: Bits) {
    |d| == |lead| == |r| + 1 && forall i :: 0 <= i < |r| ==> r[i] == (d[i + 1] != lead[i + 1])
  }

  lemma SubtractsSame(d: Bits, e: Bits, lead: Bits, dr: Bits, er: Bits)
    requires Subtracts(d, lead, dr) && Subtracts(e, lead, er) && d[0] == e[0]
    ensures d == e <==> dr == er
  {
    if dr == er {
      forall i | 0 <= i < |d| ensures d[i] == e[i] {
        if i > 0 {
          assert dr[i - 1] == er[i - 1];
        }
      }
    }
  }

  lemma SumSubtracts(part: Bits, low: Bits, lead: Bits)
    requires |part| == |low| == |lead| - 1
    ensures var whole := Xor(Xor([false] + part, lead), [false] + low);
            Subtracts(whole, lead, Xor(part, low)) && whole[0] == lead[0]
  {
    var whole := Xor(Xor([false] + part, lead), [false] + low);
    forall i | 0 <= i < |part| ensures Xor(part, low)[i] == (whole[i + 1] != lead[i + 1]) {
      assert ([false] + part)[i + 1] == part[i] && ([false] + low)[i + 1] == low[i];
    }
  }

  lemma ProductSubtracts(g: Word, q: Bits, r: Word)
    requires q != []
    ensures Subtracts(Xor(Product(g, q), Zeros(|q|) + r), Lead(g, q), Xor(Product(g, q[1..]), Zeros(|q| - 1) + r))
    ensures Xor(Product(g, q), Zeros(|q|) + r)[0] == q[0]
  {
    assert Zeros(|q|) + r == [false] + (Zeros(|q| - 1) + r);
    assert Lead(g, q)[0] == q[0];
    SumSubtracts(Product(g, q[1..]), Zeros(|q| - 1) + r, Lead(g, q));
  }

  /** What is left of a division when the leading term is dealt with. */
  lemma DividesStep(g: Word, d: Bits, q: Bits, r: Word)
    requires |d| > 32 && |q| == |d| - 32
    ensures Divides(g, d, q, r) <==> q[0] == d[0] && Divides(g, Reduce(g, d), q[1..], r)
  {
    ProductSubtracts(g, q, r);
    if q[0] == d[0] {
      ReduceSubtracts(g, d, q);
      SubtractsSame(d, Xor(Product(g, q), Zeros(|q|) + r), Lead(g, q), Reduce(g, d), Xor(Product(g, q[1..]), Zeros(|q| - 1) + r));
    }
  }

  /** Division has exactly one answer, and it is the one computed. */
  lemma {:induction false} DivisionIsUnique(g: Word, d: Bits, q: Bits, r: Word)
    requires |d| >= 32
    ensures Divides(g, d, q, r) <==> q == Quotient(g, d) && r == Remainder(g, d)
    decreases |d|
  {
    if |q| == |d| - 32 {
      if |d| == 32 {
        assert Xor(Product(g, q), Zeros(|q|) + r) == r;
      } else {
        DividesStep(g, d, q, r);
        DivisionIsUnique(g, Reduce(g, d), q[1..], r);
        if q[0] == d[0] && q[1..] == Quotient(g, Reduce(g, d)) {
          assert q == [q[0]] + q[1..];
        }
      }
    }
  }

  /** The dividend: the message followed by 32 zeros, with the register added to its first 32 bits. */
  function Dividend(c: Word, m: Bits): (r: Bits)
    ensures |r| == |m| + 32
  {
    Xor(m + Zeros(32), c + Zeros(|m|))
  }

  /** Feeding a bit is one line of the division. */
  lemma FeedIsReduce(g: Word, c: Word, m: Bits)
    requires m != []
    ensures Reduce(g, Dividend(c, m)) == Dividend(Feed(g, c, m[0]), m[1..])
  {
    var d, f := Dividend(c, m), Feed(g, c, m[0]);
    var l, r := Reduce(g, d), Dividend(f, m[1..]);
    assert d[0] == (m[0] != c[0]);
    FeedBits(g, c, m[0]);
    forall i | 0 <= i < |l| ensures l[i] == r[i] {
      assert l[i] == (d[i + 1] != (d[0] && i < 32 && g[i]));
      assert r[i] == ((m + Zeros(32))[i + 1] != (i < 32 && f[i]));
    }
  }

  lemma FeedBits(g: Word, c: Word, bit: bool)
    ensures forall i :: 0 <= i < 32 ==> Feed(g, c, bit)[i] == ((i < 31 && c[i + 1]) != ((bit != c[0]) && g[i]))
  {
  }

  lemma {:induction false} RegisterIsRemainder(g: Word, c: Word, m: Bits)
    ensures FeedAll(g, c, m) == Remainder(g, Dividend(c, m))
    decreases |m|
  {
    if m == [] {
      assert Dividend(c, m) == c;
    } else {
      FeedIsReduce(g, c, m);
      RegisterIsRemainder(g, Feed(g, c, m[0]), m[1..]);
    }
  }

  // ---- The checksum ----

  /** The remainder of the message with its first 32 bits complemented, itself complemented. */
  function Checksum(g: Word, m: Bits): Word {
    Xor(Remainder(g, Dividend(Ones(32), m)), Ones(32))
  }

  /**
   The checksum is the one word whose complement is a remainder of the preset message:
   a quotient makes up the difference for it, and for no other.
   */
  lemma ChecksumIsTheRemainder(g: Word, m: Bits, w: Word)
    ensures w == Checksum(g, m) <==> exists q :: Divides(g, Dividend(Ones(32), m), q, Xor(w, Ones(32)))
  {
    var d, r := Dividend(Ones(32), m), Xor(w, Ones(32));
    XorTwice(w, Ones(32));
    XorTwice(Remainder(g, d), Ones(32));
    assert w == Checksum(g, m) <==> r == Remainder(g, d);
    if r == Remainder(g, d) {
      DivisionIsUnique(g, d, Quotient(g, d), r);
      assert Divides(g, d, Quotient(g, d), r);
    }
    forall q | Divides(g, d, q, r) ensures r == Remainder(g, d) {
      DivisionIsUnique(g, d, q, r);
    }
  }

  // ---- The code ----

  method Steps(g: Word, seed: Word, n: nat) returns (c: Word)
    ensures c == Shifts(g, seed, n)
  {
    c := seed;
    var left := n;
    while left > 0
      invariant left >= 0 && Shifts(g, c, left) == Shifts(g, seed, n)
    {
      c := if c[0] then Xor(Times(c), g) else Times(c);
      left := left - 1;
    }
  }

  /** `build_crc32_table`. */
  method BuildTable(g: Word, n: nat) returns (table: array<Word>)
    requires n <= 32
    ensures fresh(table) && IsTable(g, n, table[..])
  {
    table := new Word[Power(n)](_ => Zeros(32));
    var i := 0;
    while i < table.Length
      invariant 0 <= i <= table.Length
      invariant forall k :: 0 <= k < i ==> table[k] == Shifts(g, AtTop(BitsOf(k, n)), n)
    {
      var entry := Steps(g, AtTop(BitsOf(i, n)), n);
      table[i] := entry;
      i := i + 1;
    }
  }

  method LookUp(g: Word, n: nat, table: array<Word>, c: Word, b: Bits) returns (r: Word)
    requires IsTable(g, n, table[..]) && |b| == n
    ensures r == FeedAll(g, c, b)
  {
    LookUpIsSteps(g, n, table[..], c, b);
    FeedIsShifts(g, c, b);
    r := Xor(c[n..] + Zeros(n), table[ValueOf(Xor(c[..n], b))]);
  }

  /** The loop of `crc32`: a look-up per symbol computes the checksum of every message. */
  method Register(g: Word, n: nat, table: array<Word>, m: seq<nat>) returns (crc: Word)
    requires IsTable(g, n, table[..])
    ensures crc == Checksum(g, MessageBits(n, m))
  {
    crc := Ones(32);
    var i := 0;
    while i < |m|
      invariant 0 <= i <= |m|
      invariant crc == FeedAll(g, Ones(32), MessageBits(n, m[..i]))
    {
      crc := LookUp(g, n, table, crc, BitsOf(m[i], n));
      assert m[..i + 1][..i] == m[..i];
      FeedAllJoins(g, Ones(32), MessageBits(n, m[..i]), BitsOf(m[i], n));
      i := i + 1;
    }
    assert m[..i] == m;
    RegisterIsRemainder(g, Ones(32), MessageBits(n, m));
    crc := Xor(crc, Ones(32));
  }

  /** The AUTODIN II, Ethernet and FDDI generator, without its leading term. */
  const GENERATOR: Word := BitsOf(0x04c1_1db7, 32)

  /** `crc32`, a byte at a time. */
  method Crc32(m: seq<byte>) returns (crc: Word)
    ensures crc == Checksum(GENERATOR, MessageBits(8, m))
  {
    var table := BuildTable(GENERATOR, 8);
    crc := Register(GENERATOR, 8, table, m);
  }
}
