/**
 The identity map that `setup_flat_long64` builds in guest memory
 (`rusty_box/src/emulator_api.rs`, lines 1152-1228), walked by the 4-level paging
 rules of section 4.5 of the Intel SDM, volume 3A.
 */
module PageTables {
  import opened Base
  import opened Arith
  import opened Wire

  const PML4: nat := 0x1000
  const PDPT: nat := 0x2000
  const PD0: nat := 0x3000
  const TABLES_END: nat := 0x7000
  const GDT: nat := 0x0800

  const PAGE_2M: nat := 0x20_0000
  const GIB: nat := 0x4000_0000

  // ---- Words in memory ----

  /** The little-endian word at `a`. */
  function Word(ram: bytes, a: nat): nat
    requires a + 8 <= |ram|
  {
    FromLittleEndian(ram[a..a + 8])
  }

  /** Exactly the word at `a` was written. */
  ghost predicate Wrote(was: bytes, now: bytes, a: nat, v: nat) {
    && |was| == |now| && a + 8 <= |now| && Word(now, a) == v
    && forall x :: 0 <= x < |now| && !(a <= x < a + 8) ==> now[x] == was[x]
  }

  lemma WroteElsewhere(was: bytes, now: bytes, a: nat, v: nat, b: nat)
    requires Wrote(was, now, a, v) && b + 8 <= |now| && (a + 8 <= b || b + 8 <= a)
    ensures Word(now, b) == Word(was, b)
  {
    assert now[b..b + 8] == was[b..b + 8];
  }

  // ---- What the tables hold ----

  ghost predicate Root(ram: bytes) {
    |ram| >= TABLES_END && Word(ram, PML4) == PDPT + 3
  }

  ghost predicate Directories(ram: bytes, n: nat) {
    |ram| >= TABLES_END && n <= 4 && forall i :: 0 <= i < n ==> Word(ram, PDPT + 8 * i) == PD0 + 0x1000 * i + 3
  }

  /** The page directories lie one after another, so their entries number on through all four. */
  ghost predicate Pages(ram: bytes, n: nat) {
    |ram| >= TABLES_END && n <= 2048 && forall k :: 0 <= k < n ==> Word(ram, PD0 + 8 * k) == PAGE_2M * k + 0x83
  }

  predicate Ours(a: nat) {
    GDT <= a < GDT + 24 || PML4 <= a < PML4 + 8 || PDPT <= a < PDPT + 32 || PD0 <= a < TABLES_END
  }

  ghost predicate SameElsewhere(was: bytes, now: bytes) {
    |was| == |now| && forall a :: 0 <= a < |was| && !Ours(a) ==> now[a] == was[a]
  }

  // ---- Each write keeps what is there ----

  lemma KeepsRoot(was: bytes, now: bytes, a: nat, v: nat)
    requires Root(was) && Wrote(was, now, a, v) && (a + 8 <= PML4 || PML4 + 8 <= a)
    ensures Root(now)
  {
    WroteElsewhere(was, now, a, v, PML4);
  }

  lemma KeepsDirectories(was: bytes, now: bytes, n: nat, a: nat, v: nat)
    requires Directories(was, n) && Wrote(was, now, a, v) && (a + 8 <= PDPT || PDPT + 8 * n <= a)
    ensures Directories(now, n)
  {
    forall i | 0 <= i < n ensures Word(now, PDPT + 8 * i) == PD0 + 0x1000 * i + 3 {
      WroteElsewhere(was, now, a, v, PDPT + 8 * i);
    }
  }

  lemma KeepsPages(was: bytes, now: bytes, n: nat, a: nat, v: nat)
    requires Pages(was, n) && Wrote(was, now, a, v) && (a + 8 <= PD0 || PD0 + 8 * n <= a)
    ensures Pages(now, n)
  {
    forall k | 0 <= k < n ensures Word(now, PD0 + 8 * k) == PAGE_2M * k + 0x83 {
      WroteElsewhere(was, now, a, v, PD0 + 8 * k);
    }
  }

  lemma KeepsElsewhere(first: bytes, was: bytes, now: bytes, a: nat, v: nat)
    requires SameElsewhere(first, was) && Wrote(was, now, a, v) && Ours(a) && Ours(a + 7)
    requires a >= PD0 || a == PML4 || GDT <= a <= GDT + 16 || PDPT <= a <= PDPT + 24
    ensures SameElsewhere(first, now)
  {
    forall x | 0 <= x < |now| && !Ours(x) ensures now[x] == first[x] {
      assert !(a <= x < a + 8);
    }
  }

  lemma NextDirectory(was: bytes, now: bytes, n: nat)
    requires Root(was) && Directories(was, n) && n < 4 && Wrote(was, now, PDPT + 8 * n, PD0 + 0x1000 * n + 3)
    ensures Root(now) && Directories(now, n + 1)
  {
    KeepsRoot(was, now, PDPT + 8 * n, PD0 + 0x1000 * n + 3);
    KeepsDirectories(was, now, n, PDPT + 8 * n, PD0 + 0x1000 * n + 3);
  }

  lemma NextPage(was: bytes, now: bytes, n: nat)
    requires Root(was) && Directories(was, 4) && Pages(was, n) && n < 2048
    requires Wrote(was, now, PD0 + 8 * n, PAGE_2M * n + 0x83)
    ensures Root(now) && Directories(now, 4) && Pages(now, n + 1)
  {
    KeepsRoot(was, now, PD0 + 8 * n, PAGE_2M * n + 0x83);
    KeepsDirectories(was, now, 4, PD0 + 8 * n, PAGE_2M * n + 0x83);
    KeepsPages(was, now, n, PD0 + 8 * n, PAGE_2M * n + 0x83);
  }

  /** The whole map. */
  ghost predicate Mapped(ram: bytes) {
    Root(ram) && Directories(ram, 4) && Pages(ram, 2048)
  }

  lemma DescriptorWrite(first: bytes, was: bytes, now: bytes, a: nat, v: nat)
    requires Mapped(was) && SameElsewhere(first, was) && GDT <= a <= GDT + 16 && Wrote(was, now, a, v)
    ensures Mapped(now) && SameElsewhere(first, now)
  {
    KeepsRoot(was, now, a, v);
    KeepsDirectories(was, now, 4, a, v);
    KeepsPages(was, now, 2048, a, v);
    KeepsElsewhere(first, was, now, a, v);
  }

  // ---- The code ----

  method WordBytes(v: u64) returns (data: bytes)
    ensures |data| == 8 && FromLittleEndian(data) == v
    ensures forall i :: 0 <= i < 8 ==> data[i] == v / Pow256(i) % 256
  {
    assert Pow256(8) == U64_LIMIT;
    ReadsBackInteger(v, 8);
    data := LittleEndian(v, 8);
    forall i | 0 <= i < 8 ensures data[i] == v / Pow256(i) % 256 {
      DigitAt(v, 8, i);
    }
  }

  /** `mem_write_u64_le`, least significant byte first: a write that runs off memory keeps the part that fits, and fails. */
  method WriteWord(ram: array<byte>, a: nat, v: u64) returns (ok: bool)
    modifies ram
    ensures ok == (a + 8 <= ram.Length)
    ensures ok ==> Wrote(old(ram[..]), ram[..], a, v)
    ensures forall i :: 0 <= i < 8 && a + i < ram.Length ==> ram[a + i] == v / Pow256(i) % 256
    ensures !ok ==> forall x :: 0 <= x < ram.Length && x < a ==> ram[x] == old(ram[x])
  {
    var data := WordBytes(v);
    var i := 0;
    while i < 8 && a + i < ram.Length
      invariant 0 <= i <= 8
      invariant forall x :: 0 <= x < ram.Length && !(a <= x < a + i) ==> ram[x] == old(ram[x])
      invariant i > 0 ==> a + i <= ram.Length
      invariant forall j :: 0 <= j < i ==> ram[a + j] == data[j]
    {
      ram[a + i] := data[i];
      i := i + 1;
    }
    ok := i == 8;
    if ok {
      assert ram[..][a..a + 8] == data;
    }
  }

  /** One page directory. */
  method FillDirectory(ram: array<byte>, i: nat, ghost first: bytes) returns (ok: bool)
    requires i < 4
    requires ram.Length >= TABLES_END ==>
               Root(ram[..]) && Directories(ram[..], 4) && Pages(ram[..], 512 * i) && SameElsewhere(first, ram[..])
    modifies ram
    ensures ok == (PD0 + 0x1000 * (i + 1) <= ram.Length)
    ensures ram.Length >= TABLES_END ==>
              Root(ram[..]) && Directories(ram[..], 4) && Pages(ram[..], 512 * (i + 1)) && SameElsewhere(first, ram[..])
  {
    var pd := PD0 + i * 0x1000;
    var j := 0;
    while j < 512
      invariant 0 <= j <= 512 && (j > 0 ==> pd + j * 8 <= ram.Length)
      invariant ram.Length >= TABLES_END ==>
                  Root(ram[..]) && Directories(ram[..], 4) && Pages(ram[..], 512 * i + j) && SameElsewhere(first, ram[..])
    {
      ok := FillEntry(ram, i, j, first);
      if !ok {
        return;
      }
      j := j + 1;
    }
    ok := true;
  }

  method FillEntry(ram: array<byte>, i: nat, j: nat, ghost first: bytes) returns (ok: bool)
    requires i < 4 && j < 512
    requires ram.Length >= TABLES_END ==>
               Root(ram[..]) && Directories(ram[..], 4) && Pages(ram[..], 512 * i + j) && SameElsewhere(first, ram[..])
    modifies ram
    ensures ok == (PD0 + 0x1000 * i + 8 * j + 8 <= ram.Length)
    ensures ram.Length >= TABLES_END ==>
              Root(ram[..]) && Directories(ram[..], 4) && Pages(ram[..], 512 * i + j + 1) && SameElsewhere(first, ram[..])
  {
    var phys := (i * 512 + j) * PAGE_2M;
    ghost var was := ram[..];
    ok := WriteWord(ram, PD0 + i * 0x1000 + j * 8, phys + 0x83);
    if ram.Length >= TABLES_END {
      NextPage(was, ram[..], 512 * i + j);
      KeepsElsewhere(first, was, ram[..], PD0 + i * 0x1000 + j * 8, phys + 0x83);
    }
  }

  /** The directory pointers. */
  method FillPointers(ram: array<byte>, ghost first: bytes) returns (ok: bool)
    requires ram.Length >= TABLES_END ==> Root(ram[..]) && SameElsewhere(first, ram[..])
    modifies ram
    ensures ok == (PDPT + 32 <= ram.Length)
    ensures ram.Length >= TABLES_END ==> Root(ram[..]) && Directories(ram[..], 4) && SameElsewhere(first, ram[..])
  {
    var i := 0;
    while i < 4
      invariant 0 <= i <= 4 && (i > 0 ==> PDPT + 8 * i <= ram.Length)
      invariant ram.Length >= TABLES_END ==> Root(ram[..]) && Directories(ram[..], i) && SameElsewhere(first, ram[..])
    {
      ghost var was := ram[..];
      ok := WriteWord(ram, PDPT + i * 8, PD0 + i * 0x1000 + 3);
      if !ok {
        return;
      }
      if ram.Length >= TABLES_END {
        NextDirectory(was, ram[..], i);
        KeepsElsewhere(first, was, ram[..], PDPT + i * 8, PD0 + i * 0x1000 + 3);
      }
      i := i + 1;
    }
    ok := true;
  }

  /** The three levels, in the order the code writes them. */
  method BuildTables(ram: array<byte>) returns (ok: bool)
    modifies ram
    ensures ok == (ram.Length >= TABLES_END)
    ensures ok ==> Mapped(ram[..]) && SameElsewhere(old(ram[..]), ram[..])
  {
    ghost var first := ram[..];
    ok := WriteWord(ram, PML4, PDPT + 3);
    if !ok {
      return;
    }
    if ram.Length >= TABLES_END {
      KeepsElsewhere(first, first, ram[..], PML4, PDPT + 3);
    }
    ok := FillPointers(ram, first);
    if !ok {
      return;
    }
    var i := 0;
    while i < 4
      invariant 0 <= i <= 4 && (i > 0 ==> PD0 + 0x1000 * i <= ram.Length)
      invariant ram.Length >= TABLES_END ==>
                  Root(ram[..]) && Directories(ram[..], 4) && Pages(ram[..], 512 * i) && SameElsewhere(first, ram[..])
    {
      ok := FillDirectory(ram, i, first);
      if !ok {
        return;
      }
      i := i + 1;
    }
  }

  /** Tables, then the flat segment descriptors, which lie below them. */
  method SetupFlatLong64(ram: array<byte>, code: u64, data: u64) returns (ok: bool)
    modifies ram
    ensures ok == (ram.Length >= TABLES_END)
    ensures ok ==> Mapped(ram[..]) && SameElsewhere(old(ram[..]), ram[..])
    ensures ok ==> Word(ram[..], GDT) == 0 && Word(ram[..], GDT + 8) == code && Word(ram[..], GDT + 16) == data
  {
    ghost var first := ram[..];
    ok := BuildTables(ram);
    if !ok {
      return;
    }
    ghost var r0 := ram[..];
    ok := WriteWord(ram, GDT, 0);
    ghost var r1 := ram[..];
    ok := WriteWord(ram, GDT + 8, code);
    ghost var r2 := ram[..];
    ok := WriteWord(ram, GDT + 16, data);
    DescriptorWrite(first, r0, r1, GDT, 0);
    DescriptorWrite(first, r1, r2, GDT + 8, code);
    DescriptorWrite(first, r2, ram[..], GDT + 16, data);
    WroteElsewhere(r1, r2, GDT + 8, code, GDT);
    WroteElsewhere(r2, ram[..], GDT + 16, data, GDT);
    WroteElsewhere(r2, ram[..], GDT + 16, data, GDT + 8);
  }

  // ---- The walk ----

  /** Where a linear address leads, and what the entries on the way allow. */
  datatype Translation = Translation(physical: nat, writable: bool, user: bool)

  function Present(e: nat): bool { e % 2 == 1 }
  function Writable(e: nat): bool { (e / 2) % 2 == 1 }
  function User(e: nat): bool { (e / 4) % 2 == 1 }
  function IsPage(e: nat): bool { (e / 128) % 2 == 1 }

  /** Bits 51 down to the size of what the entry refers to. */
  function Frame(e: nat, size: nat): nat
    requires size > 0
  {
    ((e % 0x10_0000_0000_0000) / size) * size
  }

  /** An entry outside memory reads as not present. */
  function Entry(ram: bytes, table: nat, index: nat): nat {
    if table + 8 * index + 8 <= |ram| then Word(ram, table + 8 * index) else 0
  }

  function WalkTable(ram: bytes, table: nat, la: nat, w: bool, u: bool): Option<Translation> {
    var e := Entry(ram, table, (la / 0x1000) % 512);
    if !Present(e) then None
    else Some(Translation(Frame(e, 0x1000) + la % 0x1000, w && Writable(e), u && User(e)))
  }

  function WalkDirectory(ram: bytes, table: nat, la: nat, w: bool, u: bool): Option<Translation> {
    var e := Entry(ram, table, (la / PAGE_2M) % 512);
    if !Present(e) then None
    else if IsPage(e) then Some(Translation(Frame(e, PAGE_2M) + la % PAGE_2M, w && Writable(e), u && User(e)))
    else WalkTable(ram, Frame(e, 0x1000), la, w && Writable(e), u && User(e))
  }

  function WalkPointers(ram: bytes, table: nat, la: nat, w: bool, u: bool): Option<Translation> {
    var e := Entry(ram, table, (la / GIB) % 512);
    if !Present(e) then None
    else if IsPage(e) then Some(Translation(Frame(e, GIB) + la % GIB, w && Writable(e), u && User(e)))
    else WalkDirectory(ram, Frame(e, 0x1000), la, w && Writable(e), u && User(e))
  }

  /** The 4-level walk from the table at `cr3`. */
  function Walk(ram: bytes, cr3: nat, la: nat): Option<Translation> {
    var e := Entry(ram, cr3, (la / (512 * GIB)) % 512);
    if !Present(e) then None else WalkPointers(ram, Frame(e, 0x1000), la, Writable(e), User(e))
  }

  lemma DirectoryEntry(i: nat)
    requires i < 4
    ensures var e := PD0 + 0x1000 * i + 3;
            Present(e) && Writable(e) && !User(e) && !IsPage(e) && Frame(e, 0x1000) == PD0 + 0x1000 * i
  {
  }

  lemma PageEntry(k: nat)
    requires k < 2048
    ensures var e := PAGE_2M * k + 0x83;
            Present(e) && Writable(e) && !User(e) && IsPage(e) && Frame(e, PAGE_2M) == PAGE_2M * k
  {
    var e := PAGE_2M * k + 0x83;
    DivIs(e, 2, 0x10_0000 * k + 0x41, 1);
    DivIs(0x10_0000 * k + 0x41, 2, 0x8_0000 * k + 0x20, 1);
    DivIs(e, 4, 0x8_0000 * k + 0x20, 3);
    DivIs(0x8_0000 * k + 0x20, 2, 0x4_0000 * k + 0x10, 0);
    DivIs(e, 128, 0x4000 * k + 1, 3);
    DivIs(0x4000 * k + 1, 2, 0x2000 * k, 1);
    DivIs(e, 0x10_0000_0000_0000, 0, e);
    DivIs(e, PAGE_2M, k, 0x83);
  }

  lemma Indices(la: nat)
    requires la < 4 * GIB
    ensures (la / (512 * GIB)) % 512 == 0 && (la / GIB) % 512 == la / GIB < 4
    ensures 512 * (la / GIB) + (la / PAGE_2M) % 512 == la / PAGE_2M < 2048
    ensures PAGE_2M * (la / PAGE_2M) + la % PAGE_2M == la
  {
  }

  lemma PointerEntry(ram: bytes, i: nat)
    requires Mapped(ram) && i < 4
    ensures Entry(ram, PML4, 0) == PDPT + 3 && Present(PDPT + 3) && Writable(PDPT + 3) && !User(PDPT + 3)
    ensures Frame(PDPT + 3, 0x1000) == PDPT && Entry(ram, PDPT, i) == PD0 + 0x1000 * i + 3
  {
  }

  lemma LeafEntry(ram: bytes, i: nat, j: nat)
    requires Mapped(ram) && i < 4 && j < 512
    ensures Entry(ram, PD0 + 0x1000 * i, j) == PAGE_2M * (512 * i + j) + 0x83
  {
    var k := 512 * i + j;
    assert PD0 + 0x1000 * i + 8 * j == PD0 + 8 * k;
    assert Word(ram, PD0 + 8 * k) == PAGE_2M * k + 0x83;
  }

  lemma DirectoryLeads(ram: bytes, la: nat, i: nat, j: nat)
    requires Mapped(ram) && i < 4 && (la / PAGE_2M) % 512 == j
    ensures WalkDirectory(ram, PD0 + 0x1000 * i, la, true, false) ==
            Some(Translation(PAGE_2M * (512 * i + j) + la % PAGE_2M, true, false))
  {
    var e := PAGE_2M * (512 * i + j) + 0x83;
    LeafEntry(ram, i, j);
    PageEntry(512 * i + j);
    assert Entry(ram, PD0 + 0x1000 * i, (la / PAGE_2M) % 512) == e;
  }

  lemma PointersLead(ram: bytes, la: nat)
    requires Mapped(ram) && la < 4 * GIB
    ensures WalkPointers(ram, PDPT, la, true, false) == WalkDirectory(ram, PD0 + 0x1000 * (la / GIB), la, true, false)
  {
    Indices(la);
    PointerEntry(ram, la / GIB);
    DirectoryEntry(la / GIB);
  }

  lemma RootLeads(ram: bytes, la: nat)
    requires Mapped(ram) && (la / (512 * GIB)) % 512 == 0
    ensures Walk(ram, PML4, la) == WalkPointers(ram, PDPT, la, true, false)
  {
    PointerEntry(ram, 0);
  }

  lemma DirectoryIsIdentity(ram: bytes, la: nat)
    requires Mapped(ram) && la < 4 * GIB
    ensures WalkDirectory(ram, PD0 + 0x1000 * (la / GIB), la, true, false) == Some(Translation(la, true, false))
  {
    Indices(la);
    DirectoryLeads(ram, la, la / GIB, (la / PAGE_2M) % 512);
  }

  /** Every linear address below 4 GiB maps to itself, writable, for the supervisor only. */
  lemma IdentityBelow4G(ram: bytes, la: nat)
    requires Mapped(ram) && la < 4 * GIB
    ensures Walk(ram, PML4, la) == Some(Translation(la, true, false))
  {
    DirectoryIsIdentity(ram, la);
    PointersLead(ram, la);
    Indices(la);
    RootLeads(ram, la);
  }

  lemma HighIndices(la: nat)
    requires 4 * GIB <= la < 512 * 512 * GIB
    ensures (la / (512 * GIB)) % 512 == 0 ==> (la / GIB) % 512 >= 4
  {
  }

  lemma NoRoot(was: bytes, ram: bytes, i: nat)
    requires SameElsewhere(was, ram) && |ram| >= TABLES_END && 0 < i < 512
    requires forall a :: 0 <= a < |was| ==> was[a] == 0
    ensures !Present(Entry(ram, PML4, i))
  {
    ClearWord(was, ram, PML4 + 8 * i);
  }

  lemma NoPointer(was: bytes, ram: bytes, i: nat)
    requires SameElsewhere(was, ram) && |ram| >= TABLES_END && 4 <= i < 512
    requires forall a :: 0 <= a < |was| ==> was[a] == 0
    ensures !Present(Entry(ram, PDPT, i))
  {
    ClearWord(was, ram, PDPT + 8 * i);
  }

  /** And where memory was clear before, nothing from 4 GiB up is mapped. */
  lemma NothingAbove4G(was: bytes, ram: bytes, la: nat)
    requires SameElsewhere(was, ram) && Mapped(ram)
    requires forall a :: 0 <= a < |was| ==> was[a] == 0
    requires 4 * GIB <= la < 512 * 512 * GIB
    ensures Walk(ram, PML4, la) == None
  {
    var i := (la / (512 * GIB)) % 512;
    if i > 0 {
      NoRoot(was, ram, i);
    } else {
      HighIndices(la);
      RootLeads(ram, la);
      NoPointer(was, ram, (la / GIB) % 512);
    }
  }

  lemma ClearWord(was: bytes, ram: bytes, a: nat)
    requires SameElsewhere(was, ram) && a + 8 <= |ram| && forall x :: a <= x < a + 8 ==> !Ours(x)
    requires forall x :: 0 <= x < |was| ==> was[x] == 0
    ensures Word(ram, a) == 0
  {
    var word, zero := ram[a..a + 8], seq(8, _ => 0 as byte);
    forall k | 0 <= k < |word| ensures word[k] == zero[k] {
      assert ram[a + k] == was[a + k];
    }
    assert word == zero;
    ZerosAreZero(word);
  }

  lemma {:induction false} ZerosAreZero(b: bytes)
    requires forall k :: 0 <= k < |b| ==> b[k] == 0
    ensures FromLittleEndian(b) == 0
  {
    if b != [] {
      ZerosAreZero(b[1..]);
    }
  }
}
