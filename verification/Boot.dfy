// physical.c: phys_memory_init, from the BIOS memory map to the kernel's map of memory and the allocator.
module Boot {
  import opened Words
  import opened Entries
  import opened PhysBook
  import opened PhysAlloc
  import opened PageTree
  import opened MemoryMap
  import opened IdentityMap

  function CarvedMap(m: seq<Region>): (m': seq<Region>)
    ensures |m'| == |m| && forall i {:trigger m'[i]} :: 0 <= i < |m| ==> m'[i] == Carved(m[i])
  {
    seq(|m|, i requires 0 <= i < |m| => Carved(m[i]))
  }

  // Directories added for map m, and the frames the kernel's map then spans
  function Added(m: seq<Region>): nat {
    ExtraDirectories(Highest(CarvedMap(m)))
  }

  // Each added directory, and no other, is one that usable memory left by the carving calls for.
  ghost predicate CalledFor(m: seq<Region>, n: nat) {
    forall d :: d > 0 ==> (d <= n <==> Reaches(m, d))
  }

  ghost predicate Reaches(m: seq<Region>, d: nat) {
    exists i :: 0 <= i < |m| && Carved(m[i]).usable && End(Carved(m[i])) >= d * GIB + GIB / 2
  }

  lemma AddedAreCalledFor(m: seq<Region>)
    ensures CalledFor(m, Added(m))
  {
    forall d | d > 0 ensures d <= Added(m) <==> Reaches(m, d) {
      var carved := CarvedMap(m);
      AddedFor(carved, d);
      hide ExtraDirectories, Highest, Carved;
      if Reaches(m, d) {
        var i :| 0 <= i < |m| && Carved(m[i]).usable && End(Carved(m[i])) >= d * GIB + GIB / 2;
        assert carved[i].usable && End(carved[i]) >= d * GIB + GIB / 2;
      }
      if i :| 0 <= i < |carved| && carved[i].usable && End(carved[i]) >= d * GIB + GIB / 2 {
        assert Carved(m[i]).usable;
      }
    }
  }

  function Spanned(m: seq<Region>): nat {
    (1 + Added(m)) * 0x4_0000
  }

  // The tables of prekernel.s lie in the kernel's image.
  ghost predicate Static(memory: Ram, pml4: nat, pdpt: nat, first: nat) {
    && Mapping(memory, pml4, pdpt, first, 0, 0)
    && 0x100 <= pml4 < 0x400 && 0x100 <= pdpt < 0x400 && 0x100 <= first < 0x400
    && pml4 != pdpt && first != pdpt && pml4 != first
  }

  // What is left of the map after both carvings
  predicate Left(m: seq<Region>, m': seq<Region>, k: nat, base: nat, n: nat) {
    && k < |m| && Fits(Carved(m[k]), n * 0x1000) && base * 0x1000 == AlignPage(Carved(m[k]).base)
    && m' == CarvedMap(m)[k := Claimed(Carved(m[k]), n * 0x1000)]
  }

  lemma LeftIs(m: seq<Region>, carved: seq<Region>, m': seq<Region>, k: nat, start: nat, n: nat)
    requires |carved| == |m| && k < |m| && forall i :: 0 <= i < |m| ==> carved[i] == Carved(m[i])
    requires Fits(carved[k], n * 0x1000) && start == AlignPage(carved[k].base)
    requires m' == carved[k := Claimed(carved[k], n * 0x1000)]
    ensures start == start / 0x1000 * 0x1000 && Left(m, m', k, start / 0x1000, n)
  {
    assert carved == CarvedMap(m);
    hide Fits;
    assert start % 0x1000 == 0;
  }

  lemma LeftIsApart(m: seq<Region>, m': seq<Region>, k: nat, base: nat, n: nat)
    requires Disjoint(m) && Left(m, m', k, base, n)
    ensures Disjoint(m') && OutsideKernel(m') && 0x400 <= base < 0x4_0000
  {
    var carved := CarvedMap(m);
    CarvedDisjoint(m, carved);
    CarvedOutside(m, carved);
    ClaimedDisjoint(carved, k, n * 0x1000);
    hide CarvedMap, Carved, Disjoint, AlignPage;
  }

  // The new tables are in no block of what is left.
  lemma TablesApart(m: seq<Region>, m': seq<Region>, k: nat, base: nat, n: nat, c: nat)
    requires Disjoint(m) && Left(m, m', k, base, n) && BlockOf(m', c)
    ensures c + 512 <= base || base + n <= c
  {
    var carved := CarvedMap(m);
    CarvedDisjoint(m, carved);
    hide CarvedMap, Carved, AlignPage, BlockOf;
    BlockWhere(m', c);
    var i :| 0 <= i < |m'| && BlockIn(m'[i], c);
    if i != k {
      assert m'[i] == carved[i] && carved[i].usable && carved[k].usable;
      Halves(carved, i, k);
    }
  }

  lemma BlockWhere(m: seq<Region>, c: nat)
    requires BlockOf(m, c)
    ensures exists i :: 0 <= i < |m| && BlockIn(m[i], c)
  {
  }

  lemma Halves(m: seq<Region>, i: nat, j: nat)
    requires Disjoint(m) && i < |m| && j < |m| && i != j && m[i].usable && m[j].usable
    ensures End(m[i]) <= m[j].base || End(m[j]) <= m[i].base
  {
  }

  // With all memory spanned, no block is missed.
  lemma BlocksSpanned(m: seq<Region>, m': seq<Region>, k: nat, base: nat, n: nat, c: nat)
    requires Left(m, m', k, base, n) && BlockOf(m', c) && Highest(CarvedMap(m)) <= (1 + Added(m)) * GIB
    ensures c < Spanned(m)
  {
    var carved := CarvedMap(m);
    hide CarvedMap, Carved, AlignPage, BlockOf, Highest;
    BlockWhere(m', c);
    var i :| 0 <= i < |m'| && BlockIn(m'[i], c);
    assert carved[i].usable && End(m'[i]) <= End(carved[i]);
    BelowHighest(carved, i);
  }

  lemma BelowHighest(m: seq<Region>, i: nat)
    requires i < |m| && m[i].usable
    ensures End(m[i]) <= Highest(m)
  {
    HighestReached(m);
  }

  lemma SpannedIsWhole(m: seq<Region>, memory: Ram)
    requires Highest(CarvedMap(m)) <= 0x80_0000_0000 && forall f :: f in memory <==> f < Spanned(m)
    ensures Added(m) <= 511 && ExtraPointerTables(Added(m)) == 0 && WholeChunks(memory)
  {
    hide Highest, CarvedMap;
    NoExtraPointerTables(Highest(CarvedMap(m)));
    var n := Added(m);
    hide Added;
    forall c: nat, f: nat | c % 512 == 0 && c in memory && c <= f < c + 512 ensures f in memory {
      assert c == 512 * (c / 512) && (1 + n) * 0x4_0000 == 512 * ((1 + n) * 512);
    }
  }

  lemma TablesInside(m: seq<Region>, base: nat)
    requires base < 0x4_0000 && Added(m) <= 511
    ensures Added(m) > 0 ==> base + Added(m) <= Spanned(m)
  {
  }

  // What phys_memory_init leaves behind: the stack of chunks holds exactly the aligned 2MiB blocks of what is left of
  // the memory map; no chunk contains a frame of the kernel or of its page tables; and the kernel's tables map physical
  // memory from KERNEL_BASE on, with nothing in the user half.
  ghost predicate Booted(m': seq<Region>, ram: Ram, b: Book, pml4: nat, pdpt: nat, first: nat, base: nat, n: nat) {
    && (forall c :: c in b.chunks <==> BlockOf(m', c)) && (forall c :: c in b.managed <==> c in b.chunks)
    && b.pools == map[] && b.list == [] && b.owned == {}
    && (forall c :: c in b.chunks ==> c >= 0x400 && (c + 512 <= base || base + n <= c))
    && Mapping(ram, pml4, pdpt, first, base, n) && (forall i :: 0 <= i < 256 ==> ram[pml4][i] == 0)
  }

  // found is false: panic, no region fits. ok is false: a page fault, some block is not mapped.
  method PhysMemoryInit(a: array<Region>, memory: Ram, pml4: nat, pdpt: nat, first: nat, fixed: bool)
      returns (found: bool, ok: bool, mem: PhysMem?, ghost k: nat, base: nat, n: nat)
    requires Disjoint(a[..]) && Highest(CarvedMap(a[..])) <= 0x80_0000_0000
    requires Static(memory, pml4, pdpt, first) && forall f :: f in memory <==> f < Spanned(a[..])
    modifies a
    ensures n == Added(old(a[..])) && CalledFor(old(a[..]), n) && (found ==> Left(old(a[..]), a[..], k, base, n))
    ensures ok ==> found && mem != null && fresh(mem) && mem.Valid() && mem.repaired == fixed
    ensures ok ==> Booted(a[..], mem.ram, mem.book, pml4, pdpt, first, base, n)
    ensures found && !ok ==> Highest(CarvedMap(old(a[..]))) > (1 + n) * GIB
    ensures !found ==> forall j :: 0 <= j < a.Length && Fits(a[j], n * 0x1000) ==>
      exists i :: 0 <= i < j && a[i].usable && a[i].length >= 0x1000 && AlignPage(a[i].base) >= GIB
  {
    hide *;
    ghost var m := a[..];
    SpannedIsWhole(m, memory);
    var total, highest := GetTotalUsableRam(a);
    ghost var carved := a[..];
    CarvedIs(m, carved);
    ok, mem, k, base := false, null, 0, 0;
    n := ExtraDirectories(highest);
    AddedIs(m, highest);
    AddedAreCalledFor(m);
    var start: nat;
    found, start, k := ClaimRegion(a, n * 0x1000 + ExtraPointerTables(n) * 0x1000);
    if !found {
      return;
    }
    LeftIs(m, carved, a[..], k, start, n);
    base := start / 0x1000;
    LeftIsApart(m, a[..], k, base, n);
    TablesInside(m, base);
    StaticApart(memory, pml4, pdpt, first, base, n);
    var ram := CreatePagingStructures(memory, pdpt, base, n);
    SmallRoom(n);
    FilledKeys(memory, ram, pdpt, base, n);
    NoTables(memory, pml4, pdpt, first, base);
    MappingFilled(memory, ram, pml4, pdpt, first, base, n);
    WholeKeys(memory, ram);
    ghost var m' := a[..];
    ok, mem := SetupPhysicalAllocator(a, ram, fixed);
    if !ok {
      if Highest(CarvedMap(m)) <= (1 + n) * GIB {
        forall c | BlockOf(m', c) ensures c in ram {
          BlocksSpanned(m, m', k, base, n, c);
        }
      }
      return;
    }
    forall c | c in mem.book.chunks ensures c >= 0x400 && (c + 512 <= base || base + n <= c) {
      TablesApart(m, m', k, base, n, c);
      BlockAboveKernel(m', c);
      AboveKernel(c);
    }
    StaticOutside(memory, mem.book, pml4, pdpt, first);
    MappingSetUp(ram, mem.ram, mem.book, pml4, pdpt, first, base, n);
    ghost var book := mem.book;
    var i := 0;
    while i < 256
      invariant i <= 256 && mem.Valid() && mem.book == book && a[..] == m' && pml4 in mem.ram
      invariant Mapping(mem.ram, pml4, pdpt, first, base, n)
      invariant forall j :: 0 <= j < i ==> mem.ram[pml4][j] == 0
    {
      ghost var ram1 := mem.ram;
      mem.KernelStore(pml4, i, 0);
      StaticApart(memory, pml4, pdpt, first, base, n);
      MappingKept(ram1, mem.ram, pml4, pdpt, first, base, n);
      i := i + 1;
    }
    BootedNow(m', mem.ram, mem.book, pml4, pdpt, first, base, n);
  }

  lemma CarvedIs(m: seq<Region>, carved: seq<Region>)
    requires |carved| == |m| && forall i :: 0 <= i < |m| ==> carved[i] == Carved(m[i])
    ensures carved == CarvedMap(m)
  {
  }

  lemma AddedIs(m: seq<Region>, highest: nat)
    requires highest == Highest(CarvedMap(m))
    ensures ExtraDirectories(highest) == Added(m)
  {
  }

  lemma StaticApart(memory: Ram, pml4: nat, pdpt: nat, first: nat, base: nat, n: nat)
    requires Static(memory, pml4, pdpt, first) && 0x400 <= base
    ensures pml4 in memory && pdpt in memory && Mapping(memory, pml4, pdpt, first, 0, 0)
    ensures pml4 != pdpt && first != pdpt && pml4 != first && pml4 < 0x400 && pdpt < 0x400 && first < 0x400
    ensures !(base <= pml4 < base + n) && !(base <= pdpt < base + n) && !(base <= first < base + n)
  {
  }

  lemma SmallRoom(n: nat)
    requires n <= 511
    ensures Room(n) == n
  {
  }

  lemma NoTables(ram: Ram, pml4: nat, pdpt: nat, first: nat, base: nat)
    requires Mapping(ram, pml4, pdpt, first, 0, 0)
    ensures Mapping(ram, pml4, pdpt, first, base, 0)
  {
    hide BootTable, Directory;
  }

  lemma AboveKernel(c: nat)
    requires c * 0x1000 >= KERNEL_END
    ensures c >= 0x400
  {
  }

  lemma StaticOutside(memory: Ram, b: Book, pml4: nat, pdpt: nat, first: nat)
    requires Static(memory, pml4, pdpt, first) && forall c :: c in b.managed ==> c >= 0x400
    ensures Outside(b, pml4)
  {
    hide Mapping;
  }

  // Pushing chunks writes no table.
  lemma MappingSetUp(ram: Ram, ram': Ram, b: Book, pml4: nat, pdpt: nat, first: nat, base: nat, n: nat)
    requires Mapping(ram, pml4, pdpt, first, base, n) && SameOutside(ram, ram', b.chunks)
    requires pml4 < 0x400 && pdpt < 0x400 && first < 0x400
    requires forall c :: c in b.chunks ==> c >= 0x400 && (c + 512 <= base || base + n <= c)
    ensures Mapping(ram', pml4, pdpt, first, base, n) && pml4 in ram'
  {
    hide BootTable, Directory;
    forall f | f in ram && KernelTable(pml4, pdpt, first, base, n, f) ensures ram'[f] == ram[f] {
      assert f !in b.chunks;
    }
    assert pml4 in ram;
    MappingKept(ram, ram', pml4, pdpt, first, base, n);
  }

  lemma BootedNow(m': seq<Region>, ram: Ram, b: Book, pml4: nat, pdpt: nat, first: nat, base: nat, n: nat)
    requires (forall c :: c in b.chunks <==> BlockOf(m', c)) && (forall c :: c in b.managed <==> BlockOf(m', c))
    requires b.pools == map[] && b.list == [] && b.owned == {}
    requires forall c :: c in b.chunks ==> c >= 0x400 && (c + 512 <= base || base + n <= c)
    requires Mapping(ram, pml4, pdpt, first, base, n) && forall i :: 0 <= i < 256 ==> ram[pml4][i] == 0
    ensures Booted(m', ram, b, pml4, pdpt, first, base, n)
  {
    hide BlockOf, Mapping;
  }

  // After boot, the page at KERNEL_BASE + phys is found at phys, for all memory that was to be mapped; the kernel may
  // write and execute it, user code may not use it.
  lemma BootedWalk(m': seq<Region>, ram: Ram, b: Book, pml4: nat, pdpt: nat, first: nat, base: nat, n: nat, f: nat)
    requires Booted(m', ram, b, pml4, pdpt, first, base, n) && f < (1 + n) * 0x4_0000 && f < MAX_FRAMES
    ensures var kids, page := Kids(ram, ram[pml4], 4), KERNEL_PAGE + f;
      && FindIn(kids, 4, page) == Leaf(f, 3, true)
      && Both(PathAllows(Path(kids, 4, page)), Allowed(3)) == Permission(true, false, true)
  {
    hide Mapping, PathAllows;
    KernelAllows();
    IdentityWalk(ram, pml4, pdpt, first, base, n, f);
  }
}
