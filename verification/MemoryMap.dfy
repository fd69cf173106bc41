// physical.c and phys_alloc.c at boot: the BIOS memory map, what is left of it after the kernel and the paging
// structures have been carved out, and the chunks the allocator starts with.
module MemoryMap {
  import opened Words
  import opened PhysBook
  import opened PhysAlloc

  const KERNEL_START: nat := 0x10_0000
  const KERNEL_END: nat := 0x40_0000
  const GIB: nat := 0x4000_0000

  // An entry of the memory map; usable is type 1.
  datatype Region = Region(base: nat, length: nat, usable: bool)

  function End(r: Region): nat {
    r.base + r.length
  }

  function AlignBlock(x: nat): (a: nat)
    ensures a % 0x20_0000 == 0 && x <= a < x + 0x20_0000
  {
    x / 0x20_0000 * 0x20_0000 + (if x % 0x20_0000 > 0 then 0x20_0000 else 0)
  }

  function AlignPage(x: nat): (a: nat)
    ensures a % 0x1000 == 0 && x <= a < x + 0x1000
  {
    x / 0x1000 * 0x1000 + (if x % 0x1000 > 0 then 0x1000 else 0)
  }

  ghost predicate Disjoint(map_: seq<Region>) {
    forall i, j :: 0 <= i < j < |map_| && map_[i].usable && map_[j].usable ==>
      End(map_[i]) <= map_[j].base || End(map_[j]) <= map_[i].base
  }

  // ---------------------------------------------------------------------------------------------
  // get_total_usable_ram: take the kernel out

  // The cases of the loop, in its order
  function Carved(r: Region): Region {
    if !r.usable then r
    else if r.base < KERNEL_START && End(r) > KERNEL_START then r.(length := KERNEL_START - r.base)
    else if r.base < KERNEL_END && End(r) > KERNEL_END then Region(KERNEL_END, End(r) - KERNEL_END, true)
    else if r.base >= KERNEL_START && End(r) <= KERNEL_END then r.(usable := false)
    else r
  }

  // Case 4, a region that contains the kernel, is taken by case 1: what lies above the kernel is given up. Case 4
  // itself is never reached.
  lemma CaseFour(r: Region)
    requires r.usable && r.base < KERNEL_START && End(r) > KERNEL_END
    ensures r.base < KERNEL_START && End(r) > KERNEL_START
    ensures Carved(r) == Region(r.base, KERNEL_START - r.base, true)
  {
  }

  // What the carving keeps of a byte: everything outside the kernel, except above it in a region that contains it.
  lemma CarvedKeeps(r: Region, x: nat)
    ensures Carved(r).usable && Carved(r).base <= x < End(Carved(r)) <==>
      r.usable && r.base <= x < End(r) && !(KERNEL_START <= x < KERNEL_END) &&
        !(r.base < KERNEL_START && x >= KERNEL_END)
  {
  }

  lemma CarvedDisjoint(map_: seq<Region>, map': seq<Region>)
    requires Disjoint(map_) && |map'| == |map_| && forall i :: 0 <= i < |map_| ==> map'[i] == Carved(map_[i])
    ensures Disjoint(map')
  {
    forall i, j | 0 <= i < j < |map'| && map'[i].usable && map'[j].usable
      ensures End(map'[i]) <= map'[j].base || End(map'[j]) <= map'[i].base
    {
      assert map_[i].usable && map_[j].usable;
      assert map_[i].base <= map'[i].base && End(map'[i]) <= End(map_[i]);
      assert map_[j].base <= map'[j].base && End(map'[j]) <= End(map_[j]);
    }
  }

  // The totals the loop keeps
  function UsableRam(map_: seq<Region>): nat {
    if map_ == [] then 0
    else UsableRam(map_[..|map_| - 1]) + (if map_[|map_| - 1].usable then map_[|map_| - 1].length else 0)
  }

  // Where usable memory ends: 0, or the end of a usable region
  function Highest(map_: seq<Region>): nat {
    if map_ == [] then 0
    else
      var r := map_[|map_| - 1];
      var h := Highest(map_[..|map_| - 1]);
      if r.usable && End(r) > h then End(r) else h
  }

  ghost predicate IsHighest(map_: seq<Region>, h: nat) {
    && (forall i :: 0 <= i < |map_| && map_[i].usable ==> End(map_[i]) <= h)
    && (h == 0 || exists i :: 0 <= i < |map_| && map_[i].usable && End(map_[i]) == h)
  }

  lemma {:induction false} HighestReached(map_: seq<Region>)
    ensures IsHighest(map_, Highest(map_))
  {
    if map_ != [] {
      var rest := map_[..|map_| - 1];
      HighestReached(rest);
      assert forall i :: 0 <= i < |rest| ==> rest[i] == map_[i];
      if i :| 0 <= i < |rest| && rest[i].usable && End(rest[i]) == Highest(rest) {
        assert map_[i] == rest[i];
      }
    }
  }

  // The cases, as the loop makes them in the map
  method CarveRegion(a: array<Region>, i: nat)
    requires i < a.Length
    modifies a
    ensures a[i] == Carved(old(a[i])) && forall j :: 0 <= j < a.Length && j != i ==> a[j] == old(a[j])
  {
    var r := a[i];
    if r.usable {
      if r.base < KERNEL_START && End(r) > KERNEL_START {
        a[i] := r.(length := KERNEL_START - r.base);
      } else if r.base < KERNEL_END && End(r) > KERNEL_END {
        a[i] := Region(KERNEL_END, End(r) - KERNEL_END, true);
      } else if r.base >= KERNEL_START && End(r) <= KERNEL_END {
        a[i] := r.(usable := false);
      }   // case 4 would follow: see CaseFour
    }
  }

  method GetTotalUsableRam(a: array<Region>) returns (total: nat, highest: nat)
    modifies a
    ensures forall i :: 0 <= i < a.Length ==> a[i] == Carved(old(a[i]))
    ensures total == UsableRam(a[..]) && highest == Highest(a[..])
    ensures IsHighest(a[..], highest)
  {
    total, highest := 0, 0;
    var i := 0;
    hide *;
    TotalsStart();
    assert a[..0] == [];
    while i < a.Length
      invariant i <= a.Length
      invariant forall j :: 0 <= j < i ==> a[j] == Carved(old(a[j]))
      invariant forall j :: i <= j < a.Length ==> a[j] == old(a[j])
      invariant total == UsableRam(a[..i]) && highest == Highest(a[..i])
    {
      ghost var done := a[..i];
      CarveRegion(a, i);
      if a[i].usable {
        total := total + a[i].length;
        if End(a[i]) > highest {
          highest := End(a[i]);
        }
      }
      assert a[..i] == done;
      assert a[..i + 1] == done + [a[i]];
      TotalsStep(done, a[i]);
      i := i + 1;
    }
    assert a[..a.Length] == a[..];
    HighestReached(a[..]);
  }

  lemma TotalsStart()
    ensures UsableRam([]) == 0 && Highest([]) == 0
  {
  }

  lemma TotalsStep(done: seq<Region>, r: Region)
    ensures UsableRam(done + [r]) == UsableRam(done) + if r.usable then r.length else 0
    ensures Highest(done + [r]) == if r.usable && End(r) > Highest(done) then End(r) else Highest(done)
  {
    assert (done + [r])[..|done|] == done;
  }

  // ---------------------------------------------------------------------------------------------
  // phys_memory_init: how much to map, and where the tables go

  // Page directories to add to the one that maps the first GiB
  function ExtraDirectories(highest: nat): nat {
    var n := (highest + GIB / 2) / GIB;
    if n >= 1 then n - 1 else 0
  }

  // Directory n is added exactly when some usable memory ends half a GiB into its GiB or later.
  lemma AddedFor(map_: seq<Region>, n: nat)
    requires n > 0
    ensures n <= ExtraDirectories(Highest(map_)) <==>
      exists i :: 0 <= i < |map_| && map_[i].usable && End(map_[i]) >= n * GIB + GIB / 2
  {
    HighestReached(map_);
    DirectoriesAt(Highest(map_), n);
    hide ExtraDirectories;
  }

  lemma DirectoriesAt(highest: nat, n: nat)
    requires n > 0
    ensures n <= ExtraDirectories(highest) <==> highest >= n * GIB + GIB / 2
  {
  }

  // Page-directory-pointer tables to add
  function ExtraPointerTables(n: nat): nat {
    var k := (n + 1) / 512;
    if k >= 1 then k - 1 else 0
  }

  // The rounding is to the nearest GiB, not up: all memory gets mapped exactly when it ends at most half a GiB into
  // its first, or at least half a GiB into its last one (or on a GiB boundary).
  lemma AllMapped(highest: nat)
    ensures highest <= (1 + ExtraDirectories(highest)) * GIB <==>
      highest <= GIB || highest % GIB == 0 || highest % GIB >= GIB / 2
  {
  }

  // 1.25 GiB of memory: only the first GiB is mapped.
  lemma AllMappedExample()
    ensures ExtraDirectories(0x5000_0000) == 0
  {
  }

  // Below 2^39 bytes no further page-directory-pointer table is wanted.
  lemma NoExtraPointerTables(highest: nat)
    requires highest <= 0x80_0000_0000
    ensures ExtraDirectories(highest) <= 511
    ensures ExtraPointerTables(ExtraDirectories(highest)) == 0
  {
  }

  // The first usable region above the kernel, below 1GiB, with room for the tables
  predicate Fits(r: Region, space: nat) {
    && r.usable && r.length >= 0x1000
    && KERNEL_END <= AlignPage(r.base) < GIB && AlignPage(r.base) - r.base <= r.length
    && r.length - (AlignPage(r.base) - r.base) >= space
  }

  function Claimed(r: Region, space: nat): Region
    requires Fits(r, space)
  {
    Region(AlignPage(r.base) + space, r.length - (AlignPage(r.base) - r.base) - space, true)
  }

  // A region fits when the tables can begin at the first page boundary in it, within the limits.
  lemma FitsMeans(r: Region, space: nat)
    ensures Fits(r, space) <==> r.usable && r.length >= 0x1000 && exists b :: CanBegin(r, space, b)
  {
    if Fits(r, space) { assert CanBegin(r, space, AlignPage(r.base)); }
  }

  predicate CanBegin(r: Region, space: nat, b: nat) {
    b % 0x1000 == 0 && r.base <= b < r.base + 0x1000 && KERNEL_END <= b < GIB && b + space <= End(r)
  }

  // What the claim leaves of it: the bytes behind the tables
  lemma ClaimedKeeps(r: Region, space: nat, x: nat)
    requires Fits(r, space)
    ensures Claimed(r, space).usable
    ensures Claimed(r, space).base <= x < End(Claimed(r, space)) <==>
      r.base <= x < End(r) && x >= AlignPage(r.base) + space
  {
    hide AlignPage;
  }

  // The loop of lines 128 to 182: it stops at a region that fits, or at the first that begins at 1GiB or above.
  method ClaimRegion(a: array<Region>, space: nat) returns (found: bool, base: nat, ghost k: nat)
    modifies a
    ensures found ==> k < a.Length && Fits(old(a[k]), space) && base == AlignPage(old(a[k]).base)
    ensures found ==> a[..] == old(a[..])[k := Claimed(old(a[k]), space)]
    ensures found ==> forall j :: 0 <= j < k ==> !Fits(old(a[j]), space)
    ensures !found ==> a[..] == old(a[..])
    ensures !found ==> forall j :: 0 <= j < a.Length && Fits(a[j], space) ==>
      exists i :: 0 <= i < j && a[i].usable && a[i].length >= 0x1000 && AlignPage(a[i].base) >= GIB
  {
    hide AlignPage;
    found, base, k := false, 0, 0;
    var i := 0;
    while i < a.Length
      invariant i <= a.Length && a[..] == old(a[..])
      invariant forall j :: 0 <= j < i ==> !Fits(a[j], space)
    {
      var r := a[i];
      if r.usable && r.length >= 0x1000 {
        var aligned := AlignPage(r.base);
        var length := r.length - (aligned - r.base);
        if aligned >= GIB {
          return;
        }
        if aligned >= KERNEL_END && length >= space {
          a[i] := Region(aligned + space, length - space, true);
          return true, aligned, i;
        }
      }
      i := i + 1;
    }
  }

  lemma ClaimedDisjoint(map_: seq<Region>, k: nat, space: nat)
    requires Disjoint(map_) && k < |map_| && Fits(map_[k], space)
    ensures Disjoint(map_[k := Claimed(map_[k], space)])
  {
    hide AlignPage;
  }

  // ---------------------------------------------------------------------------------------------
  // setup_physical_allocator

  // Chunk c (a frame number) lies in region r.
  predicate BlockIn(r: Region, c: nat) {
    r.usable && c % 512 == 0 && r.base <= c * 0x1000 && (c + 512) * 0x1000 <= End(r)
  }

  // It lies in usable memory of the map.
  ghost predicate BlockOf(map_: seq<Region>, c: nat) {
    exists i :: 0 <= i < |map_| && BlockIn(map_[i], c)
  }

  // The blocks of a region that begin below byte x
  ghost predicate BlockBelow(r: Region, c: nat, x: nat) {
    BlockIn(r, c) && c * 0x1000 < x
  }

  lemma NextBlock(r: Region, c: nat, base: nat, length: nat)
    requires r.usable && base % 0x20_0000 == 0 && r.base <= base && base + length == End(r) && length >= 0x20_0000
    ensures BlockIn(r, base / 0x1000) && base / 0x1000 * 0x1000 == base && base / 0x1000 % 512 == 0
    ensures BlockBelow(r, c, base + 0x20_0000) <==> BlockBelow(r, c, base) || c == base / 0x1000
  {
    assert base == 0x20_0000 * (base / 0x20_0000);
    assert base / 0x1000 == 512 * (base / 0x20_0000);
    if BlockIn(r, c) {
      assert c == 512 * (c / 512);
    }
  }

  lemma NoBlockBelow(r: Region, c: nat)
    ensures !BlockBelow(r, c, AlignBlock(r.base))
  {
    if BlockIn(r, c) {
      assert c == 512 * (c / 512);
    }
  }

  lemma NoBlockAbove(r: Region, c: nat, x: nat)
    requires End(r) < x + 0x20_0000
    ensures BlockIn(r, c) ==> BlockBelow(r, c, x)
  {
  }

  // The kernel's map of memory consists of whole chunks.
  ghost predicate WholeChunks(ram: Ram) {
    && (forall f :: f in ram ==> f < MAX_FRAMES)
    && (forall c: nat, f: nat :: c % 512 == 0 && c in ram && c <= f < c + 512 ==> f in ram)
  }

  // Only chunks on the stack have been written.
  ghost predicate SameOutside(ram: Ram, ram': Ram, chunks: seq<nat>) {
    ram'.Keys == ram.Keys && forall f :: f in ram && f !in chunks ==> ram'[f] == ram[f]
  }

  lemma SameStart(ram: Ram, chunks: seq<nat>)
    ensures SameOutside(ram, ram, chunks) && ram.Keys == ram.Keys
  {
  }

  lemma SamePushed(ram: Ram, ram1: Ram, ram2: Ram, chunks: seq<nat>, c: nat)
    requires SameOutside(ram, ram1, chunks) && SameExcept(ram1, ram2, {c})
    ensures SameOutside(ram, ram2, [c] + chunks)
  {
  }

  lemma SameAgain(ram: Ram, ram1: Ram, ram2: Ram, chunks: seq<nat>, chunks': seq<nat>)
    requires SameOutside(ram, ram1, chunks) && SameOutside(ram1, ram2, chunks')
    requires forall c :: c in chunks ==> c in chunks'
    ensures SameOutside(ram, ram2, chunks')
  {
  }

  lemma SameKeys(ram: Ram, ram': Ram, chunks: seq<nat>)
    requires SameOutside(ram, ram', chunks)
    ensures ram'.Keys == ram.Keys
  {
  }

  // One usable region: its aligned blocks are pushed, up to the first that is not mapped (a page fault: ok is false).
  method PushRegion(mem: PhysMem, r: Region) returns (ok: bool)
    requires mem.Valid() && r.usable && WholeChunks(mem.ram)
    requires forall c {:trigger BlockIn(r, c)} :: BlockIn(r, c) ==> c > 0 && c !in mem.book.managed
    modifies mem
    ensures ok <==> forall c :: BlockIn(r, c) ==> c in old(mem.ram)
    ensures ok ==> mem.Valid() && SameOutside(old(mem.ram), mem.ram, mem.book.chunks)
    ensures ok ==> mem.book == old(mem.book).(chunks := mem.book.chunks, managed := mem.book.managed)
    ensures ok ==> forall c :: c in mem.book.chunks <==> c in old(mem.book).chunks || BlockIn(r, c)
    ensures ok ==> forall c :: c in mem.book.managed <==> c in old(mem.book).managed || BlockIn(r, c)
  {
    hide *;
    SameStart(mem.ram, mem.book.chunks);
    if r.length < 0x20_0000 {
      TooShort(r);
      return true;
    }
    var base := AlignBlock(r.base);
    var length := r.length - (base - r.base);
    EndIs(r);
    forall c ensures !BlockBelow(r, c, base) { NoBlockBelow(r, c); }
    // a do-while loop that is entered only with length >= 2MiB
    while length >= 0x20_0000
      invariant mem.Valid() && base % 0x20_0000 == 0 && r.base <= base && length >= 0 && base + length == End(r)
      invariant SameOutside(old(mem.ram), mem.ram, mem.book.chunks)
      invariant mem.book == old(mem.book).(chunks := mem.book.chunks, managed := mem.book.managed)
      invariant forall c :: c in mem.book.chunks <==> c in old(mem.book).chunks || BlockBelow(r, c, base)
      invariant forall c :: c in mem.book.managed <==> c in old(mem.book).managed || BlockBelow(r, c, base)
      invariant forall c :: BlockBelow(r, c, base) ==> c in old(mem.ram)
      decreases length
    {
      forall c ensures BlockBelow(r, c, base + 0x20_0000) <==> BlockBelow(r, c, base) || c == base / 0x1000 {
        NextBlock(r, c, base, length);
      }
      NextBlock(r, 0, base, length);
      NotYet(r, base / 0x1000, base);
      SameKeys(old(mem.ram), mem.ram, mem.book.chunks);
      if base / 0x1000 !in mem.ram {
        return false;
      }
      ChunkMapped(old(mem.ram), mem.ram, base / 0x1000);
      ghost var ram, chunks := mem.ram, mem.book.chunks;
      mem.AddChunk(base / 0x1000);
      SamePushed(old(mem.ram), ram, mem.ram, chunks, base / 0x1000);
      base := base + 0x20_0000;
      length := length - 0x20_0000;
    }
    forall c ensures BlockIn(r, c) <==> BlockBelow(r, c, base) {
      NoBlockAbove(r, c, base);
      BelowIsIn(r, c, base);
    }
    ok := true;
  }

  lemma ChunkMapped(ram: Ram, ram': Ram, c: nat)
    requires WholeChunks(ram) && ram'.Keys == ram.Keys && c % 512 == 0 && c in ram'
    ensures forall f :: c <= f < c + 512 ==> f in ram'
  {
    forall f | c <= f < c + 512 ensures f in ram' { assert f in ram; }
  }

  // What is left of the map after the kernel has been taken out
  ghost predicate OutsideKernel(map_: seq<Region>) {
    forall i :: 0 <= i < |map_| && map_[i].usable ==> End(map_[i]) <= KERNEL_START || map_[i].base >= KERNEL_END
  }

  lemma CarvedOutside(map_: seq<Region>, map': seq<Region>)
    requires |map'| == |map_| && forall i :: 0 <= i < |map_| ==> map'[i] == Carved(map_[i])
    ensures OutsideKernel(map')
  {
  }

  // No block is block 0 or meets the kernel.
  lemma BlockAboveKernel(map_: seq<Region>, c: nat)
    requires OutsideKernel(map_) && BlockOf(map_, c)
    ensures c * 0x1000 >= KERNEL_END && c > 0
  {
    var i :| 0 <= i < |map_| && BlockIn(map_[i], c);
    assert map_[i].usable;
  }

  lemma OneRegion(map_: seq<Region>, i: nat, j: nat, c: nat)
    requires Disjoint(map_) && i < |map_| && j < |map_| && i != j
    ensures !(BlockIn(map_[i], c) && BlockIn(map_[j], c))
  {
  }

  lemma BlockStep(map_: seq<Region>, i: nat, c: nat)
    requires i < |map_|
    ensures BlockOf(map_[..i + 1], c) <==> BlockOf(map_[..i], c) || BlockIn(map_[i], c)
  {
    assert map_[..i + 1] == map_[..i] + [map_[i]];
    if BlockIn(map_[i], c) { assert BlockIn(map_[..i + 1][i], c); }
    if BlockOf(map_[..i], c) {
      var j :| 0 <= j < i && BlockIn(map_[..i][j], c);
      assert BlockIn(map_[..i + 1][j], c);
    }
  }

  // setup_physical_allocator: afterwards the stack holds exactly the aligned 2MiB blocks of the usable regions, each
  // once (StackAt), and there is nothing else.
  method SetupPhysicalAllocator(a: array<Region>, memory: Ram, fixed: bool) returns (ok: bool, mem: PhysMem)
    requires Disjoint(a[..]) && OutsideKernel(a[..]) && WholeChunks(memory)
    ensures fresh(mem)
    ensures ok <==> forall c :: BlockOf(a[..], c) ==> c in memory
    ensures ok ==> mem.Valid() && SameOutside(memory, mem.ram, mem.book.chunks) && mem.repaired == fixed
    ensures ok ==> mem.book == Book(mem.book.chunks, map[], [], {}, mem.book.managed, fixed)
    ensures ok ==> forall c :: c in mem.book.chunks <==> BlockOf(a[..], c)
    ensures ok ==> forall c :: c in mem.book.managed <==> BlockOf(a[..], c)
  {
    mem := new PhysMem(memory, fixed);
    SameStart(memory, []);
    forall c ensures !BlockOf(a[..0], c) {}
    hide *;
    var i := 0;
    while i < a.Length
      invariant i <= a.Length && fresh(mem) && mem.Valid() && mem.repaired == fixed
      invariant SameOutside(memory, mem.ram, mem.book.chunks)
      invariant mem.book == Book(mem.book.chunks, map[], [], {}, mem.book.managed, fixed)
      invariant forall c :: c in mem.book.chunks <==> BlockOf(a[..i], c)
      invariant forall c :: c in mem.book.managed <==> BlockOf(a[..i], c)
      invariant forall c :: BlockOf(a[..i], c) ==> c in memory
    {
      forall c ensures BlockOf(a[..i + 1], c) <==> BlockOf(a[..i], c) || BlockIn(a[i], c) {
        SameStep(a[..], a[..i], a[..i + 1], i, c);
      }
      if a[i].usable {
        forall c | BlockIn(a[i], c) ensures c > 0 && !BlockOf(a[..i], c) && BlockOf(a[..], c) {
          NewBlock(a[..], a[..i], i, c);
        }
        SameKeys(memory, mem.ram, mem.book.chunks);
        WholeKeys(memory, mem.ram);
        ghost var ram, chunks := mem.ram, mem.book.chunks;
        ok := PushRegion(mem, a[i]);
        if !ok {
          return;
        }
        SameAgain(memory, ram, mem.ram, chunks, mem.book.chunks);
      } else {
        forall c ensures !BlockIn(a[i], c) { NotUsable(a[i], c); }
      }
      i := i + 1;
    }
    assert a[..a.Length] == a[..];
    ok := true;
  }

  lemma WholeKeys(ram: Ram, ram': Ram)
    requires WholeChunks(ram) && ram'.Keys == ram.Keys
    ensures WholeChunks(ram')
  {
    assert forall f :: f in ram <==> f in ram';
  }

  lemma SameStep(all: seq<Region>, before: seq<Region>, after: seq<Region>, i: nat, c: nat)
    requires i < |all| && before == all[..i] && after == all[..i + 1]
    ensures BlockOf(after, c) <==> BlockOf(before, c) || BlockIn(all[i], c)
  {
    BlockStep(all, i, c);
  }

  lemma NewBlock(all: seq<Region>, before: seq<Region>, i: nat, c: nat)
    requires Disjoint(all) && OutsideKernel(all) && i < |all| && before == all[..i] && BlockIn(all[i], c)
    ensures c > 0 && !BlockOf(before, c) && BlockOf(all, c)
  {
    hide BlockIn;
    if BlockOf(before, c) {
      var j :| 0 <= j < |before| && BlockIn(before[j], c);
      OneRegion(all, i, j, c);
    }
    BlockAboveKernel(all, c);
  }

  lemma NotUsable(r: Region, c: nat)
    requires !r.usable
    ensures !BlockIn(r, c)
  {
  }

  lemma TooShort(r: Region)
    requires r.length < 0x20_0000
    ensures forall c :: !BlockIn(r, c)
  {
  }

  lemma EndIs(r: Region)
    ensures End(r) == r.base + r.length
  {
  }

  lemma NotYet(r: Region, c: nat, base: nat)
    requires c * 0x1000 == base
    ensures !BlockBelow(r, c, base)
  {
  }

  lemma BelowIsIn(r: Region, c: nat, x: nat)
    ensures BlockBelow(r, c, x) ==> BlockIn(r, c)
  {
  }
}
