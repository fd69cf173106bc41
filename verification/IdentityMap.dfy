// physical.c: create_paging_structures. The kernel maps physical memory a second time, from KERNEL_BASE on, in 2MiB
// pages.
module IdentityMap {
  import opened Words
  import opened Entries
  import opened PhysBook
  import opened PageTree

  // The entries the code writes
  function BootTable(frame: nat): Word {
    Or(Or(frame * PAGE_BYTES, WRITABLE), PRESENT)
  }

  function BootPage(frame: nat): Word {
    Or(Or(Or(frame * PAGE_BYTES, PAGE_SIZE), WRITABLE), PRESENT)
  }

  lemma BootTableIs(frame: nat)
    requires frame < MAX_FRAMES
    ensures var e := BootTable(frame); Present(e) && !Large(e) && TableFrame(e) == frame && CopyFlags(e) == 3
  {
    hide Or, And, Entry, CopyFlags, Present, Large, TableFrame;
    OrSmall();
    SmallFrames(frame);
    OrEntry(frame, 0, 0, 2, 0);
    OrEntry(frame, 2, 0, 1, 0);
    Decode(frame, 3, 0);
  }

  lemma BootPageIs(frame: nat)
    requires frame < MAX_FRAMES
    ensures var e := BootPage(frame); Present(e) && Large(e) && LeafFrame(e) == frame && CopyFlags(e) == 3
  {
    hide Or, And, Entry, CopyFlags, Present, Large, LeafFrame;
    OrSmall();
    OrMore();
    SmallFrames(frame);
    OrEntry(frame, 0, 0, 0x80, 0);
    OrEntry(frame, 0x80, 0, 2, 0);
    OrEntry(frame, 0x82, 0, 1, 0);
    Decode(frame, 0x83, 0);
  }

  lemma OrMore()
    ensures Or(0x80, 2) == 0x82 && Or(0x82, 1) == 0x83
  {
    OrBits(0x80, 2);
    OrBits(0x82, 1);
    OrZero(0x40);
    OrZero(0x41);
    assert Or(0x40, 1) == 0x41 by { OrBits(0x40, 1); OrZero(0x20); }
  }

  // Frame of entry j of the page directory for GiB g
  function PageFrame(g: nat, j: nat): nat {
    g * 0x4_0000 + j * 512
  }

  // The page directory that maps GiB g
  function Directory(g: nat): (ws: Frame)
    ensures forall j {:trigger ws[j]} :: 0 <= j < 512 ==> ws[j] == BootPage(PageFrame(g, j))
  {
    seq(512, j requires 0 <= j < 512 => BootPage(PageFrame(g, j)))
  }

  // The first n extra directories are in place, in the frames from base on, and hung into the pointer table.
  ghost predicate Filled(ram: Ram, ram': Ram, pdpt: nat, base: nat, n: nat) {
    && pdpt in ram && ram'.Keys == ram.Keys && n < 512
    && (forall f :: f in ram && f != pdpt && !(base <= f < base + n) ==> ram'[f] == ram[f])
    && (forall f :: base <= f < base + n ==> f in ram && ram'[f] == Directory(f - base + 1))
    && (forall i :: 0 < i <= n ==> ram'[pdpt][i] == BootTable(base + i - 1))
    && (forall i :: 0 <= i < 512 && !(0 < i <= n) ==> ram'[pdpt][i] == ram[pdpt][i])
  }

  lemma FillStep(ram: Ram, ram1: Ram, pdpt: nat, base: nat, i: nat, ram2: Ram)
    requires Filled(ram, ram1, pdpt, base, i) && i + 1 < 512 && base + i in ram && base + i != pdpt &&
      !(base <= pdpt < base + i)
    requires ram2 == ram1[pdpt := ram1[pdpt][i + 1 := BootTable(base + i)]][base + i := Directory(i + 1)]
    ensures Filled(ram, ram2, pdpt, base, i + 1)
  {
    hide BootTable, Directory;
  }

  // The entries one pointer table has room for
  function Room(n: nat): nat {
    if n < 511 then n else 511
  }

  // Frames are numbered from base on; n = num_pds, and num_pdpts is 0. Nothing is allocated beyond base + n.
  method CreatePagingStructures(ram0: Ram, pdpt: nat, base: nat, n: nat) returns (ram: Ram)
    requires pdpt in ram0 && !(base <= pdpt < base + n)
    requires forall f :: base <= f < base + n ==> f in ram0
    ensures Filled(ram0, ram, pdpt, base, Room(n))
  {
    hide *;
    ram := ram0;
    FillStart(ram0, pdpt, base);
    var pdsLeft: nat := n;
    var allocPtr: nat := base;
    var phys := 0x4_0000;   // 1GiB, as a frame
    var index: nat := 1;
    while index < 512 && pdsLeft != 0
      invariant 1 <= index <= 512 && pdsLeft + (index - 1) == n && allocPtr == base + (index - 1) &&
        phys == index * 0x4_0000
      invariant Filled(ram0, ram, pdpt, base, index - 1)
    {
      FilledKeys(ram0, ram, pdpt, base, index - 1);
      ghost var ram1: Ram := ram;
      var directory: nat := allocPtr;
      allocPtr := allocPtr + 1;
      pdsLeft := pdsLeft - 1;
      ram := ram[directory := seq(512, _ => 0)];
      ram := ram[pdpt := ram[pdpt][index := BootTable(directory)]];
      ghost var ram2: Ram := ram;
      var j := 0;
      UpToStart(ram[directory], index);
      while j < 512
        invariant j <= 512 && phys == index * 0x4_0000 + j * 512 && ram.Keys == ram2.Keys
        invariant directory in ram && UpTo(ram[directory], index, j)
        invariant ram == ram2[directory := ram[directory]]
      {
        PageFrameIs(index, j);
        UpToStep(ram[directory], index, j, BootPage(phys));
        ram := ram[directory := ram[directory][j := BootPage(phys)]];
        phys := phys + 512;
        j := j + 1;
      }
      UpToDone(ram[directory], index);
      ghost var ram3: Ram := ram1[pdpt := ram1[pdpt][index := BootTable(directory)]];
      ghost var ram4: Ram := ram3[directory := Directory(index)];
      assert ram == ram4;
      FillStep(ram0, ram1, pdpt, base, index - 1, ram);
      index := index + 1;
    }
    RoomIs(n, index - 1);
  }

  lemma RoomIs(n: nat, k: nat)
    requires k <= n && (k == n || k == 511) && k <= 511
    ensures k == Room(n)
  {
  }

  // The first j entries of a page directory are written.
  ghost predicate UpTo(ws: Frame, g: nat, j: nat) {
    j <= 512 && forall i :: 0 <= i < j ==> ws[i] == BootPage(PageFrame(g, i))
  }

  lemma PageFrameIs(g: nat, j: nat)
    ensures PageFrame(g, j) == g * 0x4_0000 + j * 512
  {
  }

  lemma UpToStep(ws: Frame, g: nat, j: nat, w: Word)
    requires UpTo(ws, g, j) && j < 512 && w == BootPage(PageFrame(g, j))
    ensures UpTo(ws[j := w], g, j + 1)
  {
    hide BootPage, PageFrame;
  }

  lemma UpToDone(ws: Frame, g: nat)
    requires UpTo(ws, g, 512)
    ensures ws == Directory(g)
  {
    hide BootPage, PageFrame;
  }

  lemma UpToStart(ws: Frame, g: nat)
    ensures UpTo(ws, g, 0)
  {
  }

  lemma FillStart(ram: Ram, pdpt: nat, base: nat)
    requires pdpt in ram
    ensures Filled(ram, ram, pdpt, base, 0)
  {
    hide Directory, BootTable;
  }

  lemma FilledKeys(ram: Ram, ram': Ram, pdpt: nat, base: nat, n: nat)
    requires Filled(ram, ram', pdpt, base, n)
    ensures ram'.Keys == ram.Keys && pdpt in ram'
  {
    hide Directory, BootTable;
  }

  // ---------------------------------------------------------------------------------------------
  // What the processor then finds

  // The page KERNEL_BASE begins
  const KERNEL_PAGE: nat := 0xF_FFF8_0000_0000

  lemma KernelIndices(f: nat)
    requires f < MAX_FRAMES
    ensures KERNEL_PAGE * PAGE_BYTES == KERNEL_BASE
    ensures var vp := KERNEL_PAGE + f;
      Idx(4, vp) == 256 && Idx(3, vp) == f / 0x4_0000 < 512 && Idx(2, vp) == f / 512 % 512 && vp % 512 == f % 512
  {
    var g, r := f / 0x4_0000, f % 0x4_0000;
    assert f == 0x4_0000 * g + r;
    assert KERNEL_PAGE + f == 0x800_0000 * 0x1FF_FF00 + f;
    assert (KERNEL_PAGE + f) / 0x800_0000 == 0x1FF_FF00;
    assert KERNEL_PAGE + f == 0x4_0000 * (0x200 * 0x1FF_FF00 + g) + r;
    assert (KERNEL_PAGE + f) / 0x4_0000 == 0x200 * 0x1FF_FF00 + g;
    IndexTwo(f);
  }

  lemma IndexTwo(f: nat)
    ensures (KERNEL_PAGE + f) / 512 % 512 == f / 512 % 512 && (KERNEL_PAGE + f) % 512 == f % 512
  {
    var g, r := f / 512, f % 512;
    assert KERNEL_PAGE == 512 * (512 * 0x3_FFFE_0000);
    var big := 512 * 0x3_FFFE_0000 + g;
    assert KERNEL_PAGE + f == 512 * big + r;
    assert (KERNEL_PAGE + f) / 512 == big;
  }

  // A page of GiB g, found through its directory
  lemma DirectoryFinds(ram: Ram, dir: nat, g: nat, vp: nat, f: nat)
    requires dir in ram && ram[dir] == Directory(g) && f < MAX_FRAMES && g == f / 0x4_0000
    requires Idx(2, vp) == f / 512 % 512 && vp % 512 == f % 512
    ensures FindIn(Kids(ram, ram[dir], 2), 2, vp) == Leaf(f, 3, true) && Path(Kids(ram, ram[dir], 2), 2, vp) == []
  {
    var j := f / 512 % 512;
    var c := PageFrame(g, j);
    FrameSplit(f);
    BootPageIs(c);
    hide Present, Large, LeafFrame, CopyFlags, TableFrame, BootPage, Idx, PageFrame;
    assert ram[dir][j] == BootPage(c);
    assert Tree(ram, BootPage(c), 2) == Big(c, 3);
    assert Kids(ram, ram[dir], 2)[j] == Big(c, 3);
  }

  lemma FrameSplit(f: nat)
    requires f < MAX_FRAMES
    ensures var c := PageFrame(f / 0x4_0000, f / 512 % 512); c + f % 512 == f && c < MAX_FRAMES
  {
    var q := f / 512;
    assert f == 512 * q + f % 512 && q == 512 * (q / 512) + q % 512;
    assert f / 0x4_0000 == q / 512 by { assert f == 0x4_0000 * (q / 512) + (512 * (q % 512) + f % 512); }
  }

  // A table entry leads on.
  lemma TableFinds(ram: Ram, ws: seq<Word>, lvl: nat, table: nat, vp: nat)
    requires 2 < lvl <= 4 && table in ram && table < MAX_FRAMES && Idx(lvl, vp) < |ws| &&
      ws[Idx(lvl, vp)] == BootTable(table)
    ensures FindIn(Kids(ram, ws, lvl), lvl, vp) == FindIn(Kids(ram, ram[table], lvl - 1), lvl - 1, vp)
    ensures Path(Kids(ram, ws, lvl), lvl, vp) == [3] + Path(Kids(ram, ram[table], lvl - 1), lvl - 1, vp)
  {
    BootTableIs(table);
    hide Present, Large, LeafFrame, CopyFlags, TableFrame, BootTable, Idx;
    var i := Idx(lvl, vp);
    assert Kids(ram, ws, lvl)[i] == Tree(ram, BootTable(table), lvl);
    assert Tree(ram, BootTable(table), lvl) == Dir(table, 3, Kids(ram, ram[table], lvl - 1));
  }

  // prekernel.s provides PML4, the pointer table and the directory of the first GiB; n directories are added from
  // frame base on.
  ghost predicate Mapping(ram: Ram, pml4: nat, pdpt: nat, first: nat, base: nat, n: nat) {
    && n < 512 && pml4 in ram && pdpt in ram && first in ram && (forall x :: x in ram ==> x < MAX_FRAMES)
    && ram[pml4][256] == BootTable(pdpt) && ram[pdpt][0] == BootTable(first) && ram[first] == Directory(0)
    && (forall f :: base <= f < base + n ==> f in ram && ram[f] == Directory(f - base + 1))
    && (forall i :: 0 < i <= n ==> ram[pdpt][i] == BootTable(base + i - 1))
  }

  // The frames of the kernel's own tables
  predicate KernelTable(pml4: nat, pdpt: nat, first: nat, base: nat, n: nat, f: nat) {
    f == pml4 || f == pdpt || f == first || base <= f < base + n
  }

  lemma MappingFilled(ram0: Ram, ram: Ram, pml4: nat, pdpt: nat, first: nat, base: nat, n: nat)
    requires Mapping(ram0, pml4, pdpt, first, base, 0) && Filled(ram0, ram, pdpt, base, n)
    requires pml4 != pdpt && first != pdpt && !(base <= pml4 < base + n) && !(base <= first < base + n)
    ensures Mapping(ram, pml4, pdpt, first, base, n)
  {
    hide BootTable, Directory;
    assert ram[pml4] == ram0[pml4] && ram[first] == ram0[first];
  }

  // Entries of the user half may change.
  lemma MappingKept(ram: Ram, ram': Ram, pml4: nat, pdpt: nat, first: nat, base: nat, n: nat)
    requires Mapping(ram, pml4, pdpt, first, base, n) && ram'.Keys == ram.Keys
    requires forall f :: f in ram && f != pml4 && KernelTable(pml4, pdpt, first, base, n, f) ==> ram'[f] == ram[f]
    requires ram'[pml4][256] == ram[pml4][256] && (pml4 == pdpt || pml4 == first || base <= pml4 < base + n ==>
      ram'[pml4] == ram[pml4])
    ensures Mapping(ram', pml4, pdpt, first, base, n)
  {
    hide BootTable, Directory;
    forall f ensures f in ram' <==> f in ram {}
  }

  // Bit 1 allows writing; without bit 2 it is not for user code.
  lemma KernelAllows()
    ensures Both(PathAllows([3, 3]), Allowed(3)) == Permission(true, false, true)
  {
    FlagBits();
    assert [3, 3][1..] == [3];
    hide Bit;
  }

  // The page at KERNEL_BASE + phys is found at phys, for every phys below (1 + n) GiB.
  lemma IdentityWalk(ram: Ram, pml4: nat, pdpt: nat, first: nat, base: nat, n: nat, f: nat)
    requires Mapping(ram, pml4, pdpt, first, base, n) && f < (1 + n) * 0x4_0000 && f < MAX_FRAMES
    ensures FindIn(Kids(ram, ram[pml4], 4), 4, KERNEL_PAGE + f) == Leaf(f, 3, true)
    ensures Path(Kids(ram, ram[pml4], 4), 4, KERNEL_PAGE + f) == [3, 3]
  {
    var vp, g := KERNEL_PAGE + f, f / 0x4_0000;
    var dir := if g == 0 then first else base + (g - 1);
    KernelIndices(f);
    TablesThere(ram, pml4, pdpt, first, base, n, g);
    hide *;
    TableFinds(ram, ram[pml4], 4, pdpt, vp);
    TableFinds(ram, ram[pdpt], 3, dir, vp);
    DirectoryFinds(ram, dir, g, vp, f);
  }

  lemma TablesThere(ram: Ram, pml4: nat, pdpt: nat, first: nat, base: nat, n: nat, g: nat)
    requires Mapping(ram, pml4, pdpt, first, base, n) && g <= n
    ensures var dir := if g == 0 then first else base + (g - 1);
      && pml4 in ram && pdpt in ram && dir in ram && pdpt < MAX_FRAMES && dir < MAX_FRAMES
      && ram[pml4][256] == BootTable(pdpt) && ram[pdpt][g] == BootTable(dir) && ram[dir] == Directory(g)
  {
    hide BootTable, Directory;
  }
}
