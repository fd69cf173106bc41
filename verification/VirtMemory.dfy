// The virtual memory of a running kernel: the physical memory and the address spaces built in it. Whatever
// sequence of these operations runs, AllSpaces holds after each: every table and every mapped frame is held, is
// not free in the allocator, and has one referencing entry in one address space.
module VirtMemory {
  import opened Words
  import opened Entries
  import opened PhysBook
  import opened PhysAlloc
  import opened PageTree
  import opened PageClone
  import opened PageCleanup
  import opened PageMap
  import opened PageUnmap
  import opened PageSpaces

  // The result of virt_map_page. NoFrame: no frame for the page itself, which is return value 0 for a large page and a
  // failed ASSERT in phys_alloc_4KIB for a small one. NoMemory and Conflict are panics further down.
  datatype MapOutcome = Done | NoFrame | NoMemory | Conflict

  class VirtMem {
    const mem: PhysMem
    ghost var spaces: set<nat>

    ghost predicate Valid()
      reads this, mem
    {
      mem.Valid() && AllSpaces(mem.ram, mem.book.owned, spaces)
    }

    // What is held but belongs to no address space
    ghost function Strays(): set<Own>
      reads this, mem
    {
      StraysOf(mem.ram, mem.book.owned, spaces)
    }

    constructor (m: PhysMem)
      requires m.Valid()
      ensures Valid() && mem == m && spaces == {}
    {
      mem := m;
      spaces := {};
    }

    lemma Parts()
      requires Valid()
      ensures mem.Valid() && AllSpaces(mem.ram, mem.book.owned, spaces) &&
        Strays() == StraysOf(mem.ram, mem.book.owned, spaces)
    {
    }

    lemma Whole()
      requires mem.Valid() && AllSpaces(mem.ram, mem.book.owned, spaces)
      ensures Valid() && Strays() == StraysOf(mem.ram, mem.book.owned, spaces)
    {
    }

    // With the repaired phys_free_4KIB, cleanup, reset and unmapping always succeed.
    lemma NeverBlocked()
      requires Valid()
      ensures mem.repaired ==> forall gone :: !Blocked(mem.book, gone)
    {
    }

    // virt_clone_mapping(kernel_table). The user half of the kernel's own PML4 is empty (Boot.Booted), so the new
    // address space has an empty user half, and shares the kernel half.
    method CreateSpace(kernel: Frame) returns (ok: bool, root: nat)
      requires Valid() && forall j :: 0 <= j < 256 ==> !Present(kernel[j])
      modifies this, mem
      ensures Valid()
      ensures !ok ==> mem.book.owned == old(mem.book.owned) && spaces == old(spaces)
      ensures ok ==>
        root !in old(spaces) && spaces == old(spaces) + {root} && Untouched(old(mem.ram), mem.ram, old(spaces))
      ensures ok ==>
        root in mem.ram && mem.ram[root][256..] == kernel[256..] && forall vp :: View(mem.ram, root, vp) == NoPage
      ensures ok ==> mem.book.owned == old(mem.book.owned) + {Page(root)} && Page(root) !in old(mem.book.owned)
      ensures Strays() == old(Strays())
    {
      hide *;
      Parts();
      ghost var ram, owned := mem.ram, mem.book.owned;
      mem.OwnedInRam();
      ok, root := mem.Alloc4Kib();
      if !ok {
        SpacesKept(ram, owned, mem.ram, spaces);
        UntouchedFps(ram, mem.ram, spaces);
        StraysStays(ram, owned, spaces, mem.ram);
        Whole();
        return;
      }
      ghost var ram1 := mem.ram;
      mem.OwnedInRam();
      HeldPage(mem.book.owned, root);
      FillPml4(kernel, root);
      HalfEmpty(mem.ram[root], kernel[256..]);
      NewSpace(ram, owned, spaces, ram1, mem.ram, mem.book.owned, root, kernel[256..]);
      UntouchedFps(ram, mem.ram, spaces);
      StraysKept(ram, owned, spaces, mem.ram, mem.book.owned, spaces + {root}, root, {}, {Page(root)});
      spaces := spaces + {root};
      Whole();
    }

    // The two loops of virt_clone_mapping, for the kernel's table
    method FillPml4(kernel: Frame, root: nat)
      requires mem.Valid() && root in mem.ram && Held(mem.book.owned, root)
      requires forall j :: 0 <= j < 256 ==> !Present(kernel[j])
      modifies mem
      ensures mem.Valid() && mem.book == old(mem.book)
      ensures root in mem.ram && mem.ram == old(mem.ram)[root := mem.ram[root]]
      ensures (forall j :: 0 <= j < 256 ==> mem.ram[root][j] == 0) && mem.ram[root][256..] == kernel[256..]
    {
      hide PhysMem.Valid, Held, Present;
      ghost var ram := mem.ram;
      mem.ClientFill(root, seq(512, _ => 0));
      var i := 0;
      while i < 256
        invariant i <= 256 && mem.Valid() && mem.book == old(mem.book) && root in mem.ram
        invariant mem.ram == ram[root := mem.ram[root]] && forall j :: 0 <= j < 256 ==> mem.ram[root][j] == 0
      {
        // an entry that is present would be cloned
        assert !Present(kernel[i]);
        mem.ClientStore(root, i, 0);
        i := i + 1;
      }
      while i < 512
        invariant 256 <= i <= 512 && mem.Valid() && mem.book == old(mem.book) && root in mem.ram
        invariant mem.ram == ram[root := mem.ram[root]] && forall j :: 0 <= j < 256 ==> mem.ram[root][j] == 0
        invariant forall j :: 256 <= j < i ==> mem.ram[root][j] == kernel[j]
      {
        mem.ClientStore(root, i, kernel[i]);
        i := i + 1;
      }
    }

    // virt_clone_mapping
    method CloneMapping(root: nat) returns (ok: bool, copy: nat)
      requires Valid() && root in spaces
      modifies this, mem
      ensures !ok ==> mem.Valid() && mem.book.chunks == []
      ensures ok ==> Valid() && copy !in old(spaces) && spaces == old(spaces) + {copy}
      ensures ok ==> Untouched(old(mem.ram), mem.ram, old(spaces))
      ensures ok ==> root in old(mem.ram) && copy in mem.ram && mem.ram[copy][256..] == old(mem.ram)[root][256..]
      ensures ok ==> forall vp :: View(mem.ram, copy, vp) == View(old(mem.ram), root, vp)
      ensures ok ==> SpaceCloned(old(mem.ram), old(mem.book.owned), root, mem.ram, mem.book.owned, copy)
      ensures ok ==> Strays() == old(Strays())
    {
      hide *;
      Parts();
      ghost var ram, owned := mem.ram, mem.book.owned;
      mem.OwnedInRam();
      InSpaces(ram, owned, spaces, root);
      SpaceFpIs(ram, owned, root);
      ok, copy := VirtCloneMapping(mem, root);
      if ok {
        CloneKeeps(ram, owned, spaces, root, mem.ram, mem.book.owned, copy);
        UntouchedFps(ram, mem.ram, spaces);
        StraysKept(ram, owned, spaces, mem.ram, mem.book.owned, spaces + {copy}, copy, {}, SpaceFp(mem.ram, copy));
        spaces := spaces + {copy};
        Whole();
      }
    }

    // virt_cleanup_table
    method Cleanup(root: nat) returns (ok: bool)
      requires Valid() && root in spaces
      modifies this, mem
      ensures root in old(mem.ram) && (ok <==> !Blocked(old(mem.book), SpaceFp(old(mem.ram), root)))
      ensures ok ==> Valid() && spaces == old(spaces) - {root} && Untouched(old(mem.ram), mem.ram, spaces)
      ensures ok ==>
        root in old(mem.ram) && Freed(old(mem.ram), old(mem.book), mem.ram, mem.book, SpaceFp(old(mem.ram), root))
      ensures ok ==> Stacked(mem.book, root)
      ensures ok ==> Strays() == old(Strays())
    {
      hide *;
      Parts();
      ghost var ram, b := mem.ram, mem.book;
      mem.OwnedInRam();
      InSpaces(ram, b.owned, spaces, root);
      ok := VirtCleanupTable(mem, root);
      if ok {
        CleanupKeeps(ram, b, spaces, root, mem.ram, mem.book);
        FreedOwned(ram, b, mem.ram, mem.book, SpaceFp(ram, root));
        UntouchedFps(ram, mem.ram, spaces - {root});
        StraysKept(ram, b.owned, spaces, mem.ram, mem.book.owned, spaces - {root}, root, SpaceFp(ram, root), {});
        spaces := spaces - {root};
        Whole();
      }
    }

    // virt_reset_table
    method Reset(root: nat) returns (ok: bool)
      requires Valid() && root in spaces
      modifies this, mem
      ensures root in old(mem.ram)
      ensures ok <==>
        Fps(UserKids(old(mem.ram), root)) == {} || !Blocked(old(mem.book), Fps(UserKids(old(mem.ram), root)))
      ensures ok ==> Valid() && spaces == old(spaces) && Untouched(old(mem.ram), mem.ram, spaces - {root})
      ensures ok ==> IsReset(old(mem.ram), old(mem.book), root, mem.ram, mem.book)
      ensures ok ==> root in mem.ram && forall vp :: View(mem.ram, root, vp) == NoPage
      ensures ok ==> Strays() == old(Strays())
    {
      hide *;
      Parts();
      ghost var ram, b := mem.ram, mem.book;
      mem.OwnedInRam();
      InSpaces(ram, b.owned, spaces, root);
      ok := VirtResetTable(mem, root);
      if ok {
        ResetKeeps(ram, b, spaces, root, mem.ram, mem.book);
        SpaceFpIs(ram, b.owned, root);
        ResetOwned(ram, b, root, mem.ram, mem.book);
        UntouchedFps(ram, mem.ram, spaces - {root});
        StraysKept(ram, b.owned, spaces, mem.ram, mem.book.owned, spaces, root, SpaceFp(ram, root), {Page(root)});
        Whole();
      }
    }

    // virt_map_page. A large mapping replaces a page table that is there already without freeing it (NothingLost
    // says when it does not).
    method MapPage(root: nat, vp: nat, flags: Word, large: bool) returns (r: MapOutcome, frame: nat,
        ghost grown: set<Own>)
      requires Valid() && root in spaces && vp < USER_PAGES
      modifies this, mem
      ensures root in old(mem.ram) && mem.Valid()
      ensures r.Done? || r.Conflict? ==> (r.Conflict? <==> Taken(UserKids(old(mem.ram), root), 4, vp, large))
      ensures r.NoFrame? || r.NoMemory? ==> mem.book.chunks == []
      ensures r.Done? ==> Valid() && spaces == old(spaces) && Untouched(old(mem.ram), mem.ram, spaces - {root})
      ensures r.Done? ==> var t := Target(frame, flags, large);
        && OnlyMapped(old(mem.ram), mem.ram, root, vp, t)
        && grown + {Handle(t)} !! old(mem.book.owned) && mem.book.owned == old(mem.book.owned) + (grown + {Handle(t)})
        && SpaceFp(mem.ram, root) == SpaceFp(old(mem.ram), root) - ShadowIn(UserKids(old(mem.ram), root), 4, vp, large)
                                     + (grown + {Handle(t)})
      ensures r.Done? ==> Strays() == old(Strays()) + ShadowIn(UserKids(old(mem.ram), root), 4, vp, large)
    {
      hide *;
      Parts();
      ghost var ram, owned := mem.ram, mem.book.owned;
      var ok;
      grown := {};
      mem.OwnedInRam();
      InSpaces(ram, owned, spaces, root);
      if large {
        ok, frame := mem.Alloc2MibSafe();
        SameFrames(ram);
      } else {
        ok, frame := mem.Alloc4Kib();
      }
      if !ok {
        return NoFrame, frame, {};
      }
      var t := Target(frame, flags, large);
      ghost var ram1, owned1 := mem.ram, mem.book.owned;
      mem.OwnedInRam();
      HandleIs(t, owned);
      AllocKeeps(ram, owned, spaces, root, ram1, owned1, t);
      MapReady(ram1, owned1, spaces, root, vp, t);
      var m;
      m, grown := MapAt(mem, root, 4, vp, t);
      match m {
        case NoMemory => r := MapOutcome.NoMemory;
        case AlreadyMapped => MapTaken(ram, owned, ram1, owned1, spaces, root, vp, large); r := Conflict;
        case Mapped =>
          MapTaken(ram, owned, ram1, owned1, spaces, root, vp, large);
          MapKeeps(ram1, owned1, spaces, root, mem.ram, mem.book.owned, vp, t, grown);
          MapDone(ram, owned, spaces, root, ram1, owned1, mem.ram, mem.book.owned, vp, t, grown);
          UntouchedFps(ram, mem.ram, spaces - {root});
          ShadowApart(ram, owned, spaces, root, vp, large);
          StraysStep(ram, owned, spaces, mem.ram, mem.book.owned, spaces, root,
                     SpaceFp(ram, root), SpaceFp(mem.ram, root), ShadowIn(UserKids(ram, root), 4, vp, large));
          Whole();
          r := Done;
      }
    }

    // virt_unmap_page
    method UnmapPage(root: nat, vp: nat) returns (r: UnmapResult)
      requires Valid() && root in spaces && vp < USER_PAGES
      modifies this, mem
      ensures root in old(mem.ram)
      ensures r.NotPresent? <==> FindIn(UserKids(old(mem.ram), root), 4, vp).NoLeaf?
      ensures var l := FindIn(UserKids(old(mem.ram), root), 4, vp);
        r.CannotFree? <==> l.Leaf? && !l.large && Blocked(old(mem.book), {LeafOwn(l, vp)})
      ensures r.Unmapped? ==> var l := FindIn(UserKids(old(mem.ram), root), 4, vp);
        && Valid() && spaces == old(spaces) && Untouched(old(mem.ram), mem.ram, spaces - {root})
        && PageHidden(old(mem.ram), mem.ram, root, vp, l.large)
        && mem.book.owned == old(mem.book.owned) - {LeafOwn(l, vp)}
        && SpaceFp(mem.ram, root) == SpaceFp(old(mem.ram), root) - {LeafOwn(l, vp)}
      ensures r.Unmapped? ==> Strays() == old(Strays())
    {
      hide *;
      Parts();
      ghost var ram, owned := mem.ram, mem.book.owned;
      mem.OwnedInRam();
      InSpaces(ram, owned, spaces, root);
      SpaceIsPart(ram, owned, root);
      UserIndex(vp);
      ghost var l := FindIn(UserKids(ram, root), 4, vp);
      r := UnmapAt(mem, root, 4, vp);
      if r.Unmapped? {
        UnbindOwned(ram, owned, mem.ram, mem.book.owned, root, vp, LeafOwn(l, vp), l.large);
        UnmapKeeps(ram, owned, spaces, root, mem.ram, mem.book.owned, vp, LeafOwn(l, vp), l.large);
        SpaceFpIs(ram, owned, root);
        LeafInFps(UserKids(ram, root), 4, vp);
        UntouchedFps(ram, mem.ram, spaces - {root});
        StraysKept(ram, owned, spaces, mem.ram, mem.book.owned, spaces, root, SpaceFp(ram, root),
          SpaceFp(mem.ram, root));
        Whole();
      }
    }

    // The processor reads a word through an address space: it walks the tables (FindIn), and faults when it finds
    // nothing.
    method UserLoad(root: nat, vp: nat, i: nat) returns (fault: bool, w: Word)
      requires Valid() && root in spaces && vp < USER_PAGES && i < 512
      ensures root in mem.ram && (fault <==> View(mem.ram, root, vp).NoPage?)
      ensures !fault ==> w == View(mem.ram, root, vp).words[i]
    {
      hide *;
      Parts();
      mem.OwnedInRam();
      InSpaces(mem.ram, mem.book.owned, spaces, root);
      SeenIsFound(mem.ram, mem.book.owned, spaces, root, vp);
      var l := FindIn(UserKids(mem.ram, root), 4, vp);
      if l.NoLeaf? {
        return true, 0;
      }
      return false, mem.ram[l.frame][i];
    }

    // The processor stores a word through an address space.
    method UserStore(root: nat, vp: nat, i: nat, w: Word) returns (fault: bool)
      requires Valid() && root in spaces && vp < USER_PAGES && i < 512
      modifies this, mem
      ensures Valid() && spaces == old(spaces) && mem.book == old(mem.book) && root in old(mem.ram)
      ensures fault <==> View(old(mem.ram), root, vp).NoPage?
      ensures fault ==> mem.ram == old(mem.ram)
      ensures !fault ==>
        OnlyStored(old(mem.ram), mem.ram, spaces, root, vp, i, w) && SameTrees(old(mem.ram), mem.ram, spaces)
      ensures Strays() == old(Strays())
    {
      hide *;
      Parts();
      mem.OwnedInRam();
      InSpaces(mem.ram, mem.book.owned, spaces, root);
      SeenIsFound(mem.ram, mem.book.owned, spaces, root, vp);
      var l := FindIn(UserKids(mem.ram, root), 4, vp);
      if l.NoLeaf? {
        return true;
      }
      PhysStore(l.frame, i, w, root, vp);
      fault := false;
    }

    // The kernel reads a word through its own map of physical memory.
    method PhysLoad(frame: nat, i: nat, ghost root: nat, ghost vp: nat) returns (w: Word)
      requires Valid() && root in spaces && vp < USER_PAGES && i < 512 && root in mem.ram
      requires var l := FindIn(UserKids(mem.ram, root), 4, vp); l.Leaf? && l.frame == frame
      ensures View(mem.ram, root, vp).PageView? && w == View(mem.ram, root, vp).words[i]
    {
      hide *;
      Parts();
      mem.OwnedInRam();
      SeenIsFound(mem.ram, mem.book.owned, spaces, root, vp);
      w := mem.ram[frame][i];
    }

    // The kernel stores a word through its own map of physical memory, into a frame page vp of space root shows.
    method PhysStore(frame: nat, i: nat, w: Word, ghost root: nat, ghost vp: nat)
      requires Valid() && root in spaces && vp < USER_PAGES && i < 512 && root in mem.ram
      requires var l := FindIn(UserKids(mem.ram, root), 4, vp); l.Leaf? && l.frame == frame
      modifies this, mem
      ensures Valid() && spaces == old(spaces) && mem.book == old(mem.book)
      ensures OnlyStored(old(mem.ram), mem.ram, spaces, root, vp, i, w) && SameTrees(old(mem.ram), mem.ram, spaces)
      ensures Strays() == old(Strays())
    {
      hide *;
      Parts();
      ghost var ram, owned := mem.ram, mem.book.owned;
      mem.OwnedInRam();
      LeafStored(ram, owned, spaces, root, vp);
      mem.ClientStore(frame, i, w);
      StoreKeeps(ram, owned, spaces, root, vp, i, w, mem.ram);
      SameTreesMade(ram, mem.ram, spaces);
      SameFps(ram, mem.ram, spaces);
      StraysStays(ram, owned, spaces, mem.ram);
      Whole();
    }
  }

  // ---------------------------------------------------------------------------------------------
  // Conservation

  ghost function StraysOf(ram: Ram, owned: set<Own>, spaces: set<nat>): set<Own> {
    set o | o in owned && forall r :: r in spaces && r in ram ==> o !in SpaceFp(ram, r)
  }

  // Memory moves between the allocator and one address space; what that space loses and the allocator does not
  // get back is stray from then on.
  lemma StraysStep(ram: Ram, owned: set<Own>, spaces: set<nat>, ram': Ram, owned': set<Own>, spaces': set<nat>,
      root: nat,
                   f: set<Own>, f': set<Own>, lost: set<Own>)
    requires spaces - {root} == spaces' - {root}
    requires forall r :: r in spaces - {root} ==> r in ram && r in ram' && SpaceFp(ram', r) == SpaceFp(ram, r)
    requires if root in spaces then root in ram && f == SpaceFp(ram, root) else f == {}
    requires if root in spaces' then root in ram' && f' == SpaceFp(ram', root) else f' == {}
    requires owned' - f' == owned - f + lost
    requires forall r :: r in spaces - {root} ==> r in ram && lost !! SpaceFp(ram, r)
    ensures StraysOf(ram', owned', spaces') == StraysOf(ram, owned, spaces) + lost
  {
    hide SpaceFp;
    forall o
      ensures o in StraysOf(ram', owned', spaces') <==> o in StraysOf(ram, owned, spaces) + lost
    {
      assert o in StraysOf(ram, owned, spaces) <==>
        o in owned - f && forall r :: r in spaces - {root} && r in ram ==> o !in SpaceFp(ram, r);
      assert o in StraysOf(ram', owned', spaces') <==>
        o in owned' - f' && forall r :: r in spaces' - {root} && r in ram' ==> o !in SpaceFp(ram', r);
    }
  }

  lemma StraysKept(ram: Ram, owned: set<Own>, spaces: set<nat>, ram': Ram, owned': set<Own>, spaces': set<nat>,
      root: nat,
                   f: set<Own>, f': set<Own>)
    requires spaces - {root} == spaces' - {root}
    requires forall r :: r in spaces - {root} ==> r in ram && r in ram' && SpaceFp(ram', r) == SpaceFp(ram, r)
    requires if root in spaces then root in ram && f == SpaceFp(ram, root) else f == {}
    requires if root in spaces' then root in ram' && f' == SpaceFp(ram', root) else f' == {}
    requires owned' - f' == owned - f
    ensures StraysOf(ram', owned', spaces') == StraysOf(ram, owned, spaces)
  {
    hide SpaceFp, StraysOf;
    StraysStep(ram, owned, spaces, ram', owned', spaces', root, f, f', {});
  }

  lemma StraysStays(ram: Ram, owned: set<Own>, spaces: set<nat>, ram': Ram)
    requires forall r :: r in spaces ==> r in ram && r in ram' && SpaceFp(ram', r) == SpaceFp(ram, r)
    ensures StraysOf(ram', owned, spaces) == StraysOf(ram, owned, spaces)
  {
    hide SpaceFp;
  }

  lemma FreedOwned(ram: Ram, b: Book, ram': Ram, b': Book, gone: set<Own>)
    requires Freed(ram, b, ram', b', gone)
    ensures b'.owned == b.owned - gone
  {
  }

  lemma ResetOwned(ram: Ram, b: Book, root: nat, ram': Ram, b': Book)
    requires IsReset(ram, b, root, ram', b')
    ensures root in ram && b'.owned == b.owned - Fps(UserKids(ram, root))
  {
    hide UserKids, Fps;
  }

  lemma ShadowApart(ram: Ram, owned: set<Own>, spaces: set<nat>, root: nat, vp: nat, large: bool)
    requires AllSpaces(ram, owned, spaces) && root in spaces && root in ram
    ensures ShadowIn(UserKids(ram, root), 4, vp, large) <= SpaceFp(ram, root) <= owned
    ensures forall r :: r in spaces - {root} ==>
      r in ram && ShadowIn(UserKids(ram, root), 4, vp, large) !! SpaceFp(ram, r)
  {
    hide *;
    InSpaces(ram, owned, spaces, root);
    SpaceFpIs(ram, owned, root);
    ShadowInFps(UserKids(ram, root), 4, vp, large);
  }

  lemma SameFps(ram: Ram, ram': Ram, spaces: set<nat>)
    requires SameTrees(ram, ram', spaces)
    ensures forall r :: r in spaces ==> r in ram && r in ram' && SpaceFp(ram', r) == SpaceFp(ram, r)
  {
    hide UserKids, Fps;
  }

  // ---------------------------------------------------------------------------------------------
  // Steps

  lemma SpacesKept(ram: Ram, owned: set<Own>, ram': Ram, spaces: set<nat>)
    requires AllSpaces(ram, owned, spaces) && Sound(ram, owned) && Unchanged(ram, ram', owned)
    ensures AllSpaces(ram', owned, spaces) && Untouched(ram, ram', spaces)
  {
    hide *;
    forall r | r in spaces ensures r in ram && SpaceFp(ram, r) <= owned {
      InSpaces(ram, owned, spaces, r);
    }
    OthersKept(ram, owned, ram', owned, spaces, spaces, owned);
  }

  lemma HalfEmpty(ws: Frame, half: seq<Word>)
    requires |half| == 256 && ws[256..] == half && forall j :: 0 <= j < 256 ==> ws[j] == 0
    ensures ws == seq(256, _ => 0) + half
  {
    assert ws == ws[..256] + ws[256..];
    assert ws[..256] == seq(256, _ => 0);
  }

  lemma NewSpace(ram: Ram, owned: set<Own>, spaces: set<nat>, ram1: Ram, ram2: Ram, owned2: set<Own>, root: nat,
      kernelHalf: seq<Word>)
    requires AllSpaces(ram, owned, spaces) && Sound(ram, owned) && |kernelHalf| == 256
    requires Unchanged(ram, ram1, owned) && !Held(owned, root) && root in ram1 && owned2 == owned + {Page(root)}
    requires ram2 == ram1[root := seq(256, _ => 0) + kernelHalf]
    ensures AllSpaces(ram2, owned2, spaces + {root}) && root !in spaces && Untouched(ram, ram2, spaces)
    ensures root in ram2 && ram2[root][256..] == kernelHalf && Page(root) !in owned &&
      SpaceFp(ram2, root) == {Page(root)}
    ensures forall vp :: View(ram2, root, vp) == NoPage
  {
    hide *;
    FillFresh(ram, ram1, owned, root, seq(256, _ => 0) + kernelHalf);
    forall r | r in spaces ensures r in ram && SpaceFp(ram, r) <= owned && r != root {
      InSpaces(ram, owned, spaces, r);
      SpaceFpIs(ram, owned, r);
      NotHeld(owned, root);
    }
    OthersKept(ram, owned, ram2, owned2, spaces, spaces, owned);
    UntouchedFps(ram, ram2, spaces);
    EmptySpace(ram2, owned2, root);
    NotHeld(owned, root);
    SpaceAdded(ram2, owned2, spaces, root);
  }

  lemma EmptySpace(ram: Ram, owned: set<Own>, root: nat)
    requires root in ram && (forall j :: 0 <= j < 256 ==> ram[root][j] == 0) && Page(root) in owned
    ensures Space(ram, owned, root) && SpaceFp(ram, root) == {Page(root)}
    ensures forall vp :: View(ram, root, vp) == NoPage
  {
    EmptyTable(ram, ram[root][..256], 4);
    hide Tree, Kids, Fps, ProperKids, Idx;
    assert Fps(UserKids(ram, root)) == {};
    forall vp ensures View(ram, root, vp) == NoPage {
      assert FindIn(UserKids(ram, root), 4, vp) == NoLeaf;
    }
  }

  // The page is found at its new frame, by way of the tables that were there and new ones, and may be used as was
  // asked for, as far as the tables that were there allow it. Every other page shows what it showed, with the flags it
  // had, and no table on the way to any page has gone or has other flags.
  ghost predicate OnlyMapped(ram: Ram, ram': Ram, root: nat, vp: nat, t: Target) {
    && root in ram && root in ram'
    && forall vp2: nat :: vp2 < USER_PAGES ==> OnlyMappedAt(ram, ram', root, vp, t, vp2)
  }

  ghost predicate OnlyMappedAt(ram: Ram, ram': Ram, root: nat, vp: nat, t: Target, vp2: nat)
    requires root in ram && root in ram'
  {
    if Hit(t.large, vp, vp2) then
      && FindIn(UserKids(ram', root), 4, vp2) == At(t, vp2)
      && MayBeUsed(ram, root, vp, t, View(ram', root, vp2))
    else
      && View(ram', root, vp2) == View(ram, root, vp2)
      && Path(UserKids(ram, root), 4, vp2) <= Path(UserKids(ram', root), 4, vp2)
  }

  ghost predicate MayBeUsed(ram: Ram, root: nat, vp: nat, t: Target, v: PageView)
    requires root in ram
  {
    var kids := UserKids(ram, root);
    v.PageView? && v.path == Way(kids, 4, vp, t) && OldWay(kids, 4, vp, t) <= v.path &&
    Permitted(v) == Both(PathAllows(OldWay(kids, 4, vp, t)), Allowed(t.flags))
  }

  lemma UserIndex(vp: nat)
    requires vp < USER_PAGES
    ensures Idx(4, vp) < Width(4) && Width(4) == 256
  {
    Digits(vp);
  }

  lemma HandleIs(t: Target, owned: set<Own>)
    ensures Handle(t) == if t.large then Chunk(t.frame) else Page(t.frame)
    ensures !Held(owned, t.frame) ==> Page(t.frame) !in owned
  {
  }

  // Allocating a frame disturbs no address space.
  lemma AllocKeeps(ram: Ram, owned: set<Own>, spaces: set<nat>, root: nat, ram1: Ram, owned1: set<Own>, t: Target)
    requires AllSpaces(ram, owned, spaces) && Sound(ram, owned) && root in spaces
    requires Unchanged(ram, ram1, owned) && Handle(t) !in owned && owned1 == owned + {Handle(t)}
    ensures AllSpaces(ram1, owned1, spaces) && Untouched(ram, ram1, spaces) && root in ram1
    ensures Handle(t) in owned1 && forall r :: r in spaces ==> r in ram1 && Handle(t) !in SpaceFp(ram1, r)
  {
    hide *;
    forall r | r in spaces ensures r in ram && SpaceFp(ram, r) <= owned {
      InSpaces(ram, owned, spaces, r);
    }
    OthersKept(ram, owned, ram1, owned1, spaces, spaces, owned);
    UntouchedFps(ram, ram1, spaces);
  }

  lemma MapReady(ram: Ram, owned: set<Own>, spaces: set<nat>, root: nat, vp: nat, t: Target)
    requires AllSpaces(ram, owned, spaces) && root in spaces && root in ram && vp < USER_PAGES
    requires Handle(t) in owned && Handle(t) !in SpaceFp(ram, root)
    ensures Part(ram, owned, root, 4) && Idx(4, vp) < Width(4) && Stop(t) <= 4
    ensures Handle(t) != Page(root) && Handle(t) !in Fps(TableKids(ram, root, 4))
  {
    hide UserKids, Fps, ProperKids, TableKids, Idx, FindIn;
    InSpaces(ram, owned, spaces, root);
    SpaceIsPart(ram, owned, root);
    SpaceFpIs(ram, owned, root);
    UserIndex(vp);
  }

  lemma MapTaken(ram: Ram, owned: set<Own>, ram1: Ram, owned1: set<Own>, spaces: set<nat>, root: nat, vp: nat,
      large: bool)
    requires Untouched(ram, ram1, spaces) && root in spaces && root in ram && root in ram1
    requires Part(ram1, owned1, root, 4)
    ensures Taken(TableKids(ram1, root, 4), 4, vp, large) <==> Taken(UserKids(ram, root), 4, vp, large)
  {
    hide UserKids, Part, TableKids, Taken, SpaceFp, View;
    SpaceIsPart(ram1, owned1, root);
  }

  lemma MapDone(ram: Ram, owned: set<Own>, spaces: set<nat>, root: nat, ram1: Ram, owned1: set<Own>, ram2: Ram,
      owned2: set<Own>,
                vp: nat, t: Target, grown: set<Own>)
    requires Untouched(ram, ram1, spaces) && root in spaces && root in ram && root in ram1 && vp < USER_PAGES
    requires Handle(t) !in owned && owned1 == owned + {Handle(t)}
    requires Bound(ram1, owned1, ram2, owned2, root, 4, vp, t, grown) && Part(ram1, owned1, root, 4)
    requires Untouched(ram1, ram2, spaces - {root}) && PageShown(ram1, ram2, root, vp, t)
    requires root in ram2 && SpaceFp(ram2, root) ==
      SpaceFp(ram1, root) - ShadowIn(UserKids(ram1, root), 4, vp, t.large) + grown + {Handle(t)}
    ensures Untouched(ram, ram2, spaces - {root}) && OnlyMapped(ram, ram2, root, vp, t)
    ensures grown + {Handle(t)} !! owned && owned2 == owned + (grown + {Handle(t)})
    ensures SpaceFp(ram2, root) == SpaceFp(ram, root) - ShadowIn(UserKids(ram, root), 4, vp, t.large) +
      (grown + {Handle(t)})
  {
    hide *;
    UntouchedRoot(ram, ram1, spaces, root);
    UntouchedTwice(ram, ram1, ram2, spaces, spaces - {root});
    BoundParts(ram1, owned1, ram2, owned2, root, 4, vp, t, grown);
    SpaceIsPart(ram1, owned1, root);
    SpaceIsPart(ram2, owned2, root);
    BoundPaths(ram1, owned1, ram2, owned2, root, vp, t, grown);
    MappedOnly(ram, ram1, ram2, root, vp, t);
  }

  lemma BoundPaths(ram: Ram, owned: set<Own>, ram': Ram, owned': set<Own>, root: nat, vp: nat, t: Target,
      grown: set<Own>)
    requires Bound(ram, owned, ram', owned', root, 4, vp, t, grown)
    requires root in ram && root in ram' && TableKids(ram, root, 4) == UserKids(ram, root)
      && TableKids(ram', root, 4) == UserKids(ram', root)
    ensures Repathed(UserKids(ram, root), UserKids(ram', root), 4, vp, t)
  {
    hide UserKids, Fps, Part, ShadowIn, Unchanged, TablesIn, TableKids, Rebound, Repathed;
  }

  lemma UntouchedRoot(ram: Ram, ram': Ram, spaces: set<nat>, root: nat)
    requires Untouched(ram, ram', spaces) && root in spaces
    ensures root in ram && root in ram' && UserKids(ram', root) == UserKids(ram, root) &&
      SpaceFp(ram', root) == SpaceFp(ram, root)
    ensures forall vp :: View(ram', root, vp) == View(ram, root, vp)
  {
    hide UserKids, SpaceFp, View;
  }

  lemma UntouchedTwice(ram: Ram, ram1: Ram, ram2: Ram, spaces: set<nat>, others: set<nat>)
    requires Untouched(ram, ram1, spaces) && Untouched(ram1, ram2, others) && others <= spaces
    ensures Untouched(ram, ram2, others)
  {
    hide UserKids, SpaceFp, View;
  }

  lemma MappedOnly(ram: Ram, ram1: Ram, ram2: Ram, root: nat, vp: nat, t: Target)
    requires root in ram && root in ram1 && root in ram2 && vp < USER_PAGES
    requires forall v :: View(ram1, root, v) == View(ram, root, v)
    requires UserKids(ram1, root) == UserKids(ram, root)
    requires Repathed(UserKids(ram1, root), UserKids(ram2, root), 4, vp, t)
    requires Rebound(UserKids(ram1, root), UserKids(ram2, root), 4, vp, t) && PageShown(ram1, ram2, root, vp, t)
    ensures OnlyMapped(ram, ram2, root, vp, t)
  {
    hide *;
    forall vp2: nat | vp2 < USER_PAGES ensures OnlyMappedAt(ram, ram2, root, vp, t, vp2) {
      MappedAt(ram, ram1, ram2, root, vp, t, vp2);
    }
    OnlyMappedMade(ram, ram2, root, vp, t);
  }

  lemma OnlyMappedMade(ram: Ram, ram': Ram, root: nat, vp: nat, t: Target)
    requires root in ram && root in ram'
    requires forall vp2: nat :: vp2 < USER_PAGES ==> OnlyMappedAt(ram, ram', root, vp, t, vp2)
    ensures OnlyMapped(ram, ram', root, vp, t)
  {
    hide OnlyMappedAt;
  }

  lemma MappedAt(ram: Ram, ram1: Ram, ram2: Ram, root: nat, vp: nat, t: Target, vp2: nat)
    requires root in ram && root in ram1 && root in ram2 && vp < USER_PAGES && vp2 < USER_PAGES
    requires forall v :: View(ram1, root, v) == View(ram, root, v)
    requires UserKids(ram1, root) == UserKids(ram, root)
    requires Repathed(UserKids(ram1, root), UserKids(ram2, root), 4, vp, t)
    requires Rebound(UserKids(ram1, root), UserKids(ram2, root), 4, vp, t) && PageShown(ram1, ram2, root, vp, t)
    ensures OnlyMappedAt(ram, ram2, root, vp, t, vp2)
  {
    hide UserKids, View, FindIn, SamePath, At, SafeFlags, Hit, Repathed, Rebound, Way, Path, OldWay, Permitted, Both,
      PathAllows, Allowed, FrameFor, Stop;
    HitPath(t.large, vp, vp2);
    StopIs(t);
    RepathedAt(UserKids(ram1, root), UserKids(ram2, root), 4, vp, t, vp2);
    ReboundAt(UserKids(ram1, root), UserKids(ram2, root), 4, vp, t, vp2);
    if Hit(t.large, vp, vp2) {
      NewlyUsed(ram, root, vp, t, View(ram2, root, vp2));
    }
  }

  lemma NewlyUsed(ram: Ram, root: nat, vp: nat, t: Target, v: PageView)
    requires root in ram && v.PageView? && v.path == Way(UserKids(ram, root), 4, vp, t)
    requires v.flags == SafeFlags(t.flags) + 1
    ensures MayBeUsed(ram, root, vp, t, v)
  {
    hide UserKids, Way, OldWay, Both, PathAllows, Allowed, SafeFlags;
    OldWayIs(UserKids(ram, root), 4, vp, t);
    WayAllows(UserKids(ram, root), 4, vp, t);
    AllowedFlags(t.flags);
  }

  lemma UnbindOwned(ram: Ram, owned: set<Own>, ram': Ram, owned': set<Own>, root: nat, vp: nat, h: Own, large: bool)
    requires Unbound(ram, owned, ram', owned', root, 4, vp, h, large)
    ensures owned' == owned - {h}
  {
    hide Part, TableKids, Fps, Unfound, Unchanged, TablesIn, Width;
  }

  lemma LeafStored(ram: Ram, owned: set<Own>, spaces: set<nat>, root: nat, vp: nat)
    requires AllSpaces(ram, owned, spaces) && root in spaces && Sound(ram, owned) && root in ram
    requires FindIn(UserKids(ram, root), 4, vp).Leaf?
    ensures var f := FindIn(UserKids(ram, root), 4, vp).frame; f in ram && Held(owned, f)
  {
    hide *;
    InSpaces(ram, owned, spaces, root);
    SpaceFpIs(ram, owned, root);
    var l := FindIn(UserKids(ram, root), 4, vp);
    LeafInFps(UserKids(ram, root), 4, vp);
    LeafFrameHeld(ram, owned, l, vp);
  }

  // User code sees a page exactly where the walk finds one.
  lemma SeenIsFound(ram: Ram, owned: set<Own>, spaces: set<nat>, root: nat, vp: nat)
    requires AllSpaces(ram, owned, spaces) && root in spaces && Sound(ram, owned) && root in ram
    ensures var l := FindIn(UserKids(ram, root), 4, vp); var v := View(ram, root, vp);
      && (v.PageView? <==> l.Leaf?)
      && (l.Leaf? ==> l.frame in ram && v == PageView(ram[l.frame], l.flags, l.large, v.path))
  {
    hide UserKids, FindIn, AllSpaces, Sound;
    if FindIn(UserKids(ram, root), 4, vp).Leaf? {
      LeafStored(ram, owned, spaces, root, vp);
    }
  }

  lemma LeafFrameHeld(ram: Ram, owned: set<Own>, l: Leaf, vp: nat)
    requires Sound(ram, owned) && l.Leaf? && LeafOwn(l, vp) in owned && (l.large ==> vp % 512 <= l.frame)
    ensures l.frame in ram && Held(owned, l.frame)
  {
    LeafHeld(owned, l, vp);
  }

  // The tables of all address spaces say what they said.
  ghost predicate SameTrees(ram: Ram, ram': Ram, spaces: set<nat>) {
    forall r :: r in spaces ==> r in ram && r in ram' && UserKids(ram', r) == UserKids(ram, r) && ram'[r] == ram[r]
  }

  lemma SameTreesMade(ram: Ram, ram': Ram, spaces: set<nat>)
    requires forall r :: r in spaces ==>
      r in ram && r in ram' && UserKids(ram', r) == UserKids(ram, r) && ram'[r] == ram[r]
    ensures SameTrees(ram, ram', spaces)
  {
    hide UserKids;
  }

  // ---------------------------------------------------------------------------------------------
  // Large mappings over page tables

  lemma {:induction false} ShadowIsDirectory(n: Node, lvl: nat, vp: nat)
    requires 2 <= lvl
    ensures Shadow(n, lvl, vp, true) == {} <==>
            !(if lvl == 2 then n else if n.Dir? then DirectoryEntry(n.kids, lvl - 1, vp) else Absent).Dir?
    decreases n
  {
    hide Idx, Fps;
    if n.Dir? {
      if lvl == 2 {
        assert Page(n.frame) in Fp(n);
      } else if Idx(lvl - 1, vp) < |n.kids| {
        ShadowIsDirectory(n.kids[Idx(lvl - 1, vp)], lvl - 1, vp);
      }
    }
  }

  // Mapping a page loses no memory of the address space exactly when it is a small page, or its directory entry
  // does not lead to a page table.
  lemma NothingLost(kids: seq<Node>, vp: nat, large: bool)
    ensures ShadowIn(kids, 4, vp, large) == {} <==> !large || !DirectoryEntry(kids, 4, vp).Dir?
  {
    hide Idx;
    if !large {
      NoShadow(kids, 4, vp);
    } else if Idx(4, vp) < |kids| {
      ShadowIsDirectory(kids[Idx(4, vp)], 4, vp);
    }
  }

  // A page table (frame 30) with a page mapped below it (frame 40): a large mapping at page 0 loses both.
  lemma LostExample()
    ensures var kids := [Dir(10, 0, [Dir(20, 0, [Dir(30, 0, [Small(40, 0)])])])];
      ShadowIn(kids, 4, 0, true) == {Page(30), Page(40)} && !Taken(kids, 4, 0, true)
  {
    var table := Dir(30, 0, [Small(40, 0)]);
    assert Fps([Small(40, 0)]) == Fp([Small(40, 0)][0]);
    assert ShadowIn([table], 2, 0, true) == Fp(table);
    assert Shadow(Dir(20, 0, [table]), 3, 0, true) == Fp(table);
    assert Find(table, 2, 0) == Leaf(40, 0, false);
    assert Find(Dir(20, 0, [table]), 3, 0) == Leaf(40, 0, false);
  }
}
