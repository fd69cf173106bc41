// paging.c: freeing address spaces (cleanup_*, virt_cleanup_table and virt_reset_table).
//
// Cleanup stops when phys_free_4KIB cannot take a frame back. For a set of frames freed one after another,
// whether that happens is decided by the state before the first one: Blocked.
module PageCleanup {
  import opened Words
  import opened Entries
  import opened PhysBook
  import opened PhysAlloc
  import opened PageTree
  import opened PageClone

  // gone has been freed; nothing else a client holds has changed.
  ghost predicate Freed(ram: Ram, b: Book, ram': Ram, b': Book, gone: set<Own>) {
    && b'.owned == b.owned - gone && b'.managed == b.managed && Unchanged(ram, ram', b'.owned)
    && gone <= b.owned && Stacks(ram, b, ram', b', gone)
  }

  // As written, what is gone is on the free stacks and keeps its contents there, but for the links; and what was there
  // before still is.
  ghost predicate Stacks(ram: Ram, b: Book, ram': Ram, b': Book, gone: set<Own>) {
    && b'.repaired == b.repaired
    && (!b.repaired ==> StackKept(ram, b, ram', b') && PagesLie(ram, ram', b', gone))
    && (!b.repaired ==> forall c: nat :: Chunk(c) in gone ==> c in b'.chunks)
  }

  ghost predicate StackKept(ram: Ram, b: Book, ram': Ram, b': Book) {
    && (forall g: nat :: OnStack(b, g) ==> OnStack(b', g) && g in ram && g in ram' && ram'[g] == ram[g])
    && (forall c :: c in b.chunks ==> c in b'.chunks)
  }

  ghost predicate PagesLie(ram: Ram, ram': Ram, b': Book, gone: set<Own>) {
    forall f: nat :: Page(f) in gone ==> f in ram && f in ram' && OnStack(b', f) && Remains(ram[f], ram'[f])
  }

  lemma NothingStacked(ram: Ram, size: nat, top: Word, head: Word, b: Book)
    requires Core(ram, size, top, head, b)
    ensures Stacks(ram, b, ram, b, {})
  {
    StackedApart(ram, size, top, head, b);
    hide Core, OnStack;
  }

  lemma StacksTwice(ram: Ram, b: Book, ram1: Ram, b1: Book, ram2: Ram, b2: Book, gone: set<Own>, more: set<Own>)
    requires Stacks(ram, b, ram1, b1, gone) && Stacks(ram1, b1, ram2, b2, more)
    requires Unchanged(ram, ram1, b1.owned) && more <= b1.owned
    ensures Stacks(ram, b, ram2, b2, gone + more)
  {
    hide OnStack, Remains;
    if !b.repaired {
      forall f: nat | Page(f) in gone + more
        ensures f in ram && f in ram2 && OnStack(b2, f) && Remains(ram[f], ram2[f])
      {
        if Page(f) in more { assert Held(b1.owned, f); }
      }
    }
  }

  // One page more on its stack
  lemma PageStacks(ram: Ram, size: nat, top: Word, head: Word, b: Book, ram': Ram, f: nat)
    requires Core(ram, size, top, head, b) && Page(f) in b.owned && !Blocked(b, {Page(f)}) && ChunkOf(f) in b.pools
    requires !b.repaired ==> Pushed(ram, ram', b, f)
    ensures Stacks(ram, b, ram', AfterFree(b, f), {Page(f)})
  {
    var b' := AfterFree(b, f);
    StackedApart(ram, size, top, head, b);
    AfterFreeListed(b, f);
    AfterFreeStacks(b, f);
    hide Core, AfterFree, Blocked, OnStack, Remains;
    if !b.repaired {
      forall g: nat | OnStack(b, g) ensures OnStack(b', g) && g in ram && g in ram' && ram'[g] == ram[g] {
        assert g != f;
      }
    }
  }

  lemma AfterFreeStacks(b: Book, f: nat)
    requires ChunkOf(f) in b.pools && !Blocked(b, {Page(f)})
    ensures var b' := AfterFree(b, f); b'.repaired == b.repaired
    ensures var b' := AfterFree(b, f); !b.repaired ==>
      b'.chunks == b.chunks && OnStack(b', f) && forall g: nat :: OnStack(b, g) ==> OnStack(b', g)
  {
    hide Without;
  }

  lemma ChunkStacks(ram: Ram, size: nat, top: Word, head: Word, b: Book, ram': Ram, b': Book, c: nat)
    requires Core(ram, size, top, head, b) && Chunk(c) in b.owned && SameExcept(ram, ram', {c})
    requires b' == b.(chunks := [c] + b.chunks, owned := b.owned - {Chunk(c)})
    ensures Stacks(ram, b, ram', b', {Chunk(c)})
  {
    StackedApart(ram, size, top, head, b);
    hide Core;
  }

  // Freeing gone out of all leaves the question whether the rest can be freed as it was.
  ghost predicate SameFate(b: Book, b': Book, all: set<Own>, gone: set<Own>) {
    Blocked(b, all) <==> Blocked(b', all - gone)
  }

  lemma NothingFreed(ram: Ram, b: Book, all: set<Own>)
    requires Stacks(ram, b, ram, b, {})
    ensures Freed(ram, b, ram, b, {}) && SameFate(b, b, all, {})
  {
    hide Stacks;
    assert all - {} == all;
  }

  lemma NoneFreed(mem: PhysMem, all: set<Own>)
    requires mem.Valid()
    ensures Freed(mem.ram, mem.book, mem.ram, mem.book, {}) && SameFate(mem.book, mem.book, all, {})
    ensures Stacks(mem.ram, mem.book, mem.ram, mem.book, {})
  {
    hide Core, Stacks;
    NothingStacked(mem.ram, mem.size2M, mem.top2M, mem.pool4K, mem.book);
    NothingFreed(mem.ram, mem.book, all);
  }

  lemma FreedTwice(ram: Ram, b: Book, ram1: Ram, b1: Book, ram2: Ram, b2: Book, all: set<Own>, gone: set<Own>,
      more: set<Own>)
    requires Freed(ram, b, ram1, b1, gone) && SameFate(b, b1, all, gone)
    requires Freed(ram1, b1, ram2, b2, more) && SameFate(b1, b2, all - gone, more)
    ensures Freed(ram, b, ram2, b2, gone + more) && SameFate(b, b2, all, gone + more)
  {
    assert all - gone - more == all - (gone + more);
    assert b.owned - gone - more == b.owned - (gone + more);
    hide Stacks;
    StacksTwice(ram, b, ram1, b1, ram2, b2, gone, more);
    hide Blocked, Held;
  }

  method FreePage(mem: PhysMem, f: nat, ghost all: set<Own>) returns (ok: bool)
    requires mem.Valid() && Page(f) in mem.book.owned && Page(f) in all
    modifies mem
    ensures ok <==> !Blocked(old(mem.book), {Page(f)})
    ensures !ok ==> Blocked(old(mem.book), all)
    ensures ok ==> mem.Valid() && Freed(old(mem.ram), old(mem.book), mem.ram, mem.book, {Page(f)})
    ensures ok ==> SameFate(old(mem.book), mem.book, all, {Page(f)}) && (mem.book.repaired || mem.book.list != [])
    ensures ok ==> Stacked(mem.book, f)
  {
    hide *;
    ghost var ram := mem.ram;
    ghost var b := mem.book;
    mem.BookOk();
    mem.ValidParts();
    ghost var size, top, head := mem.size2M, mem.top2M, mem.pool4K;
    ok := mem.Free4Kib(f);
    if ok {
      BlockedStep(b, f, all);
      PageStacks(ram, size, top, head, b, mem.ram, f);
      FreedPage(ram, b, mem.ram, mem.book, f, all);
    } else {
      BlockedMore(b, {Page(f)}, all);
    }
  }

  lemma FreedPage(ram: Ram, b: Book, ram': Ram, b': Book, f: nat, all: set<Own>)
    requires ChunkOf(f) in b.pools && b' == AfterFree(b, f) && Unchanged(ram, ram', b'.owned) && !Blocked(b, {Page(f)})
    requires Blocked(b, all) <==> Blocked(AfterFree(b, f), all - {Page(f)})
    requires Page(f) in b.owned && Stacks(ram, b, ram', b', {Page(f)})
    ensures Freed(ram, b, ram', b', {Page(f)}) && SameFate(b, b', all, {Page(f)}) && (b'.repaired || b'.list != [])
    ensures Stacked(b', f)
  {
    AfterFreeListed(b, f);
    hide Blocked, Unchanged, AfterFree, Stacks;
  }

  method FreeLarge(mem: PhysMem, c: nat, ghost all: set<Own>)
    requires mem.Valid() && Chunk(c) in mem.book.owned
    modifies mem
    ensures mem.Valid() && Freed(old(mem.ram), old(mem.book), mem.ram, mem.book, {Chunk(c)})
    ensures SameFate(old(mem.book), mem.book, all, {Chunk(c)})
  {
    ghost var ram, b, size, top, head := mem.ram, mem.book, mem.size2M, mem.top2M, mem.pool4K;
    hide Core, Steady, Blocked, Stacks;
    mem.FreeChunk(c);
    ChunkStacks(ram, size, top, head, b, mem.ram, mem.book, c);
    BlockedChunk(b, mem.book, c, all);
  }

  // ---------------------------------------------------------------------------------------------
  // The loop over a table

  ghost predicate Cleaning(ram: Ram, b: Book, table: nat, ram': Ram, b': Book, i: nat, lvl: nat, all: set<Own>) {
    && table in ram && i <= 512
    && Freed(ram, b, ram', b', Fps(Kids(ram, ram[table], lvl)[..i]))
    && SameFate(b, b', all, Fps(Kids(ram, ram[table], lvl)[..i]))
  }

  // Entry i and everything below it are still there when the loop reaches it.
  lemma CleanRead(ram: Ram, b: Book, table: nat, ram': Ram, b': Book, i: nat, lvl: nat, all: set<Own>, n: nat)
    requires Cleaning(ram, b, table, ram', b', i, lvl, all) && i < n <= 512
    requires var kids := Kids(ram, ram[table], lvl)[..n];
      ProperKids(kids) && Fps(kids) <= b.owned && Fps(kids) <= all
    requires Page(table) in b.owned && Page(table) !in Fps(Kids(ram, ram[table], lvl)[..n])
    ensures table in ram' && ram'[table] == ram[table]
    ensures var e := ram[table][i]; var gone := Fps(Kids(ram, ram[table], lvl)[..i]);
      && Tree(ram', e, lvl) == Tree(ram, e, lvl) && Proper(Tree(ram, e, lvl))
      && Fp(Tree(ram, e, lvl)) <= b'.owned && Fp(Tree(ram, e, lvl)) <= all - gone
    ensures Fps(Kids(ram, ram[table], lvl)[..i + 1]) == Fps(Kids(ram, ram[table], lvl)[..i]) +
      Fp(Tree(ram, ram[table][i], lvl))
  {
    var all_ := Kids(ram, ram[table], lvl);
    var kids := all_[..n];
    var e := ram[table][i];
    assert kids[i] == Tree(ram, e, lvl) && kids[..i] == all_[..i] && kids[..i + 1] == all_[..i + 1];
    assert Proper(kids[i]);
    hide Tree, Fp, Fps, Kids, Tables, Proper, ProperKids, Blocked, Stacks;
    FpsPrefix(kids, i);
    UnchangedPage(ram, ram', b'.owned, table);
    TablesInFp(kids[i]);
    UnchangedSub(ram, ram', b'.owned, Tables(kids[i]));
    TreeFrame(ram, ram', e, lvl);
  }

  lemma CleanStep(ram: Ram, b: Book, table: nat, ram1: Ram, b1: Book, i: nat, lvl: nat, all: set<Own>, ram2: Ram,
      b2: Book)
    requires Cleaning(ram, b, table, ram1, b1, i, lvl, all) && i < 512
    requires var part := Fp(Tree(ram, ram[table][i], lvl)); var gone := Fps(Kids(ram, ram[table], lvl)[..i]);
      && Freed(ram1, b1, ram2, b2, part) && SameFate(b1, b2, all - gone, part)
      && Fps(Kids(ram, ram[table], lvl)[..i + 1]) == gone + part
    ensures Cleaning(ram, b, table, ram2, b2, i + 1, lvl, all)
  {
    hide Tree, Fp, Fps, Kids, Freed, SameFate;
    FreedTwice(ram, b, ram1, b1, ram2, b2, all, Fps(Kids(ram, ram[table], lvl)[..i]),
      Fp(Tree(ram, ram[table][i], lvl)));
  }

  // One round of the loop, over the first n entries of a table
  method CleanupRound(mem: PhysMem, ghost ram: Ram, ghost b: Book, table: nat, i: nat, lvl: nat, ghost all: set<Own>,
      ghost n: nat)
    returns (ok: bool)
    requires mem.Valid() && 1 <= lvl <= 4 && i < n <= 512
    requires Cleaning(ram, b, table, mem.ram, mem.book, i, lvl, all) && table in ram
    requires var kids := Kids(ram, ram[table], lvl)[..n];
      ProperKids(kids) && Fps(kids) <= b.owned && Fps(kids) <= all && Page(table) !in Fps(kids)
    requires Page(table) in b.owned
    modifies mem
    ensures !ok ==> Blocked(b, all)
    ensures ok ==> mem.Valid() && Cleaning(ram, b, table, mem.ram, mem.book, i + 1, lvl, all)
    decreases lvl, 1
  {
    hide *;
    ghost var ram1 := mem.ram;
    ghost var b1 := mem.book;
    CleanRead(ram, b, table, ram1, b1, i, lvl, all, n);
    ghost var gone := Fps(Kids(ram, ram[table], lvl)[..i]);
    ok := CleanupEntry(mem, mem.ram[table][i], lvl, all - gone);
    if ok {
      CleanStep(ram, b, table, ram1, b1, i, lvl, all, mem.ram, mem.book);
    } else {
      FateOf(ram, b, table, ram1, b1, i, lvl, all);
    }
  }

  lemma FateOf(ram: Ram, b: Book, table: nat, ram1: Ram, b1: Book, i: nat, lvl: nat, all: set<Own>)
    requires Cleaning(ram, b, table, ram1, b1, i, lvl, all)
    ensures Blocked(b, all) <==> Blocked(b1, all - Fps(Kids(ram, ram[table], lvl)[..i]))
  {
    hide Tree, Kids, Blocked, Stacks;
  }

  // The bodies of the loops in cleanup_page_table, cleanup_page_directory_table,
  // cleanup_page_directory_pointer_table and virt_cleanup_table
  method CleanupEntry(mem: PhysMem, entry: Word, lvl: nat, ghost all: set<Own>) returns (ok: bool)
    requires mem.Valid() && 1 <= lvl <= 4
    requires var n := Tree(mem.ram, entry, lvl); Proper(n) && Fp(n) <= mem.book.owned && Fp(n) <= all
    modifies mem
    ensures !ok ==> Blocked(old(mem.book), all)
    ensures ok ==> mem.Valid()
    ensures ok ==> var n := Tree(old(mem.ram), entry, lvl);
      Freed(old(mem.ram), old(mem.book), mem.ram, mem.book, Fp(n)) && SameFate(old(mem.book), mem.book, all, Fp(n))
    ensures ok && Present(entry) && lvl > 2 ==> mem.book.repaired || mem.book.list != []
    ensures !Present(entry) ==> ok && mem.book == old(mem.book)
    decreases lvl, 0
  {
    hide *;
    mem.OwnedInRam();
    EntryShape(mem.ram, mem.book.owned, entry, lvl);
    if !Present(entry) {
      NoneFreed(mem, all);
      ok := true;
    } else if lvl == 1 {
      ok := FreePage(mem, LeafFrame(entry), all);
    } else if lvl == 2 && Large(entry) {
      FreeLarge(mem, LeafFrame(entry), all);
      ok := true;
    } else {
      ok := CleanupTable(mem, TableFrame(entry), lvl - 1, all);
    }
  }

  // What an entry stands for, case by case
  lemma EntryShape(ram: Ram, owned: set<Own>, entry: Word, lvl: nat)
    requires 1 <= lvl && Sound(ram, owned) && Fp(Tree(ram, entry, lvl)) <= owned && Proper(Tree(ram, entry, lvl))
    ensures !Present(entry) ==> Fp(Tree(ram, entry, lvl)) == {}
    ensures Present(entry) && lvl == 1 ==> Fp(Tree(ram, entry, lvl)) == {Page(LeafFrame(entry))}
    ensures Present(entry) && lvl == 2 && Large(entry) ==> Fp(Tree(ram, entry, lvl)) == {Chunk(LeafFrame(entry))}
    ensures Present(entry) && lvl >= 2 && !(lvl == 2 && Large(entry)) ==>
      var t := TableFrame(entry);
      && Page(t) in owned && t in ram && Fp(Tree(ram, entry, lvl)) == Fps(Kids(ram, ram[t], lvl - 1)) + {Page(t)}
      && Page(t) !in Fps(Kids(ram, ram[t], lvl - 1)) && ProperKids(Kids(ram, ram[t], lvl - 1))
  {
    hide Present, Large, LeafFrame, TableFrame, CopyFlags;
    if Present(entry) && lvl >= 2 && !(lvl == 2 && Large(entry)) {
      assert Page(TableFrame(entry)) in owned;
    }
  }

  method CleanupTable(mem: PhysMem, table: nat, lvl: nat, ghost all: set<Own>) returns (ok: bool)
    requires mem.Valid() && 1 <= lvl <= 3 && Page(table) in mem.book.owned && table in mem.ram && Page(table) in all
    requires var kids := Kids(mem.ram, mem.ram[table], lvl);
      ProperKids(kids) && Fps(kids) <= mem.book.owned && Fps(kids) <= all && Page(table) !in Fps(kids)
    modifies mem
    ensures !ok ==> Blocked(old(mem.book), all)
    ensures ok ==> mem.Valid()
    ensures ok ==> var gone := Fps(Kids(old(mem.ram), old(mem.ram)[table], lvl)) + {Page(table)};
      Freed(old(mem.ram), old(mem.book), mem.ram, mem.book, gone) && SameFate(old(mem.book), mem.book, all, gone)
    ensures ok ==> mem.book.repaired || mem.book.list != []
    decreases lvl, 2
  {
    hide *;
    ghost var ram := mem.ram;
    ghost var b := mem.book;
    NoneFreed(mem, all);
    CleanStart(ram, b, table, lvl, all);
    WholeTable(ram, table, lvl);
    var i := 0;
    while i < 512
      invariant 0 <= i <= 512 && mem.Valid() && Cleaning(ram, b, table, mem.ram, mem.book, i, lvl, all)
    {
      ok := CleanupRound(mem, ram, b, table, i, lvl, all, 512);
      if !ok { return; }
      i := i + 1;
    }
    ghost var ram1 := mem.ram;
    ghost var b1 := mem.book;
    ghost var gone := Fps(Kids(ram, ram[table], lvl));
    CleanEnd(ram, b, table, ram1, b1, 512, lvl, all);
    ok := FreePage(mem, table, all - gone);
    if ok {
      FreedTwice(ram, b, ram1, b1, mem.ram, mem.book, all, gone, {Page(table)});
    }
  }

  lemma CleanStart(ram: Ram, b: Book, table: nat, lvl: nat, all: set<Own>)
    requires table in ram && Stacks(ram, b, ram, b, {})
    ensures Cleaning(ram, b, table, ram, b, 0, lvl, all)
  {
    hide Tree, Stacks;
    assert Fps(Kids(ram, ram[table], lvl)[..0]) == {};
    NothingFreed(ram, b, all);
  }

  lemma WholeTable(ram: Ram, table: nat, lvl: nat)
    requires table in ram
    ensures Kids(ram, ram[table], lvl)[..512] == Kids(ram, ram[table], lvl)
  {
  }

  lemma CleanEnd(ram: Ram, b: Book, table: nat, ram1: Ram, b1: Book, n: nat, lvl: nat, all: set<Own>)
    requires Cleaning(ram, b, table, ram1, b1, n, lvl, all) && Page(table) in b.owned && Page(table) in all
    requires Page(table) !in Fps(Kids(ram, ram[table], lvl)[..n])
    ensures var gone := Fps(Kids(ram, ram[table], lvl)[..n]);
      && Freed(ram, b, ram1, b1, gone) && SameFate(b, b1, all, gone)
      && Page(table) in b1.owned && Page(table) in all - gone
      && (Blocked(b, all) <==> Blocked(b1, all - gone))
  {
    hide Tree, Kids, Blocked, Fps, Stacks;
  }

  // ---------------------------------------------------------------------------------------------
  // Whole address spaces

  // A live address space: a PML4 whose user half is made of frames held by clients, each referenced once.
  ghost predicate Space(ram: Ram, owned: set<Own>, root: nat) {
    && root in ram && Page(root) in owned
    && ProperKids(UserKids(ram, root)) && Fps(UserKids(ram, root)) <= owned && Page(root) !in Fps(UserKids(ram, root))
  }

  function SpaceFp(ram: Ram, root: nat): set<Own>
    requires root in ram
  {
    Fps(UserKids(ram, root)) + {Page(root)}
  }

  lemma SpaceParts(ram: Ram, owned: set<Own>, root: nat)
    requires Space(ram, owned, root)
    ensures var kids := Kids(ram, ram[root], 4)[..256];
      && kids == UserKids(ram, root)
      && ProperKids(kids) && Fps(kids) <= owned && Fps(kids) <= SpaceFp(ram, root) && Page(root) !in Fps(kids)
      && Page(root) in SpaceFp(ram, root) && SpaceFp(ram, root) - Fps(kids) == {Page(root)}
  {
    hide Tree, Fps, ProperKids;
    UserKidsPrefix(ram, root);
  }

  method VirtCleanupTable(mem: PhysMem, root: nat) returns (ok: bool)
    requires mem.Valid() && Space(mem.ram, mem.book.owned, root)
    modifies mem
    ensures ok <==> !Blocked(old(mem.book), SpaceFp(old(mem.ram), root))
    ensures ok ==> mem.Valid() && Freed(old(mem.ram), old(mem.book), mem.ram, mem.book, SpaceFp(old(mem.ram), root))
    ensures ok ==> Stacked(mem.book, root)
  {
    hide *;
    ghost var ram := mem.ram;
    ghost var b := mem.book;
    SpaceRoot(ram, b.owned, root);
    SpaceParts(ram, b.owned, root);
    ghost var all := SpaceFp(ram, root);
    NoneFreed(mem, all);
    CleanStart(ram, b, root, 4, all);
    var i := 0;
    while i < 256
      invariant 0 <= i <= 256 && mem.Valid() && Cleaning(ram, b, root, mem.ram, mem.book, i, 4, all)
    {
      ok := CleanupRound(mem, ram, b, root, i, 4, all, 256);
      if !ok { return; }
      i := i + 1;
    }
    ghost var ram1 := mem.ram;
    ghost var b1 := mem.book;
    CleanEnd(ram, b, root, ram1, b1, 256, 4, all);
    ghost var gone := Fps(Kids(ram, ram[root], 4)[..256]);
    ok := FreePage(mem, root, all - gone);
    if ok {
      FreedTwice(ram, b, ram1, b1, mem.ram, mem.book, all, gone, {Page(root)});
      SpaceWhole(ram, b.owned, root);
    }
  }

  lemma SpaceRoot(ram: Ram, owned: set<Own>, root: nat)
    requires Space(ram, owned, root)
    ensures root in ram && Page(root) in owned
  {
  }

  lemma SpaceWhole(ram: Ram, owned: set<Own>, root: nat)
    requires Space(ram, owned, root)
    ensures root in ram && Fps(Kids(ram, ram[root], 4)[..256]) + {Page(root)} == SpaceFp(ram, root)
  {
    hide Tree, Fps;
    UserKidsPrefix(ram, root);
  }

  // ---------------------------------------------------------------------------------------------
  // virt_reset_table: free the user half entry by entry, and clear the entries

  ghost predicate Resetting(ram: Ram, b: Book, root: nat, ram': Ram, b': Book, i: nat) {
    && root in ram && root in ram' && i <= 256
    && var kids := UserKids(ram, root); var gone := Fps(kids[..i]);
    && b'.owned == b.owned - gone && b'.managed == b.managed && Unchanged(ram, ram', b'.owned - {Page(root)})
    && SameFate(b, b', Fps(kids), gone)
    && (gone == {} || b'.repaired || b'.list != [])
    && (forall j :: 0 <= j < i ==> ram'[root][j] == 0)
    && (forall j :: i <= j < 512 ==> ram'[root][j] == ram[root][j])
  }

  lemma ResetStart(ram: Ram, b: Book, root: nat)
    requires Space(ram, b.owned, root) && Stacks(ram, b, ram, b, {})
    ensures root in ram && Resetting(ram, b, root, ram, b, 0)
  {
    hide Stacks, Tree, ProperKids, Kids, Blocked, Held;
    assert Fps(UserKids(ram, root)[..0]) == {};
    NothingFreed(ram, b, Fps(UserKids(ram, root)));
  }

  lemma ResetRead(ram: Ram, b: Book, root: nat, ram': Ram, b': Book, i: nat)
    requires Space(ram, b.owned, root) && Resetting(ram, b, root, ram', b', i) && i < 256
    ensures ram'[root][i] == ram[root][i]
    ensures var kids := UserKids(ram, root); var n := Tree(ram', ram[root][i], 4);
      && n == kids[i] && Proper(n) && Fp(n) <= b'.owned && Fp(n) <= Fps(kids) - Fps(kids[..i])
      && Fps(kids[..i + 1]) == Fps(kids[..i]) + Fp(n)
      && Page(root) in b'.owned && Page(root) !in Fp(n)
  {
    var kids := UserKids(ram, root);
    assert kids[i] == Tree(ram, ram[root][i], 4);
    assert Proper(kids[i]);
    hide Tree, Fp, Fps, Kids, Tables, Proper, Blocked, UserKids;
    FpsPrefix(kids, i);
    TablesInFp(kids[i]);
    UnchangedSub(ram, ram', b'.owned - {Page(root)}, Tables(kids[i]));
    TreeFrame(ram, ram', ram[root][i], 4);
  }

  lemma ResetStep(ram: Ram, b: Book, root: nat, ram1: Ram, b1: Book, i: nat, ram2: Ram, b2: Book, ram3: Ram)
    requires Resetting(ram, b, root, ram1, b1, i) && i < 256 && Page(root) in b1.owned && Sound(ram2, b2.owned)
    requires var kids := UserKids(ram, root); var part := Fp(kids[i]);
      && Freed(ram1, b1, ram2, b2, part) && SameFate(b1, b2, Fps(kids) - Fps(kids[..i]), part)
      && Fps(kids[..i + 1]) == Fps(kids[..i]) + part && Page(root) !in part
      && (part == {} ==> b2 == b1) && (part != {} ==> b2.repaired || b2.list != [])
    requires root in ram2 && ram3 == ram2[root := ram2[root][i := 0]]
    ensures Resetting(ram, b, root, ram3, b2, i + 1)
  {
    var kids := UserKids(ram, root);
    hide Tree, Fp, Fps, Kids, Blocked, UserKids, Stacks;
    var gone := Fps(kids[..i]);
    assert Fps(kids) - gone - Fp(kids[i]) == Fps(kids) - Fps(kids[..i + 1]);
    assert b.owned - gone - Fp(kids[i]) == b.owned - Fps(kids[..i + 1]);
    UnchangedPage(ram1, ram2, b2.owned, root);
    var kept := b2.owned - {Page(root)};
    StoreElsewhere(ram2, ram3, kept, b2.owned, root);
    hide Sound, Held;
    UnchangedSub(ram, ram1, b1.owned - {Page(root)}, kept);
    UnchangedSub(ram1, ram2, b2.owned, kept);
    UnchangedTwice(ram, ram1, ram2, kept, kept);
    UnchangedTwice(ram, ram2, ram3, kept, kept);
  }

  // The reset address space: an empty user half, nothing of it held any more, the kernel half as before.
  ghost predicate IsReset(ram: Ram, b: Book, root: nat, ram': Ram, b': Book) {
    && root in ram && root in ram'
    && b'.owned == b.owned - Fps(UserKids(ram, root)) && b'.managed == b.managed
    && Unchanged(ram, ram', b'.owned - {Page(root)})
    && (forall j :: 0 <= j < 256 ==> ram'[root][j] == 0) && ram'[root][256..] == ram[root][256..]
  }

  method VirtResetTable(mem: PhysMem, root: nat) returns (ok: bool)
    requires mem.Valid() && Space(mem.ram, mem.book.owned, root)
    modifies mem
    ensures root in old(mem.ram)
    ensures ok <==>
      Fps(UserKids(old(mem.ram), root)) == {} || !Blocked(old(mem.book), Fps(UserKids(old(mem.ram), root)))
    ensures ok ==> mem.Valid() && IsReset(old(mem.ram), old(mem.book), root, mem.ram, mem.book)
  {
    hide *;
    ghost var ram := mem.ram;
    ghost var b := mem.book;
    NoneFreed(mem, {});
    ResetStart(ram, b, root);
    ghost var kids := UserKids(ram, root);
    var i := 0;
    while i < 256
      invariant 0 <= i <= 256 && mem.Valid() && Resetting(ram, b, root, mem.ram, mem.book, i)
    {
      ghost var ram1 := mem.ram;
      ghost var b1 := mem.book;
      ResetRead(ram, b, root, ram1, b1, i);
      ResettingRoot(ram, b, root, ram1, b1, i);
      ghost var rest := Fps(kids) - Fps(kids[..i]);
      PresentPart(ram1, mem.ram[root][i]);
      var entry := mem.ram[root][i];
      ok := CleanupEntry(mem, entry, 4, rest);
      if !ok {
        ResetFails(ram, b, root, ram1, b1, i);
        return;
      }
      ghost var ram2 := mem.ram;
      mem.OwnedInRam();
      RootStill(ram1, b1, ram2, mem.book, Fp(kids[i]), root);
      mem.ClientStore(root, i, 0);
      ResetStep(ram, b, root, ram1, b1, i, ram2, mem.book, mem.ram);
      i := i + 1;
    }
    mem.BookOk();
    ResetEnd(ram, b, root, mem.ram, mem.book);
    ok := true;
  }

  lemma ResettingRoot(ram: Ram, b: Book, root: nat, ram1: Ram, b1: Book, i: nat)
    requires Resetting(ram, b, root, ram1, b1, i)
    ensures root in ram1 && root in ram && |UserKids(ram, root)| == 256
  {
    hide Tree, Fps, Blocked, Unchanged;
  }

  lemma PresentPart(ram: Ram, e: Word)
    ensures Present(e) <==> Fp(Tree(ram, e, 4)) != {}
  {
    hide Present, TableFrame, Large, CopyFlags, LeafFrame;
    if Present(e) { assert Page(TableFrame(e)) in Fp(Tree(ram, e, 4)); }
  }

  lemma RootStill(ram1: Ram, b1: Book, ram2: Ram, b2: Book, part: set<Own>, root: nat)
    requires Freed(ram1, b1, ram2, b2, part) && Page(root) in b1.owned && Page(root) !in part && root in ram1
    ensures root in ram2 && Held(b2.owned, root)
  {
    hide Stacks;
  }

  lemma ResetFails(ram: Ram, b: Book, root: nat, ram1: Ram, b1: Book, i: nat)
    requires Resetting(ram, b, root, ram1, b1, i) && i < 256
    requires Blocked(b1, Fps(UserKids(ram, root)) - Fps(UserKids(ram, root)[..i])) && Fp(UserKids(ram, root)[i]) != {}
    ensures Fps(UserKids(ram, root)) != {} && Blocked(b, Fps(UserKids(ram, root)))
  {
    hide Tree, Blocked, Unchanged;
    FpInFps(UserKids(ram, root), i);
  }

  lemma ResetEnd(ram: Ram, b: Book, root: nat, ram': Ram, b': Book)
    requires Resetting(ram, b, root, ram', b', 256) && Steady(b')
    ensures IsReset(ram, b, root, ram', b')
    ensures Fps(UserKids(ram, root)) == {} || !Blocked(b, Fps(UserKids(ram, root)))
  {
    var kids := UserKids(ram, root);
    assert kids[..256] == kids;
    BlockedByNothing(b');
    hide Tree, Fps, Unchanged, Blocked, Steady, UserKids;
    assert Fps(kids) - Fps(kids) == {};
  }

  // ---------------------------------------------------------------------------------------------
  // A second cleanup of the same address space, as exit makes it

  // As written, every frame of the space is free after the first.
  lemma AllStacked(ram: Ram, b: Book, root: nat, ram': Ram, b': Book)
    requires root in ram && Freed(ram, b, ram', b', SpaceFp(ram, root)) && !b.repaired
    ensures forall f: nat :: Page(f) in SpaceFp(ram, root) ==> OnStack(b', f)
    ensures forall c: nat :: Chunk(c) in SpaceFp(ram, root) ==> c in b'.chunks
  {
    hide OnStack, Remains, SpaceFp;
  }

  // What a cleanup of the first n entries of a table, from entry i on, frees first: what the first entry present leads
  // to, or else the table itself
  function FirstFreed(ram: Ram, table: nat, lvl: nat, i: nat, n: nat): Own
    requires n <= 512
    decreases lvl, n - i
  {
    if i >= n || table !in ram || lvl == 0 then Page(table)
    else
      var e := ram[table][i];
      if !Present(e) then FirstFreed(ram, table, lvl, i + 1, n)
      else if lvl == 1 then Page(LeafFrame(e))
      else if lvl == 2 && Large(e) then Chunk(LeafFrame(e))
      else FirstFreed(ram, TableFrame(e), lvl - 1, 0, 512)
  }

  // The second cleanup begins with a frame or chunk of the space, all of which are free already: see FreedTwiceBreaks
  // and ChunkTwiceBreaks.
  lemma SecondCleanup(ram: Ram, b: Book, root: nat, ram': Ram, b': Book)
    requires Space(ram, b.owned, root) && Freed(ram, b, ram', b', SpaceFp(ram, root)) && !b.repaired
    ensures match FirstFreed(ram', root, 4, 0, 256)
      case Page(f) => OnStack(b', f)
      case Chunk(c) => c in b'.chunks
  {
    hide *;
    SpaceParts(ram, b.owned, root);
    SpaceRoot(ram, b.owned, root);
    AllStacked(ram, b, root, ram', b');
    PagesAre(ram, b, ram', b', SpaceFp(ram, root));
    FirstInside(ram, ram', b', SpaceFp(ram, root), root, 4, 0, 256);
  }

  lemma PagesAre(ram: Ram, b: Book, ram': Ram, b': Book, gone: set<Own>)
    requires Freed(ram, b, ram', b', gone) && !b.repaired
    ensures PagesLie(ram, ram', b', gone)
  {
    hide PagesLie, StackKept;
  }

  lemma {:induction false} FirstInside(ram: Ram, ram': Ram, b': Book, gone: set<Own>, table: nat, lvl: nat, i: nat,
      n: nat)
    requires PagesLie(ram, ram', b', gone) && 1 <= lvl <= 4 && n <= 512
    requires table in ram && Page(table) in gone && Fps(Kids(ram, ram[table], lvl)[..n]) <= gone
    ensures FirstFreed(ram', table, lvl, i, n) in gone
    decreases lvl, n - i
  {
    hide Tree, Fp, Fps, Kids, OnStack, Present, Large, LeafFrame, TableFrame;
    if i < n {
      TableRemains(ram, ram', b', gone, table, i);
      var e := ram'[table][i];
      if !Present(e) {
        FirstInside(ram, ram', b', gone, table, lvl, i + 1, n);
      } else {
        EntryInside(ram, table, lvl, i, n, gone);
        if lvl > 1 && !(lvl == 2 && Large(e)) {
          var t := TableFrame(e);
          SubRemains(ram, ram', b', gone, t);
          WholeTable(ram, t, lvl - 1);
          FirstInside(ram, ram', b', gone, t, lvl - 1, 0, 512);
        }
      }
    }
  }

  lemma SubRemains(ram: Ram, ram': Ram, b': Book, gone: set<Own>, t: nat)
    requires PagesLie(ram, ram', b', gone) && Page(t) in gone
    ensures t in ram
  {
    hide OnStack, Remains;
  }

  lemma TableRemains(ram: Ram, ram': Ram, b': Book, gone: set<Own>, table: nat, i: nat)
    requires PagesLie(ram, ram', b', gone) && Page(table) in gone && i < 512
    ensures table in ram && table in ram' && (Present(ram'[table][i]) ==> ram'[table][i] == ram[table][i])
  {
    if i == 0 { EvenIsAbsent(ram'[table][0]); }
    hide OnStack, Present;
  }

  lemma EvenIsAbsent(e: Word)
    ensures e % 2 == 0 ==> !Present(e)
  {
    Fields(e);
    hide And;
  }

  lemma EntryInside(ram: Ram, table: nat, lvl: nat, i: nat, n: nat, gone: set<Own>)
    requires 1 <= lvl <= 4 && i < n <= 512 && table in ram && Fps(Kids(ram, ram[table], lvl)[..n]) <= gone
    requires Present(ram[table][i])
    ensures var e := ram[table][i];
      && (lvl == 1 ==> Page(LeafFrame(e)) in gone) && (lvl == 2 && Large(e) ==> Chunk(LeafFrame(e)) in gone)
      && (lvl > 1 && !(lvl == 2 && Large(e)) ==>
        Page(TableFrame(e)) in gone && (TableFrame(e) in ram ==> Fps(Kids(ram, ram[TableFrame(e)], lvl - 1)) <= gone))
  {
    hide Present, Large, LeafFrame, TableFrame, CopyFlags;
    var kids := Kids(ram, ram[table], lvl)[..n];
    assert kids[i] == Tree(ram, ram[table][i], lvl);
    FpInFps(kids, i);
    hide Kids, Fps;
  }
}
