// paging.c: virt_unmap_page and virt_lookup_phys.
module PageUnmap {
  import opened Words
  import opened Entries
  import opened PhysBook
  import opened PhysAlloc
  import opened PageTree
  import opened PageClone
  import opened PageCleanup
  import opened PageMap

  // The page (or the 512 pages of a large one) is gone, every other page is found as before.
  ghost predicate Unfound(kids: seq<Node>, kids': seq<Node>, lvl: nat, vp: nat, large: bool) {
    forall vp2 :: FindIn(kids', lvl, vp2)
                  == (if SamePath(lvl, if large then 2 else 1, vp, vp2) then NoLeaf else FindIn(kids, lvl, vp2))
  }

  // No table has gone, and none has other flags.
  ghost predicate SamePaths(kids: seq<Node>, kids': seq<Node>, lvl: nat) {
    forall vp2 :: Path(kids', lvl, vp2) == Path(kids, lvl, vp2)
  }

  // The mapping has been taken out below a table: its frame or chunk h is no longer held, and memory changed
  // only in tables of this part.
  ghost predicate Unbound(ram: Ram, owned: set<Own>, ram': Ram, owned': set<Own>,
                          table: nat, lvl: nat, vp: nat, h: Own, large: bool) {
    && table in ram && Part(ram', owned', table, lvl)
    && var kids, kids' := TableKids(ram, table, lvl), TableKids(ram', table, lvl);
    && h in Fps(kids) && owned' == owned - {h} && Fps(kids') == Fps(kids) - {h}
    && Unchanged(ram, ram', owned' - ({Page(table)} + TablesIn(kids)))
    && ram'[table][Width(lvl)..] == ram[table][Width(lvl)..]
    && Unfound(kids, kids', lvl, vp, large) && SamePaths(kids, kids', lvl)
  }

  lemma UnbindLeaf(ram: Ram, owned: set<Own>, ram1: Ram, ram2: Ram, table: nat, lvl: nat, vp: nat, h: Own, large: bool)
    requires Part(ram, owned, table, lvl) && Idx(lvl, vp) < Width(lvl) && lvl == (if large then 2 else 1)
    requires Fp(TableKids(ram, table, lvl)[Idx(lvl, vp)]) == {h} && !TableKids(ram, table, lvl)[Idx(lvl, vp)].Dir?
    requires Unchanged(ram, ram1, owned - {h}) && Sound(ram1, owned - {h})
    requires table in ram1 && ram2 == ram1[table := ram1[table][Idx(lvl, vp) := 0]]
    ensures Unbound(ram, owned, ram2, owned - {h}, table, lvl, vp, h, large)
  {
    hide *;
    PartParts(ram, owned, table, lvl);
    var kids := TableKids(ram, table, lvl);
    var i := Idx(lvl, vp);
    FpInFps(kids, i);
    WidthBound(lvl);
    UnbindMemory(ram, owned, ram1, ram2, table, lvl, i, h);
    AbsentTree(ram2, lvl);
    ReplaceFps(kids, i, Absent);
    ReplaceProper(kids, i, Absent);
    UnfoundLeaf(kids, i, lvl, vp, large);
    SamePathsLeaf(kids, i, lvl);
    UnboundMade(ram, owned, ram2, owned - {h}, table, lvl, vp, h, large);
  }

  lemma AbsentTree(ram: Ram, lvl: nat)
    ensures Tree(ram, 0, lvl) == Absent && Fp(Absent) == {} && Proper(Absent)
  {
    Fields(0);
  }

  lemma UnbindMemory(ram: Ram, owned: set<Own>, ram1: Ram, ram2: Ram, table: nat, lvl: nat, i: nat, h: Own)
    requires Part(ram, owned, table, lvl) && i < Width(lvl) <= 512 && h in Fp(TableKids(ram, table, lvl)[i])
    requires Unchanged(ram, ram1, owned - {h}) && Sound(ram1, owned - {h})
    requires table in ram1 && ram2 == ram1[table := ram1[table][i := 0]]
    ensures table in ram2 && ram2[table] == ram[table][i := 0] && Page(table) in owned - {h}
    ensures ram2[table][Width(lvl)..] == ram[table][Width(lvl)..]
    ensures TableKids(ram2, table, lvl) == TableKids(ram, table, lvl)[i := Tree(ram2, 0, lvl)]
    ensures Unchanged(ram, ram2, owned - {h} - ({Page(table)} + TablesIn(TableKids(ram, table, lvl))))
  {
    PartParts(ram, owned, table, lvl);
    FpInFps(TableKids(ram, table, lvl), i);
    hide Tree, Fp, Fps, ProperKids, TableKids, TablesIn, Part;
    UnchangedPage(ram, ram1, owned - {h}, table);
    var kept := owned - {h, Page(table)};
    UnbindFrame(ram, owned, ram1, ram2, table, h, i, TablesIn(TableKids(ram, table, lvl)), kept);
    hide Sound, Held, Unchanged;
    assert ram2[table][Width(lvl)..] == ram[table][Width(lvl)..];
    SubtreeChange(ram, ram2, owned, table, lvl, i, 0, {h, Page(table)});
  }

  lemma UnbindFrame(ram: Ram, owned: set<Own>, ram1: Ram, ram2: Ram, table: nat, h: Own, i: nat, tables: set<Own>,
      kept: set<Own>)
    requires Unchanged(ram, ram1, owned - {h}) && Sound(ram1, owned - {h}) && Page(table) in owned - {h}
    requires table in ram1 && i < 512 && ram2 == ram1[table := ram1[table][i := 0]] && kept == owned - {h, Page(table)}
    ensures Unchanged(ram, ram2, kept) && Unchanged(ram, ram2, owned - {h} - ({Page(table)} + tables))
  {
    StoreElsewhere(ram1, ram2, kept, owned - {h}, table);
    hide Sound, Held, Unchanged;
    UnchangedSub(ram, ram1, owned - {h}, kept);
    UnchangedTwice(ram, ram1, ram2, kept, kept);
    UnchangedSub(ram, ram2, kept, owned - {h} - ({Page(table)} + tables));
  }

  lemma UnfoundLeaf(kids: seq<Node>, i: nat, lvl: nat, vp: nat, large: bool)
    requires i < |kids| && i == Idx(lvl, vp) && lvl == (if large then 2 else 1)
    ensures Unfound(kids, kids[i := Absent], lvl, vp, large)
  {
    hide Idx;
    forall vp2 ensures FindIn(kids[i := Absent], lvl, vp2) ==
      (if SamePath(lvl, lvl, vp, vp2) then NoLeaf else FindIn(kids, lvl, vp2)) {
      ReplaceFind(kids, i, Absent, lvl, vp2);
      assert !SamePath(lvl - 1, lvl, vp, vp2) ==> lvl - 1 >= lvl;
      assert SamePath(lvl, lvl, vp, vp2) <==> Idx(lvl, vp2) == i;
      assert Find(Absent, lvl, vp2) == NoLeaf;
    }
  }

  lemma SamePathsLeaf(kids: seq<Node>, i: nat, lvl: nat)
    requires i < |kids| && !kids[i].Dir?
    ensures SamePaths(kids, kids[i := Absent], lvl)
  {
    hide Idx;
  }

  lemma SamePathsUp(kids: seq<Node>, i: nat, sub: seq<Node>, sub2: seq<Node>, s: nat, flags: Word, lvl: nat)
    requires i < |kids| && kids[i] == Dir(s, flags, sub) && lvl > 0 && SamePaths(sub, sub2, lvl - 1)
    ensures SamePaths(kids, kids[i := Dir(s, flags, sub2)], lvl)
  {
    hide Idx;
    forall vp2 ensures Path(kids[i := Dir(s, flags, sub2)], lvl, vp2) == Path(kids, lvl, vp2) {
      assert Path(sub2, lvl - 1, vp2) == Path(sub, lvl - 1, vp2);
    }
  }

  lemma UnboundMade(ram: Ram, owned: set<Own>, ram': Ram, owned': set<Own>, table: nat, lvl: nat, vp: nat, h: Own,
      large: bool)
    requires Width(lvl) <= 512 && table in ram && table in ram' && owned' == owned - {h} && Page(table) in owned'
    requires var kids, kids' := TableKids(ram, table, lvl), TableKids(ram', table, lvl);
      && h in Fps(kids) && Fps(kids) <= owned && Page(table) !in Fps(kids)
      && ProperKids(kids') && Fps(kids') == Fps(kids) - {h}
      && Unchanged(ram, ram', owned' - ({Page(table)} + TablesIn(kids)))
      && Unfound(kids, kids', lvl, vp, large) && SamePaths(kids, kids', lvl)
    requires ram'[table][Width(lvl)..] == ram[table][Width(lvl)..]
    ensures Unbound(ram, owned, ram', owned', table, lvl, vp, h, large)
  {
    hide TableKids, Fps, ProperKids, Unfound, TablesIn, SamePaths;
  }

  lemma UnboundParts(ram: Ram, owned: set<Own>, ram': Ram, owned': set<Own>, table: nat, lvl: nat, vp: nat, h: Own,
      large: bool)
    requires Unbound(ram, owned, ram', owned', table, lvl, vp, h, large)
    ensures table in ram && table in ram' && Part(ram', owned', table, lvl)
    ensures var kids, kids' := TableKids(ram, table, lvl), TableKids(ram', table, lvl);
      && h in Fps(kids) && owned' == owned - {h} && Fps(kids') == Fps(kids) - {h}
      && Unchanged(ram, ram', owned' - ({Page(table)} + TablesIn(kids)))
      && ram'[table][Width(lvl)..] == ram[table][Width(lvl)..]
      && Unfound(kids, kids', lvl, vp, large) && SamePaths(kids, kids', lvl)
  {
    hide TableKids, Fps, Part, TablesIn, Unfound, SamePaths;
  }

  // From the sub-table up to the table
  lemma UnbindUp(ram: Ram, owned: set<Own>, ram2: Ram, owned2: set<Own>, table: nat, lvl: nat, vp: nat, h: Own,
      large: bool)
    requires Part(ram, owned, table, lvl) && 2 <= lvl <= 4 && (large ==> lvl > 2) && Idx(lvl, vp) < Width(lvl) &&
      Sound(ram, owned)
    requires Present(ram[table][Idx(lvl, vp)]) && !(lvl == 2 && Large(ram[table][Idx(lvl, vp)]))
    requires Unbound(ram, owned, ram2, owned2, TableFrame(ram[table][Idx(lvl, vp)]), lvl - 1, vp, h, large)
    ensures Unbound(ram, owned, ram2, owned2, table, lvl, vp, h, large)
  {
    hide *;
    PartParts(ram, owned, table, lvl);
    var i := Idx(lvl, vp);
    var e := ram[table][i];
    var s := TableFrame(e);
    var kids := TableKids(ram, table, lvl);
    SubPart(ram, owned, table, lvl, i);
    PartParts(ram, owned, s, lvl - 1);
    UnboundParts(ram, owned, ram2, owned2, s, lvl - 1, vp, h, large);
    PartParts(ram2, owned2, s, lvl - 1);
    var sub, sub2 := TableKids(ram, s, lvl - 1), TableKids(ram2, s, lvl - 1);
    var changed := {h} + ({Page(s)} + TablesIn(sub));
    TablesInFp(kids[i]);
    UnbindUpMemory(ram, owned, ram2, table, h, Page(s), TablesIn(sub), TablesIn(kids), changed);
    SubtreeChange(ram, ram2, owned, table, lvl, i, e, changed);
    TreeOfTable(ram2, e, lvl);
    var n2 := Dir(s, CopyFlags(e), sub2);
    DirFacts(s, CopyFlags(e), sub2);
    ReplaceFps(kids, i, n2);
    UnbindUpSets(Fps(kids), Fp(kids[i]), Fps(sub), Fps(sub2), Fp(n2), Page(s), h);
    ReplaceProper(kids, i, n2);
    UnfoundUp(kids, i, sub, sub2, s, CopyFlags(e), lvl, vp, large);
    SamePathsUp(kids, i, sub, sub2, s, CopyFlags(e), lvl);
    WidthBound(lvl);
    UnboundMade(ram, owned, ram2, owned2, table, lvl, vp, h, large);
  }

  lemma UnbindUpMemory(ram: Ram, owned: set<Own>, ram2: Ram, table: nat, h: Own, s: Own, subTables: set<Own>,
      tables: set<Own>, changed: set<Own>)
    requires Unchanged(ram, ram2, owned - {h} - ({s} + subTables)) && changed == {h} + ({s} + subTables)
    requires table in ram && Page(table) in owned && Page(table) !in changed && {s} + subTables <= tables
    ensures table in ram2 && ram2[table] == ram[table] && ram2[table] == ram[table][0 := ram[table][0]]
    ensures Unchanged(ram, ram2, owned - changed)
    ensures Unchanged(ram, ram2, owned - {h} - ({Page(table)} + tables))
  {
    assert owned - {h} - ({s} + subTables) == owned - changed;
    UnchangedPage(ram, ram2, owned - changed, table);
    UnchangedSub(ram, ram2, owned - changed, owned - {h} - ({Page(table)} + tables));
  }

  lemma UnbindUpSets(all: set<Own>, at: set<Own>, sub: set<Own>, sub2: set<Own>, at2: set<Own>, s: Own, h: Own)
    requires at <= all && at == {s} + sub && s !in sub && h in sub && sub2 == sub - {h} && at2 == {s} + sub2
    ensures all - at + at2 == all - {h} && at2 !! all - at && h in all
  {
  }

  lemma {:induction false} UnfoundUp(kids: seq<Node>, i: nat, sub: seq<Node>, sub2: seq<Node>, s: nat, flags: Word,
      lvl: nat, vp: nat, large: bool)
    requires i < |kids| && i == Idx(lvl, vp) && lvl > (if large then 2 else 1) && kids[i] == Dir(s, flags, sub)
    requires Unfound(sub, sub2, lvl - 1, vp, large)
    ensures Unfound(kids, kids[i := Dir(s, flags, sub2)], lvl, vp, large)
  {
    var n2 := Dir(s, flags, sub2);
    var stop := if large then 2 else 1;
    hide Idx;
    forall vp2 ensures FindIn(kids[i := n2], lvl, vp2) ==
      (if SamePath(lvl, stop, vp, vp2) then NoLeaf else FindIn(kids, lvl, vp2)) {
      ReplaceFind(kids, i, n2, lvl, vp2);
      assert Find(n2, lvl, vp2) == FindIn(sub2, lvl - 1, vp2) && Find(kids[i], lvl, vp2) == FindIn(sub, lvl - 1, vp2);
      assert SamePath(lvl, stop, vp, vp2) <==> Idx(lvl, vp2) == i && SamePath(lvl - 1, stop, vp, vp2);
    }
  }

  // ---------------------------------------------------------------------------------------------
  // virt_unmap_page

  // NotPresent and CannotFree are panics.
  datatype UnmapResult = Unmapped | NotPresent | CannotFree

  // What a leaf found for page vp is made of
  function LeafOwn(l: Leaf, vp: nat): Own {
    if l.Leaf? && l.large then Chunk(if vp % 512 <= l.frame then l.frame - vp % 512 else 0)
    else if l.Leaf? then Page(l.frame) else Page(0)
  }

  // What one entry on the path says about the page
  lemma EntryOnPath(ram: Ram, owned: set<Own>, table: nat, lvl: nat, vp: nat)
    requires Part(ram, owned, table, lvl) && 1 <= lvl <= 4 && Idx(lvl, vp) < Width(lvl) <= 512 && Sound(ram, owned)
    ensures var e := ram[table][Idx(lvl, vp)]; var kids := TableKids(ram, table, lvl); var n := kids[Idx(lvl, vp)];
      && (!Present(e) ==> FindIn(kids, lvl, vp) == NoLeaf && n == Absent)
      && (Present(e) && lvl == 1 ==> (
            && FindIn(kids, lvl, vp) == Leaf(LeafFrame(e), CopyFlags(e), false)
            && n.Small? && Fp(n) == {Page(LeafFrame(e))} && Page(LeafFrame(e)) in owned))
      && (Present(e) && lvl == 2 && Large(e) ==> (
            && FindIn(kids, lvl, vp) == Leaf(LeafFrame(e) + vp % 512, CopyFlags(e), true)
            && n.Big? && Fp(n) == {Chunk(LeafFrame(e))} && Chunk(LeafFrame(e)) in owned))
      && (Present(e) && 2 <= lvl && !(lvl == 2 && Large(e)) ==> (
            && Part(ram, owned, TableFrame(e), lvl - 1)
            && n.Dir? && n.kids == TableKids(ram, TableFrame(e), lvl - 1)
            && FindIn(kids, lvl, vp) == FindIn(TableKids(ram, TableFrame(e), lvl - 1), lvl - 1, vp)))
  {
    hide Present, Large, LeafFrame, TableFrame, CopyFlags, Idx;
    var e := ram[table][Idx(lvl, vp)];
    var kids := TableKids(ram, table, lvl);
    var n := Tree(ram, e, lvl);
    assert kids[Idx(lvl, vp)] == n && FindIn(kids, lvl, vp) == Find(n, lvl, vp);
    FpInFps(kids, Idx(lvl, vp));
    if Present(e) && 2 <= lvl && !(lvl == 2 && Large(e)) {
      SubPart(ram, owned, table, lvl, Idx(lvl, vp));
      assert Find(n, lvl, vp) == FindIn(n.kids, lvl - 1, vp);
    } else if Present(e) {
      assert n.Small? ==> Page(n.frame) in Fp(n);
      assert n.Big? ==> Chunk(n.frame) in Fp(n);
    }
  }

  method UnmapAt(mem: PhysMem, table: nat, lvl: nat, vp: nat) returns (r: UnmapResult)
    requires mem.Valid() && Part(mem.ram, mem.book.owned, table, lvl) && 1 <= lvl <= 4 && Idx(lvl, vp) < Width(lvl)
    modifies mem
    ensures r.NotPresent? <==> FindIn(TableKids(old(mem.ram), table, lvl), lvl, vp).NoLeaf?
    ensures var l := FindIn(TableKids(old(mem.ram), table, lvl), lvl, vp);
      r.CannotFree? <==> l.Leaf? && !l.large && Blocked(old(mem.book), {LeafOwn(l, vp)})
    ensures r.Unmapped? ==> var l := FindIn(TableKids(old(mem.ram), table, lvl), lvl, vp);
      mem.Valid() && Unbound(old(mem.ram), old(mem.book.owned), mem.ram, mem.book.owned, table, lvl, vp,
        LeafOwn(l, vp), l.large)
    decreases lvl
  {
    hide *;
    ghost var ram := mem.ram;
    ghost var b := mem.book;
    var i := Idx(lvl, vp);
    WidthBound(lvl);
    PartParts(ram, b.owned, table, lvl);
    mem.OwnedInRam();
    EntryOnPath(ram, b.owned, table, lvl, vp);
    ghost var l := FindIn(TableKids(ram, table, lvl), lvl, vp);
    LeafOwnIs(l, vp);
    var e := mem.ram[table][i];
    if !Present(e) {
      return NotPresent;
    }
    if lvl == 1 {
      var ok := FreePage(mem, LeafFrame(e), {Page(LeafFrame(e))});
      if !ok {
        return CannotFree;
      }
    } else if lvl == 2 && Large(e) {
      FreeLarge(mem, LeafFrame(e), {});
    } else {
      IdxBound(lvl - 1, vp);
      PartParts(ram, b.owned, TableFrame(e), lvl - 1);
      r := UnmapAt(mem, TableFrame(e), lvl - 1, vp);
      if r.Unmapped? {
        LargeAbove(ram, TableFrame(e), lvl - 1, vp);
        UnbindUp(ram, b.owned, mem.ram, mem.book.owned, table, lvl, vp, LeafOwn(l, vp), l.large);
      }
      return;
    }
    ghost var ram1 := mem.ram;
    mem.OwnedInRam();
    AfterFreeing(ram, b, ram1, mem.book, table, lvl, i, LeafOwn(l, vp));
    mem.ClientStore(table, i, 0);
    UnbindLeaf(ram, b.owned, ram1, mem.ram, table, lvl, vp, LeafOwn(l, vp), l.large);
    r := Unmapped;
  }

  lemma LeafOwnIs(l: Leaf, vp: nat)
    ensures l.Leaf? && !l.large ==> LeafOwn(l, vp) == Page(l.frame)
    ensures l.Leaf? && l.large && vp % 512 <= l.frame ==> LeafOwn(l, vp) == Chunk(l.frame - vp % 512)
  {
  }

  lemma AfterFreeing(ram: Ram, b: Book, ram1: Ram, b1: Book, table: nat, lvl: nat, i: nat, h: Own)
    requires Freed(ram, b, ram1, b1, {h}) && Part(ram, b.owned, table, lvl) && i < Width(lvl)
    requires h in Fp(TableKids(ram, table, lvl)[i])
    ensures table in ram1 && Held(b1.owned, table) && b1.owned == b.owned - {h} && Unchanged(ram, ram1, b.owned - {h})
  {
    FpInFps(TableKids(ram, table, lvl), i);
    hide TableKids, ProperKids, Fp, Fps;
  }

  // A large leaf sits at level 2.
  lemma LargeAbove(ram: Ram, table: nat, lvl: nat, vp: nat)
    requires table in ram && lvl >= 1
    ensures FindIn(TableKids(ram, table, lvl), lvl, vp).Leaf? && FindIn(TableKids(ram, table, lvl), lvl, vp).large ==>
      lvl >= 2
  {
    NotLargeBelow(ram, ram[table][..Width(1)], vp);
  }

  // ---------------------------------------------------------------------------------------------
  // virt_lookup_phys

  // The page-directory entry on the path of a page
  function DirectoryEntry(kids: seq<Node>, lvl: nat, vp: nat): Node {
    if Idx(lvl, vp) >= |kids| then Absent
    else if lvl <= 2 then kids[Idx(lvl, vp)]
    else if kids[Idx(lvl, vp)].Dir? then DirectoryEntry(kids[Idx(lvl, vp)].kids, lvl - 1, vp)
    else Absent
  }

  lemma DirectoryOnPath(ram: Ram, owned: set<Own>, table: nat, lvl: nat, vp: nat)
    requires Part(ram, owned, table, lvl) && 2 <= lvl <= 4 && Idx(lvl, vp) < Width(lvl) <= 512 && Sound(ram, owned)
    ensures var e := ram[table][Idx(lvl, vp)]; var kids := TableKids(ram, table, lvl);
      && (!Present(e) ==> DirectoryEntry(kids, lvl, vp) == Absent)
      && (Present(e) && lvl == 2 ==> !DirectoryEntry(kids, lvl, vp).Absent?)
      && (Present(e) && lvl > 2 ==> (
            && TableFrame(e) in ram
            && DirectoryEntry(kids, lvl, vp) == DirectoryEntry(TableKids(ram, TableFrame(e), lvl - 1), lvl - 1, vp)))
  {
    hide Present, Large, LeafFrame, TableFrame, CopyFlags, Idx;
    EntryOnPath(ram, owned, table, lvl, vp);
  }

  // What virt_lookup_phys answers for an address, given what its page is mapped to and its directory entry
  predicate Answers(l: Leaf, directory: Node, va: nat, found: bool, phys: nat) {
    && (found <==> !directory.Absent?)
    && (l.Leaf? ==> found && (l.large ==> va / PAGE_BYTES % 512 <= l.frame))
    && (found ==> phys == if l.NoLeaf? then 0
                          else if l.large then (l.frame - va / PAGE_BYTES % 512) * PAGE_BYTES + va % PAGE_BYTES
                          else l.frame * PAGE_BYTES + va % PAGE_BYTES)
  }

  lemma AnswerCases(l: Leaf, directory: Node, va: nat)
    ensures directory.Absent? && l.NoLeaf? ==> Answers(l, directory, va, false, 0)
    ensures !directory.Absent? && l.NoLeaf? ==> Answers(l, directory, va, true, 0)
    ensures !directory.Absent? && l.Leaf? && !l.large ==>
      Answers(l, directory, va, true, l.frame * PAGE_BYTES + va % PAGE_BYTES)
    ensures forall f: nat :: !directory.Absent? && l.Leaf? && l.large && l.frame == f + va / PAGE_BYTES % 512 ==>
      Answers(l, directory, va, true, f * PAGE_BYTES + va % PAGE_BYTES)
  {
  }

  // One step of the walk
  lemma PathStep(ram: Ram, owned: set<Own>, table: nat, lvl: nat, vp: nat)
    requires Part(ram, owned, table, lvl) && 1 <= lvl <= 4 && Idx(lvl, vp) < Width(lvl) && Sound(ram, owned)
    ensures table in ram && Idx(lvl, vp) < 512
    ensures var e := ram[table][Idx(lvl, vp)]; var kids := TableKids(ram, table, lvl);
      && (!Present(e) ==> FindIn(kids, lvl, vp) == NoLeaf && DirectoryEntry(kids, lvl, vp) == Absent)
      && (Present(e) && lvl == 1 ==> FindIn(kids, lvl, vp) == Leaf(LeafFrame(e), CopyFlags(e), false))
      && (Present(e) && lvl == 2 ==> !DirectoryEntry(kids, lvl, vp).Absent?)
      && (Present(e) && lvl == 2 && Large(e) ==>
        FindIn(kids, lvl, vp) == Leaf(LeafFrame(e) + vp % 512, CopyFlags(e), true))
      && (Present(e) && 2 <= lvl && !(lvl == 2 && Large(e)) ==> (
            && Part(ram, owned, TableFrame(e), lvl - 1) && TableFrame(e) in ram && Idx(lvl - 1, vp) < Width(lvl - 1)
            && FindIn(kids, lvl, vp) == FindIn(TableKids(ram, TableFrame(e), lvl - 1), lvl - 1, vp)
            && (lvl > 2 ==>
              DirectoryEntry(kids, lvl, vp) == DirectoryEntry(TableKids(ram, TableFrame(e), lvl - 1), lvl - 1, vp))))
  {
    hide *;
    WidthBound(lvl);
    PartParts(ram, owned, table, lvl);
    EntryOnPath(ram, owned, table, lvl, vp);
    if lvl >= 2 {
      DirectoryOnPath(ram, owned, table, lvl, vp);
      IdxBound(lvl - 1, vp);
      var e := ram[table][Idx(lvl, vp)];
      if Present(e) && !(lvl == 2 && Large(e)) {
        PartParts(ram, owned, TableFrame(e), lvl - 1);
      }
    } else {
      if !Present(ram[table][Idx(lvl, vp)]) {
        NoDirectory(ram, table, vp);
      }
    }
  }

  lemma NoDirectory(ram: Ram, table: nat, vp: nat)
    requires table in ram && Idx(1, vp) < Width(1) <= 512 && !Present(ram[table][Idx(1, vp)])
    ensures DirectoryEntry(TableKids(ram, table, 1), 1, vp) == Absent
  {
    hide Present, Idx;
  }

  // As written: a large page loses bits 12 to 20 of the offset, and a missing 4KiB page below a page table is
  // reported as found at address 0.
  method VirtLookupPhys(mem: PhysMem, root: nat, va: nat) returns (found: bool, phys: nat)
    requires mem.Valid() && Part(mem.ram, mem.book.owned, root, 4) && Idx(4, va / PAGE_BYTES) < Width(4)
    ensures Answers(FindIn(TableKids(mem.ram, root, 4), 4, va / PAGE_BYTES),
                    DirectoryEntry(TableKids(mem.ram, root, 4), 4, va / PAGE_BYTES), va, found, phys)
  {
    var vp := va / PAGE_BYTES;
    hide *;
    ghost var ram, owned := mem.ram, mem.book.owned;
    mem.OwnedInRam();
    PathStep(ram, owned, root, 4, vp);
    AnswerCases(FindIn(TableKids(ram, root, 4), 4, vp), DirectoryEntry(TableKids(ram, root, 4), 4, vp), va);
    found, phys := false, 0;
    var pml4Entry := mem.ram[root][Idx(4, vp)];
    if Present(pml4Entry) {
      var pdpt := TableFrame(pml4Entry);
      PathStep(ram, owned, pdpt, 3, vp);
      var pdptEntry := mem.ram[pdpt][Idx(3, vp)];
      if Present(pdptEntry) {
        found, phys := LookupDirectory(mem, TableFrame(pdptEntry), va);
      }
    }
  }

  // The two lower levels of virt_lookup_phys
  method LookupDirectory(mem: PhysMem, pdt: nat, va: nat) returns (found: bool, phys: nat)
    requires mem.Valid() && Part(mem.ram, mem.book.owned, pdt, 2) && Idx(2, va / PAGE_BYTES) < Width(2)
    ensures Answers(FindIn(TableKids(mem.ram, pdt, 2), 2, va / PAGE_BYTES),
                    DirectoryEntry(TableKids(mem.ram, pdt, 2), 2, va / PAGE_BYTES), va, found, phys)
  {
    var vp := va / PAGE_BYTES;
    hide *;
    ghost var ram, owned := mem.ram, mem.book.owned;
    mem.OwnedInRam();
    PathStep(ram, owned, pdt, 2, vp);
    AnswerCases(FindIn(TableKids(ram, pdt, 2), 2, vp), DirectoryEntry(TableKids(ram, pdt, 2), 2, vp), va);
    found, phys := false, 0;
    var pdtEntry := mem.ram[pdt][Idx(2, vp)];
    if Present(pdtEntry) {
      found := true;
      if Large(pdtEntry) {
        phys := LeafFrame(pdtEntry) * PAGE_BYTES + va % PAGE_BYTES;
      } else {
        var pt := TableFrame(pdtEntry);
        PathStep(ram, owned, pt, 1, vp);
        var ptEntry := mem.ram[pt][Idx(1, vp)];
        if Present(ptEntry) {
          phys := LeafFrame(ptEntry) * PAGE_BYTES + va % PAGE_BYTES;
        }
      }
    }
  }

  // The lookup tells the truth: found exactly when mapped, and at the right address.
  predicate Truthful(l: Leaf, va: nat, found: bool, phys: nat) {
    (found <==> l.Leaf?) && (l.Leaf? ==> phys == l.frame * PAGE_BYTES + va % PAGE_BYTES)
  }

  // virt_lookup_phys tells the truth exactly when the page is not one that is missing under an existing page
  // directory entry, and not one of the last 511 pages of a large one.
  lemma LookupTruth(kids: seq<Node>, va: nat, found: bool, phys: nat)
    requires Answers(FindIn(kids, 4, va / PAGE_BYTES), DirectoryEntry(kids, 4, va / PAGE_BYTES), va, found, phys)
    ensures var vp := va / PAGE_BYTES; var l := FindIn(kids, 4, vp);
      Truthful(l, va, found, phys) <==>
        (l.NoLeaf? ==> DirectoryEntry(kids, 4, vp).Absent?) && (l.Leaf? && l.large ==> vp % 512 == 0)
  {
    hide FindIn, DirectoryEntry;
  }
}
