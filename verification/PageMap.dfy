// paging.c: virt_map_phys, virt_map_page, virt_unmap_page and virt_lookup_phys.
module PageMap {
  import opened Words
  import opened Entries
  import opened PhysBook
  import opened PhysAlloc
  import opened PageTree
  import opened PageClone
  import opened PageCleanup

  // How many entries of a table belong to user space
  function Width(lvl: nat): nat {
    if lvl == 4 then 256 else 512
  }

  function TableKids(ram: Ram, table: nat, lvl: nat): (kids: seq<Node>)
    requires table in ram
    ensures |kids| == Width(lvl)
  {
    Kids(ram, ram[table][..Width(lvl)], lvl)
  }

  // The part of an address space below one table
  ghost predicate Part(ram: Ram, owned: set<Own>, table: nat, lvl: nat) {
    && table in ram && Page(table) in owned
    && var kids := TableKids(ram, table, lvl);
    && ProperKids(kids) && Fps(kids) <= owned && Page(table) !in Fps(kids)
  }

  // ---------------------------------------------------------------------------------------------
  // Replacing one subtree

  lemma {:induction false} ReplaceFps(kids: seq<Node>, i: nat, n: Node)
    requires i < |kids| && ProperKids(kids)
    ensures Fps(kids[i := n]) == Fps(kids) - Fp(kids[i]) + Fp(n)
  {
    var kids' := kids[i := n];
    hide Fp, Proper;
    forall o ensures o in Fps(kids') <==> o in Fps(kids) - Fp(kids[i]) + Fp(n) {
      if o in Fp(n) { assert kids'[i] == n; }
      if o in Fps(kids) && o !in Fp(kids[i]) {
        var j :| 0 <= j < |kids| && o in Fp(kids[j]);
        assert kids'[j] == kids[j];
      }
      if o in Fps(kids') && o !in Fp(n) {
        var j :| 0 <= j < |kids'| && o in Fp(kids'[j]);
        assert j != i && kids'[j] == kids[j];
      }
    }
  }

  lemma {:induction false} ReplaceProper(kids: seq<Node>, i: nat, n: Node)
    requires i < |kids| && ProperKids(kids) && Proper(n) && Fp(n) !! Fps(kids) - Fp(kids[i])
    ensures ProperKids(kids[i := n])
  {
    var kids' := kids[i := n];
    hide Fp, Proper;
    forall j, k | 0 <= j < k < |kids'| ensures Fp(kids'[j]) !! Fp(kids'[k]) {
      forall o | o in Fp(kids'[j]) ensures o !in Fp(kids'[k]) {
        assert j != i ==> kids'[j] == kids[j] && o in Fps(kids);
        assert k != i ==> kids'[k] == kids[k] && (o in Fp(kids[k]) ==> o in Fps(kids));
        assert j != i && k != i ==> Fp(kids[j]) !! Fp(kids[k]);
        assert j == i && k != i ==> Fp(kids[i]) !! Fp(kids[k]);
        assert k == i && j != i ==> Fp(kids[j]) !! Fp(kids[i]);
      }
    }
  }

  lemma {:induction false} ReplaceFind(kids: seq<Node>, i: nat, n: Node, lvl: nat, vp: nat)
    requires i < |kids|
    ensures FindIn(kids[i := n], lvl, vp) == if Idx(lvl, vp) == i then Find(n, lvl, vp) else FindIn(kids, lvl, vp)
  {
    hide Idx;
  }

  // Subtree i lives in memory of its own: a change elsewhere in it changes that subtree only.
  lemma SubtreeChange(ram: Ram, ram': Ram, owned: set<Own>, table: nat, lvl: nat, i: nat, w: Word, changed: set<Own>)
    requires Part(ram, owned, table, lvl) && i < Width(lvl) && table in ram'
    requires ram'[table] == ram[table][i := w]
    requires Unchanged(ram, ram', owned - changed)
    requires changed !! Fps(TableKids(ram, table, lvl)) - Fp(TableKids(ram, table, lvl)[i])
    ensures TableKids(ram', table, lvl) == TableKids(ram, table, lvl)[i := Tree(ram', w, lvl)]
  {
    var kids := TableKids(ram, table, lvl);
    var ws := ram[table][..Width(lvl)];
    var kids' := TableKids(ram', table, lvl);
    hide Tree, Fp, Tables, Proper, Unchanged;
    forall j | 0 <= j < |kids| && j != i ensures kids'[j] == kids[j] {
      assert ram'[table][..Width(lvl)][j] == ws[j];
      FpInFps(kids, j);
      TablesInFp(kids[j]);
      SiblingApart(kids, i, j);
      UnchangedSub(ram, ram', owned - changed, Tables(kids[j]));
      TreeFrame(ram, ram', ws[j], lvl);
    }
    assert ram'[table][..Width(lvl)][i] == w;
  }

  lemma SiblingApart(kids: seq<Node>, i: nat, j: nat)
    requires ProperKids(kids) && i < |kids| && j < |kids| && i != j
    ensures Fp(kids[i]) !! Fp(kids[j]) && Fp(kids[j]) <= Fps(kids) - Fp(kids[i])
  {
    FpInFps(kids, j);
  }

  // ---------------------------------------------------------------------------------------------
  // What mapping a page means

  // A mapping to make: the frame (of the chunk, when large), the requested flags, the size
  datatype Target = Target(frame: nat, flags: Word, large: bool)

  function Handle(t: Target): Own {
    if t.large then Chunk(t.frame) else Page(t.frame)
  }

  // The level of the table the leaf goes into
  function Stop(t: Target): nat {
    if t.large then 2 else 1
  }

  // What a page of the mapping is then found at
  function At(t: Target, vp: nat): Leaf {
    if t.large then Leaf(t.frame + vp % 512, SafeFlags(t.flags) + 1, true)
    else Leaf(t.frame, SafeFlags(t.flags) + 1, false)
  }

  // Two pages have the same indices at levels lvl down to stop.
  predicate SamePath(lvl: nat, stop: nat, vp: nat, vp2: nat) {
    lvl < stop || (Idx(lvl, vp) == Idx(lvl, vp2) && (lvl == 0 || SamePath(lvl - 1, stop, vp, vp2)))
  }

  // The page table (and all it maps) that a 2MiB mapping replaces without freeing it
  function Shadow(n: Node, lvl: nat, vp: nat, large: bool): set<Own> {
    if !large || !n.Dir? || lvl < 2 then {}
    else if lvl == 2 then Fp(n)
    else ShadowIn(n.kids, lvl - 1, vp, large)
  }

  function ShadowIn(kids: seq<Node>, lvl: nat, vp: nat, large: bool): set<Own> {
    if Idx(lvl, vp) < |kids| then Shadow(kids[Idx(lvl, vp)], lvl, vp, large) else {}
  }

  // The pages of the mapping are found where it says, all others where they were.
  ghost predicate Rebound(kids: seq<Node>, kids': seq<Node>, lvl: nat, vp: nat, t: Target) {
    forall vp2 :: FindIn(kids', lvl, vp2) ==
      (if SamePath(lvl, Stop(t), vp, vp2) then At(t, vp2) else FindIn(kids, lvl, vp2))
  }

  // The flags of the tables on the way to where a mapping goes: those that are there, and those of the new ones
  function Way(kids: seq<Node>, lvl: nat, vp: nat, t: Target): seq<Word>
    decreases lvl
  {
    if lvl <= Stop(t) then []
    else if Idx(lvl, vp) < |kids| && kids[Idx(lvl, vp)].Dir? then
      [kids[Idx(lvl, vp)].flags] + Way(kids[Idx(lvl, vp)].kids, lvl - 1, vp, t)
    else [TableFlags(t.flags)] + Way([], lvl - 1, vp, t)
  }

  // The pages of the mapping are reached that way; for all others the tables that were there keep their flags.
  ghost predicate Repathed(kids: seq<Node>, kids': seq<Node>, lvl: nat, vp: nat, t: Target) {
    forall vp2 :: PathAfter(kids, kids', lvl, vp, t, vp2)
  }

  ghost predicate PathAfter(kids: seq<Node>, kids': seq<Node>, lvl: nat, vp: nat, t: Target, vp2: nat) {
    if SamePath(lvl, Stop(t), vp, vp2) then Path(kids', lvl, vp2) == Way(kids, lvl, vp, t)
    else
      && Path(kids, lvl, vp2) <= Path(kids', lvl, vp2)
      && (FindIn(kids, lvl, vp2).Leaf? ==> Path(kids', lvl, vp2) == Path(kids, lvl, vp2))
  }

  // An entry is as it was, or leads to a new, empty table with the flags asked for.
  predicate EnsuredNode(n: Node, n1: Node, flags: Word) {
    n1 == n || (n.Absent? && n1.Dir? && n1.flags == TableFlags(flags) && AllAbsent(n1.kids))
  }

  predicate AllAbsent(kids: seq<Node>) {
    forall i :: 0 <= i < |kids| ==> kids[i].Absent?
  }

  // The mapping has been made below a table: it found its place and every other page is found as before; the
  // frames grown became tables; memory changed only in tables of this part.
  ghost predicate Bound(ram: Ram, owned: set<Own>, ram': Ram, owned': set<Own>,
                        table: nat, lvl: nat, vp: nat, t: Target, grown: set<Own>) {
    && table in ram && Part(ram', owned', table, lvl)
    && grown !! owned && owned' == owned + grown
    && var kids, kids' := TableKids(ram, table, lvl), TableKids(ram', table, lvl);
    && Fps(kids') == Fps(kids) - ShadowIn(kids, lvl, vp, t.large) + grown + {Handle(t)}
    && Unchanged(ram, ram', owned - ({Page(table)} + TablesIn(kids)))
    && ram'[table][Width(lvl)..] == ram[table][Width(lvl)..]
    && Rebound(kids, kids', lvl, vp, t) && Repathed(kids, kids', lvl, vp, t)
  }

  // Entry i of the table leads to a table, and nothing is found differently.
  ghost predicate Ensured(ram: Ram, owned: set<Own>, ram1: Ram, owned1: set<Own>, table: nat, lvl: nat, i: nat,
      grown: set<Own>, flags: Word) {
    && table in ram && Part(ram1, owned1, table, lvl) && i < Width(lvl)
    && grown !! owned && owned1 == owned + grown
    && Present(ram1[table][i]) && !(lvl == 2 && Large(ram1[table][i]))
    && var kids, kids1 := TableKids(ram, table, lvl), TableKids(ram1, table, lvl);
    && kids1 == kids[i := kids1[i]] && EnsuredNode(kids[i], kids1[i], flags)
    && Fp(kids1[i]) == Fp(kids[i]) + grown && Tables(kids1[i]) <= Tables(kids[i]) + grown
    && (lvl > 2 ==> forall vp, large :: Shadow(kids1[i], lvl, vp, large) == Shadow(kids[i], lvl, vp, large))
    && (forall vp :: Find(kids1[i], lvl, vp) == Find(kids[i], lvl, vp))
    && Unchanged(ram, ram1, owned - {Page(table)})
    && ram1[table][Width(lvl)..] == ram[table][Width(lvl)..]
  }

  lemma AlreadyEnsured(ram: Ram, owned: set<Own>, table: nat, lvl: nat, i: nat, flags: Word)
    requires Part(ram, owned, table, lvl) && i < Width(lvl)
    requires Present(ram[table][i]) && !(lvl == 2 && Large(ram[table][i]))
    ensures Ensured(ram, owned, ram, owned, table, lvl, i, {}, flags)
  {
    hide Tree, Fp, Tables, ProperKids, Present, Large;
  }

  // An empty table maps nothing.
  lemma EmptyTable(ram: Ram, ws: seq<Word>, lvl: nat)
    requires forall i :: 0 <= i < |ws| ==> ws[i] == 0
    ensures var kids := Kids(ram, ws, lvl);
      && Fps(kids) == {} && TablesIn(kids) == {} && ProperKids(kids)
      && (forall vp :: FindIn(kids, lvl, vp) == NoLeaf)
      && (forall vp, large :: ShadowIn(kids, lvl, vp, large) == {}) && AllAbsent(kids)
  {
    Fields(0);
    hide Present, Large, Idx, LeafFrame, TableFrame, CopyFlags;
    var kids := Kids(ram, ws, lvl);
    assert forall i :: 0 <= i < |kids| ==> kids[i] == Absent;
  }

  // A fresh, cleared table is hung into a free entry.
  lemma NewEnsured(ram: Ram, owned: set<Own>, ram1: Ram, owned1: set<Own>, ram3: Ram, table: nat, lvl: nat, i: nat,
      t: nat, flags: Word)
    requires Part(ram, owned, table, lvl) && i < Width(lvl) && 2 <= lvl <= 4 && !Present(ram[table][i])
    requires Unchanged(ram, ram1, owned) && !Held(owned, t) && t in ram1 && owned1 == owned + {Page(t)} &&
      Sound(ram1, owned1)
    requires table in ram1 && table != t
    requires var ram2 := ram1[t := seq(512, _ => 0)];
      ram3 == ram2[table := ram2[table][i := NewTableEntry(t, flags)]]
    ensures Ensured(ram, owned, ram3, owned1, table, lvl, i, {Page(t)}, flags)
  {
    hide *;
    var w := NewTableEntry(t, flags);
    PartParts(ram, owned, table, lvl);
    var kids := TableKids(ram, table, lvl);
    NewTableKids(ram, owned, ram1, owned1, ram3, table, lvl, i, t, w);
    SoundFrame(ram1, owned1, t);
    NewNode(ram3, lvl, t, flags);
    AbsentNode(ram, table, lvl, i);
    var n := Tree(ram3, w, lvl);
    NotHeld(owned, t);
    ReplaceFps(kids, i, n);
    ReplaceProper(kids, i, n);
    PartMade(ram3, owned1, table, lvl);
    EnsuredMade(ram, owned, ram3, owned1, table, lvl, i, n, {Page(t)}, flags);
  }

  lemma NotHeld(owned: set<Own>, t: nat)
    requires !Held(owned, t)
    ensures Page(t) !in owned
  {
  }

  lemma SoundFrame(ram: Ram, owned: set<Own>, f: nat)
    requires Sound(ram, owned) && Page(f) in owned
    ensures f < MAX_FRAMES
  {
  }

  lemma NewNode(ram: Ram, lvl: nat, t: nat, flags: Word)
    requires t in ram && ram[t] == seq(512, _ => 0) && t < MAX_FRAMES && 2 <= lvl
    ensures var w := NewTableEntry(t, flags); var n := Tree(ram, w, lvl);
      && Present(w) && !Large(w) && Fp(n) == {Page(t)} && Tables(n) == {Page(t)} && Proper(n)
      && (forall vp :: Find(n, lvl, vp) == NoLeaf)
      && (lvl > 2 ==> forall vp, large :: Shadow(n, lvl, vp, large) == {}) && EnsuredNode(Absent, n, flags)
  {
    NewTable(t, flags);
    EmptyTable(ram, ram[t], lvl - 1);
    hide Present, Large, TableFrame, CopyFlags, LeafFrame, NewTableEntry, Kids, Idx, TableFlags, AllAbsent;
  }

  lemma AbsentNode(ram: Ram, table: nat, lvl: nat, i: nat)
    requires table in ram && i < Width(lvl) && !Present(ram[table][i])
    ensures TableKids(ram, table, lvl)[i] == Absent
  {
    hide Present;
  }

  lemma EnsuredMade(ram: Ram, owned: set<Own>, ram1: Ram, owned1: set<Own>, table: nat, lvl: nat, i: nat, n: Node,
      grown: set<Own>, flags: Word)
    requires table in ram && table in ram1 && Part(ram1, owned1, table, lvl) && i < Width(lvl)
    requires grown !! owned && owned1 == owned + grown
    requires TableKids(ram, table, lvl)[i] == Absent &&
      TableKids(ram1, table, lvl) == TableKids(ram, table, lvl)[i := n]
    requires exists w :: ram1[table] == ram[table][i := w] && Present(w) && !Large(w)
    requires Fp(n) == grown && Tables(n) == grown && EnsuredNode(Absent, n, flags)
    requires forall vp :: Find(n, lvl, vp) == NoLeaf
    requires lvl > 2 ==> forall vp, large :: Shadow(n, lvl, vp, large) == {}
    requires Unchanged(ram, ram1, owned - {Page(table)})
    ensures Ensured(ram, owned, ram1, owned1, table, lvl, i, grown, flags)
  {
    hide Present, Large, TableKids, Part, Unchanged, EnsuredNode;
    assert Fp(Absent) == {} && Tables(Absent) == {};
    assert ram1[table][Width(lvl)..] == ram[table][Width(lvl)..];
  }

  lemma PartParts(ram: Ram, owned: set<Own>, table: nat, lvl: nat)
    requires Part(ram, owned, table, lvl)
    ensures table in ram && Page(table) in owned
    ensures var kids := TableKids(ram, table, lvl); ProperKids(kids) && Fps(kids) <= owned && Page(table) !in Fps(kids)
  {
  }

  lemma PartMade(ram: Ram, owned: set<Own>, table: nat, lvl: nat)
    requires table in ram && Page(table) in owned
    requires var kids := TableKids(ram, table, lvl); ProperKids(kids) && Fps(kids) <= owned && Page(table) !in Fps(kids)
    ensures Part(ram, owned, table, lvl)
  {
  }

  lemma SoundKeys(ram: Ram, ram': Ram, owned: set<Own>)
    requires Sound(ram, owned) && ram'.Keys == ram.Keys
    ensures Sound(ram', owned)
  {
    assert forall f :: f in ram <==> f in ram';
  }

  lemma NewTableKids(ram: Ram, owned: set<Own>, ram1: Ram, owned1: set<Own>, ram3: Ram, table: nat, lvl: nat, i: nat,
      t: nat, w: Word)
    requires Part(ram, owned, table, lvl) && i < Width(lvl) && lvl <= 4
    requires Unchanged(ram, ram1, owned) && !Held(owned, t) && t in ram1 && owned1 == owned + {Page(t)} &&
      Sound(ram1, owned1)
    requires table in ram1 && table != t
    requires var ram2 := ram1[t := seq(512, _ => 0)]; ram3 == ram2[table := ram2[table][i := w]]
    ensures table in ram3 && t in ram3 && ram3[t] == seq(512, _ => 0) && Page(table) in owned
    ensures TableKids(ram3, table, lvl) == TableKids(ram, table, lvl)[i := Tree(ram3, w, lvl)]
    ensures ram3[table] == ram[table][i := w]
    ensures Unchanged(ram, ram3, owned - {Page(table)})
  {
    hide Tree, Fps, Fp, ProperKids, TableKids;
    UnchangedPage(ram, ram1, owned, table);
    FillFresh(ram, ram1, owned, t, seq(512, _ => 0));
    var ram2 := ram1[t := seq(512, _ => 0)];
    assert Sound(ram2, owned1) by { assert ram2.Keys == ram1.Keys; SoundKeys(ram1, ram2, owned1); }
    StoreElsewhere(ram2, ram3, owned - {Page(table)}, owned1, table);
    UnchangedSub(ram, ram2, owned, owned - {Page(table)});
    hide Unchanged, Held, Sound;
    UnchangedTwice(ram, ram2, ram3, owned - {Page(table)}, owned - {Page(table)});
    SubtreeChange(ram, ram3, owned, table, lvl, i, w, {Page(table)});
  }

  // The leaf is stored.
  lemma BindLeaf(ram: Ram, owned: set<Own>, ram': Ram, table: nat, lvl: nat, vp: nat, t: Target, w: Word)
    requires Part(ram, owned, table, lvl) && Sound(ram, owned) && lvl == Stop(t) && Idx(lvl, vp) < Width(lvl)
    requires Handle(t) in owned && Handle(t) != Page(table) && Handle(t) !in Fps(TableKids(ram, table, lvl))
    requires Present(w) && LeafFrame(w) == t.frame && CopyFlags(w) == SafeFlags(t.flags) + 1 && (lvl == 2 ==> Large(w))
    requires var n := TableKids(ram, table, lvl)[Idx(lvl, vp)]; n.Absent? || (lvl == 2 && n.Dir?)
    requires ram' == ram[table := ram[table][Idx(lvl, vp) := w]]
    ensures Bound(ram, owned, ram', owned, table, lvl, vp, t, {})
  {
    hide *;
    PartParts(ram, owned, table, lvl);
    var kids := TableKids(ram, table, lvl);
    var i := Idx(lvl, vp);
    var n := Tree(ram', w, lvl);
    LeafNode(ram, ram', table, lvl, vp, t, w);
    LeafKids(ram, owned, ram', table, lvl, i, w);
    ReplaceFps(kids, i, n);
    ReplaceProper(kids, i, n);
    LeafFound(kids, i, n, lvl, vp, t);
    LeafPath(kids, i, n, lvl, vp, t);
    PartMade(ram', owned, table, lvl);
    BoundMade(ram, owned, ram', owned, table, lvl, vp, t, {});
  }

  lemma {:induction false} LeafFound(kids: seq<Node>, i: nat, n: Node, lvl: nat, vp: nat, t: Target)
    requires i < |kids| && (forall vp2 :: Find(n, lvl, vp2) == At(t, vp2))
    requires forall vp2 :: SamePath(lvl, Stop(t), vp, vp2) <==> Idx(lvl, vp2) == i
    ensures Rebound(kids, kids[i := n], lvl, vp, t)
  {
    hide Find, FindIn, SamePath, At, Idx;
    forall vp2 ensures FindIn(kids[i := n], lvl, vp2) ==
      (if SamePath(lvl, Stop(t), vp, vp2) then At(t, vp2) else FindIn(kids, lvl, vp2)) {
      ReplaceFind(kids, i, n, lvl, vp2);
    }
  }

  lemma LeafPath(kids: seq<Node>, i: nat, n: Node, lvl: nat, vp: nat, t: Target)
    requires i < |kids| && !n.Dir? && lvl == Stop(t)
    requires forall vp2 :: SamePath(lvl, Stop(t), vp, vp2) <==> Idx(lvl, vp2) == i
    ensures Repathed(kids, kids[i := n], lvl, vp, t)
  {
    hide Idx, SamePath, FindIn;
  }

  lemma LeafNode(ram: Ram, ram': Ram, table: nat, lvl: nat, vp: nat, t: Target, w: Word)
    requires table in ram && lvl == Stop(t)
    requires Present(w) && LeafFrame(w) == t.frame && CopyFlags(w) == SafeFlags(t.flags) + 1 && (lvl == 2 ==> Large(w))
    requires Idx(lvl, vp) < Width(lvl)
    requires var n := TableKids(ram, table, lvl)[Idx(lvl, vp)]; n.Absent? || (lvl == 2 && n.Dir?)
    ensures var n := Tree(ram', w, lvl);
      && Fp(n) == {Handle(t)} && Proper(n) && !n.Dir? && (forall vp2 :: Find(n, lvl, vp2) == At(t, vp2))
      && (forall vp2 :: SamePath(lvl, Stop(t), vp, vp2) <==> Idx(lvl, vp2) == Idx(lvl, vp))
      && ShadowIn(TableKids(ram, table, lvl), lvl, vp, t.large) == Fp(TableKids(ram, table, lvl)[Idx(lvl, vp)])
  {
    hide Present, Large, LeafFrame, CopyFlags, SafeFlags, TableFrame, Idx, TableKids;
  }

  lemma LeafKids(ram: Ram, owned: set<Own>, ram': Ram, table: nat, lvl: nat, i: nat, w: Word)
    requires Part(ram, owned, table, lvl) && Sound(ram, owned) && i < Width(lvl) &&
      ram' == ram[table := ram[table][i := w]]
    ensures table in ram' && ram'[table][Width(lvl)..] == ram[table][Width(lvl)..]
    ensures TableKids(ram', table, lvl) == TableKids(ram, table, lvl)[i := Tree(ram', w, lvl)]
    ensures Unchanged(ram, ram', owned - ({Page(table)} + TablesIn(TableKids(ram, table, lvl))))
  {
    hide Tree, Fp, Fps, TableKids, ProperKids, TablesIn;
    StoreElsewhere(ram, ram', owned - {Page(table)}, owned, table);
    hide Sound, Held;
    UnchangedSub(ram, ram', owned - {Page(table)}, owned - ({Page(table)} + TablesIn(TableKids(ram, table, lvl))));
    SubtreeChange(ram, ram', owned, table, lvl, i, w, {Page(table)});
  }

  lemma BoundMade(ram: Ram, owned: set<Own>, ram': Ram, owned': set<Own>,
                  table: nat, lvl: nat, vp: nat, t: Target, grown: set<Own>)
    requires table in ram && Part(ram', owned', table, lvl)
    requires grown !! owned && owned' == owned + grown
    requires table in ram'
    requires var kids, kids' := TableKids(ram, table, lvl), TableKids(ram', table, lvl);
      && Fps(kids') == Fps(kids) - ShadowIn(kids, lvl, vp, t.large) + grown + {Handle(t)}
      && Unchanged(ram, ram', owned - ({Page(table)} + TablesIn(kids)))
      && ram'[table][Width(lvl)..] == ram[table][Width(lvl)..]
      && Rebound(kids, kids', lvl, vp, t) && Repathed(kids, kids', lvl, vp, t)
    ensures Bound(ram, owned, ram', owned', table, lvl, vp, t, grown)
  {
    hide TableKids, Fps, ShadowIn, Rebound, Repathed, TablesIn, Part;
  }

  // The table an entry leads to, as a part of its own
  lemma SubPart(ram: Ram, owned: set<Own>, table: nat, lvl: nat, i: nat)
    requires Part(ram, owned, table, lvl) && i < Width(lvl) && 2 <= lvl <= 4 && Sound(ram, owned)
    requires Present(ram[table][i]) && !(lvl == 2 && Large(ram[table][i]))
    ensures var t := TableFrame(ram[table][i]); var n := TableKids(ram, table, lvl)[i];
      && Part(ram, owned, t, lvl - 1)
      && n == Dir(t, CopyFlags(ram[table][i]), TableKids(ram, t, lvl - 1))
      && Fp(n) == {Page(t)} + Fps(TableKids(ram, t, lvl - 1)) && Fp(n) <= Fps(TableKids(ram, table, lvl))
      && Tables(n) == {Page(t)} + TablesIn(TableKids(ram, t, lvl - 1)) &&
        Tables(n) <= TablesIn(TableKids(ram, table, lvl))
  {
    hide Present, Large, TableFrame, LeafFrame, CopyFlags;
    var e := ram[table][i];
    var t := TableFrame(e);
    var kids := TableKids(ram, table, lvl);
    assert kids[i] == Tree(ram, e, lvl);
    FpInFps(kids, i);
    assert Proper(kids[i]) && Page(t) in Fp(kids[i]);
    assert t in ram;
    assert ram[t][..512] == ram[t];
  }

  lemma {:induction false} ShadowInFp(n: Node, lvl: nat, vp: nat, large: bool)
    ensures Shadow(n, lvl, vp, large) <= Fp(n)
    decreases n
  {
    hide Idx;
    if large && n.Dir? && lvl > 2 {
      var i := Idx(lvl - 1, vp);
      if i < |n.kids| {
        ShadowInFp(n.kids[i], lvl - 1, vp, large);
        FpInFps(n.kids, i);
      }
    }
  }

  lemma ShadowInFps(kids: seq<Node>, lvl: nat, vp: nat, large: bool)
    ensures ShadowIn(kids, lvl, vp, large) <= Fps(kids)
  {
    hide Idx;
    if Idx(lvl, vp) < |kids| {
      ShadowInFp(kids[Idx(lvl, vp)], lvl, vp, large);
      FpInFps(kids, Idx(lvl, vp));
    }
  }

  // The part below a table after its sub-table t, reached through entry i, took the mapping
  lemma BindUpKids(ram1: Ram, owned1: set<Own>, ram2: Ram, owned2: set<Own>, table: nat, lvl: nat, vp: nat, t: Target,
      grown: set<Own>)
    requires Part(ram1, owned1, table, lvl) && 2 <= lvl <= 4 && Idx(lvl, vp) < Width(lvl) && Sound(ram1, owned1)
    requires Present(ram1[table][Idx(lvl, vp)]) && !(lvl == 2 && Large(ram1[table][Idx(lvl, vp)]))
    requires Bound(ram1, owned1, ram2, owned2, TableFrame(ram1[table][Idx(lvl, vp)]), lvl - 1, vp, t, grown)
    ensures var i := Idx(lvl, vp); var e := ram1[table][i]; var sub := TableFrame(e);
      && table in ram2 && ram2[table] == ram1[table] && sub in ram2
      && TableKids(ram2, table, lvl) == TableKids(ram1, table,
        lvl)[i := Dir(sub, CopyFlags(e), TableKids(ram2, sub, lvl - 1))]
  {
    hide *;
    PartParts(ram1, owned1, table, lvl);
    var i := Idx(lvl, vp);
    var e := ram1[table][i];
    var sub := TableFrame(e);
    var kids1 := TableKids(ram1, table, lvl);
    SubPart(ram1, owned1, table, lvl, i);
    BoundParts(ram1, owned1, ram2, owned2, sub, lvl - 1, vp, t, grown);
    var changed := {Page(sub)} + TablesIn(TableKids(ram1, sub, lvl - 1));
    TablesInFp(kids1[i]);
    UnchangedPage(ram1, ram2, owned1 - changed, table);
    SubtreeChange(ram1, ram2, owned1, table, lvl, i, e, changed);
    TreeOfTable(ram2, e, lvl);
  }

  lemma BoundParts(ram: Ram, owned: set<Own>, ram': Ram, owned': set<Own>, table: nat, lvl: nat, vp: nat, t: Target,
      grown: set<Own>)
    requires Bound(ram, owned, ram', owned', table, lvl, vp, t, grown)
    ensures table in ram && table in ram' && Part(ram', owned', table, lvl) && grown !! owned && owned' == owned + grown
    ensures var kids, kids' := TableKids(ram, table, lvl), TableKids(ram', table, lvl);
      && Fps(kids') == Fps(kids) - ShadowIn(kids, lvl, vp, t.large) + grown + {Handle(t)}
      && Unchanged(ram, ram', owned - ({Page(table)} + TablesIn(kids)))
      && ram'[table][Width(lvl)..] == ram[table][Width(lvl)..]
      && Rebound(kids, kids', lvl, vp, t) && Repathed(kids, kids', lvl, vp, t)
  {
    hide TableKids, Fps, ShadowIn, Rebound, Repathed, TablesIn, Part;
  }

  lemma TreeOfTable(ram: Ram, e: Word, lvl: nat)
    requires Present(e) && 2 <= lvl <= 4 && !(lvl == 2 && Large(e)) && TableFrame(e) in ram
    ensures Tree(ram, e, lvl) == Dir(TableFrame(e), CopyFlags(e), TableKids(ram, TableFrame(e), lvl - 1))
  {
    hide Present, Large, TableFrame, LeafFrame, CopyFlags;
    assert ram[TableFrame(e)][..512] == ram[TableFrame(e)];
  }

  // The sets: what the part is made of after the mapping
  lemma {:induction false} BindUpSets(kids: seq<Node>, kids1: seq<Node>, i: nat, sub1: seq<Node>, sub2: seq<Node>,
      s: nat, flags: Word,
                   shadow: set<Own>, g1: set<Own>, g2: set<Own>, h: Own, owned: set<Own>)
    requires ProperKids(kids) && ProperKids(kids1) && i < |kids| == |kids1| && kids1 == kids[i := kids1[i]]
    requires kids1[i] == Dir(s, flags, sub1) && Fp(kids1[i]) == Fp(kids[i]) + g1
    requires Fps(kids) <= owned && g1 !! owned && g2 !! owned + g1 && h in owned && h !in Fps(kids)
    requires shadow <= Fp(kids[i]) && shadow <= Fps(sub1)
    requires Fps(sub2) == Fps(sub1) - shadow + g2 + {h} && Page(s) !in Fps(sub2) && ProperKids(sub2)
    ensures var kids2 := kids1[i := Dir(s, flags, sub2)];
      && ProperKids(kids2) && Fps(kids2) == Fps(kids) - shadow + (g1 + g2) + {h}
  {
    var n2 := Dir(s, flags, sub2);
    DirFacts(s, flags, sub2);
    DirFacts(s, flags, sub1);
    assert Page(s) !in Fps(sub1) by { assert Proper(kids1[i]); }
    FpInFps(kids, i);
    hide *;
    ReplaceFps(kids, i, kids1[i]);
    ReplaceFps(kids1, i, n2);
    SetsUp(Fps(kids), Fp(kids[i]), Fps(kids1), Fp(kids1[i]), Fps(sub1), Fps(sub2), Fp(n2), Page(s), shadow, g1, g2, h,
      owned);
    ReplaceProper(kids1, i, n2);
  }

  lemma DirFacts(s: nat, flags: Word, kids: seq<Node>)
    ensures Fp(Dir(s, flags, kids)) == {Page(s)} + Fps(kids)
    ensures Page(s) !in Fps(kids) && ProperKids(kids) ==> Proper(Dir(s, flags, kids))
  {
  }

  lemma SetsUp(all: set<Own>, at: set<Own>, all1: set<Own>, at1: set<Own>, sub1: set<Own>, sub2: set<Own>,
      at2: set<Own>,
               s: Own, shadow: set<Own>, g1: set<Own>, g2: set<Own>, h: Own, owned: set<Own>)
    requires at <= all <= owned && at1 == at + g1 && all1 == all - at + at1 && at1 == {s} + sub1 && s !in sub1
    requires g1 !! owned && g2 !! owned + g1 && h in owned && h !in all && shadow <= at && shadow <= sub1
    requires sub2 == sub1 - shadow + g2 + {h} && at2 == {s} + sub2
    ensures all1 - at1 + at2 == all - shadow + (g1 + g2) + {h}
    ensures at2 !! all1 - at1
  {
  }

  lemma {:induction false} BindUpFind(kids: seq<Node>, kids1: seq<Node>, i: nat, sub1: seq<Node>, sub2: seq<Node>,
      s: nat, flags: Word,
                   lvl: nat, vp: nat, t: Target)
    requires i < |kids| == |kids1| && kids1 == kids[i := kids1[i]] && i == Idx(lvl, vp) && lvl > Stop(t)
    requires kids1[i] == Dir(s, flags, sub1)
    requires forall vp2 :: Find(kids1[i], lvl, vp2) == Find(kids[i], lvl, vp2)
    requires Rebound(sub1, sub2, lvl - 1, vp, t)
    ensures Rebound(kids, kids1[i := Dir(s, flags, sub2)], lvl, vp, t)
  {
    var n2 := Dir(s, flags, sub2);
    hide Idx, At;
    forall vp2 ensures FindIn(kids1[i := n2], lvl, vp2)
      == (if SamePath(lvl, Stop(t), vp, vp2) then At(t, vp2) else FindIn(kids, lvl, vp2))
    {
      ReplaceFind(kids1, i, n2, lvl, vp2);
      ReplaceFind(kids, i, kids1[i], lvl, vp2);
      assert Find(n2, lvl, vp2) == FindIn(sub2, lvl - 1, vp2) && Find(kids1[i], lvl, vp2) == FindIn(sub1, lvl - 1, vp2);
      assert SamePath(lvl, Stop(t), vp, vp2) <==> Idx(lvl, vp2) == i && SamePath(lvl - 1, Stop(t), vp, vp2);
    }
  }

  // Paths, one level up
  lemma {:induction false} BindUpPath(kids: seq<Node>, kids1: seq<Node>, i: nat, sub1: seq<Node>, sub2: seq<Node>,
      s: nat, flags: Word, lvl: nat, vp: nat, t: Target)
    requires i < |kids| == |kids1| && kids1 == kids[i := kids1[i]] && i == Idx(lvl, vp) && lvl > Stop(t)
    requires kids1[i] == Dir(s, flags, sub1) && EnsuredNode(kids[i], kids1[i], t.flags)
    requires forall vp2 :: Find(kids1[i], lvl, vp2) == Find(kids[i], lvl, vp2)
    requires Repathed(sub1, sub2, lvl - 1, vp, t)
    ensures Repathed(kids, kids1[i := Dir(s, flags, sub2)], lvl, vp, t)
  {
    var kids2 := kids1[i := Dir(s, flags, sub2)];
    forall vp2 ensures PathAfter(kids, kids2, lvl, vp, t, vp2) {
      assert SamePath(lvl, Stop(t), vp, vp2) <==> Idx(lvl, vp2) == i && SamePath(lvl - 1, Stop(t), vp, vp2);
      if Idx(lvl, vp2) == i {
        assert PathAfter(sub1, sub2, lvl - 1, vp, t, vp2);
        PathUp(kids, kids2, i, sub1, sub2, s, flags, lvl, vp, t, vp2);
      } else {
        PathBeside(kids, kids2, i, lvl, vp2);
      }
    }
  }

  lemma PathBeside(kids: seq<Node>, kids2: seq<Node>, i: nat, lvl: nat, vp2: nat)
    requires i < |kids| == |kids2| && kids2 == kids[i := kids2[i]] && Idx(lvl, vp2) != i
    ensures Path(kids2, lvl, vp2) == Path(kids, lvl, vp2)
  {
    hide Idx;
  }

  lemma {:induction false} PathUp(kids: seq<Node>, kids2: seq<Node>, i: nat, sub1: seq<Node>, sub2: seq<Node>, s: nat,
      flags: Word, lvl: nat, vp: nat, t: Target, vp2: nat)
    requires i < |kids| == |kids2| && kids2[i] == Dir(s, flags, sub2) && i == Idx(lvl, vp) == Idx(lvl, vp2)
    requires lvl > Stop(t) && EnsuredNode(kids[i], Dir(s, flags, sub1), t.flags)
    requires Find(Dir(s, flags, sub1), lvl, vp2) == Find(kids[i], lvl, vp2)
    requires SamePath(lvl, Stop(t), vp, vp2) <==> SamePath(lvl - 1, Stop(t), vp, vp2)
    requires PathAfter(sub1, sub2, lvl - 1, vp, t, vp2)
    ensures PathAfter(kids, kids2, lvl, vp, t, vp2)
  {
    hide Idx, SamePath, TableFlags;
    assert Path(kids2, lvl, vp2) == [flags] + Path(sub2, lvl - 1, vp2);
    if kids[i].Absent? {
      WayEmpty(sub1, lvl - 1, vp, t);
    } else {
      assert Path(kids, lvl, vp2) == [flags] + Path(sub1, lvl - 1, vp2);
    }
  }

  lemma WayEmpty(kids: seq<Node>, lvl: nat, vp: nat, t: Target)
    requires AllAbsent(kids)
    ensures Way(kids, lvl, vp, t) == Way([], lvl, vp, t)
  {
    hide Idx, TableFlags;
  }

  lemma EnsuredParts(ram: Ram, owned: set<Own>, ram1: Ram, owned1: set<Own>, table: nat, lvl: nat, i: nat,
      grown: set<Own>, flags: Word)
    requires Ensured(ram, owned, ram1, owned1, table, lvl, i, grown, flags)
    ensures table in ram && Part(ram1, owned1, table, lvl) && table in ram1 && i < Width(lvl)
    ensures grown !! owned && owned1 == owned + grown
    ensures Present(ram1[table][i]) && !(lvl == 2 && Large(ram1[table][i]))
    ensures var kids, kids1 := TableKids(ram, table, lvl), TableKids(ram1, table, lvl);
      && kids1 == kids[i := kids1[i]] && EnsuredNode(kids[i], kids1[i], flags)
      && Fp(kids1[i]) == Fp(kids[i]) + grown && Tables(kids1[i]) <= Tables(kids[i]) + grown
      && (lvl > 2 ==> forall vp, large :: Shadow(kids1[i], lvl, vp, large) == Shadow(kids[i], lvl, vp, large))
      && (forall vp :: Find(kids1[i], lvl, vp) == Find(kids[i], lvl, vp))
      && Unchanged(ram, ram1, owned - {Page(table)})
      && ram1[table][Width(lvl)..] == ram[table][Width(lvl)..]
  {
    hide Present, Large, EnsuredNode;
  }

  lemma {:induction false} ShadowStep(kids: seq<Node>, kids1: seq<Node>, lvl: nat, vp: nat, t: Target, s: nat,
      flags: Word, sub1: seq<Node>)
    requires |kids| == |kids1| && Idx(lvl, vp) < |kids| && lvl > Stop(t) && kids1[Idx(lvl, vp)] == Dir(s, flags, sub1)
    requires var i := Idx(lvl, vp);
      lvl > 2 ==> forall vp, large :: Shadow(kids1[i], lvl, vp, large) == Shadow(kids[i], lvl, vp, large)
    ensures ShadowIn(kids, lvl, vp, t.large) == ShadowIn(sub1, lvl - 1, vp, t.large)
    ensures ShadowIn(kids, lvl, vp, t.large) <= Fp(kids[Idx(lvl, vp)])
  {
    hide Idx;
    ShadowInFp(kids[Idx(lvl, vp)], lvl, vp, t.large);
    if t.large {
      assert Shadow(kids1[Idx(lvl, vp)], lvl, vp, true) == ShadowIn(sub1, lvl - 1, vp, true);
    } else {
      NoShadow(sub1, lvl - 1, vp);
      NoShadow(kids, lvl, vp);
    }
  }

  lemma NoShadow(kids: seq<Node>, lvl: nat, vp: nat)
    ensures ShadowIn(kids, lvl, vp, false) == {}
  {
    hide Idx;
  }

  lemma UpMemory(ram: Ram, owned: set<Own>, ram1: Ram, owned1: set<Own>, ram2: Ram, table: Own, tables: set<Own>,
      at: set<Own>, at1: set<Own>, g: set<Own>)
    requires Unchanged(ram, ram1, owned - {table}) && Unchanged(ram1, ram2, owned1 - at1)
    requires at1 <= at + g && at <= tables && g !! owned && owned <= owned1
    ensures Unchanged(ram, ram2, owned - ({table} + tables))
  {
    hide Unchanged, Held;
    UnchangedSub(ram, ram1, owned - {table}, owned - ({table} + tables));
    UnchangedSub(ram1, ram2, owned1 - at1, owned - ({table} + tables));
    UnchangedTwice(ram, ram1, ram2, owned - ({table} + tables), owned - ({table} + tables));
  }

  // From a mapping below the sub-table to a mapping below the table
  lemma BindUp(ram: Ram, owned: set<Own>, ram1: Ram, owned1: set<Own>, ram2: Ram, owned2: set<Own>,
               table: nat, lvl: nat, vp: nat, t: Target, g1: set<Own>, g2: set<Own>)
    requires Part(ram, owned, table, lvl) && Stop(t) < lvl <= 4 && Idx(lvl, vp) < Width(lvl)
    requires Ensured(ram, owned, ram1, owned1, table, lvl, Idx(lvl, vp), g1, t.flags) && Sound(ram1, owned1)
    requires Bound(ram1, owned1, ram2, owned2, TableFrame(ram1[table][Idx(lvl, vp)]), lvl - 1, vp, t, g2)
    requires Handle(t) in owned && Handle(t) != Page(table) && Handle(t) !in Fps(TableKids(ram, table, lvl))
    ensures Bound(ram, owned, ram2, owned2, table, lvl, vp, t, g1 + g2)
  {
    hide *;
    var i := Idx(lvl, vp);
    StopPositive(t);
    EnsuredParts(ram, owned, ram1, owned1, table, lvl, i, g1, t.flags);
    var s := TableFrame(ram1[table][i]);
    PartParts(ram, owned, table, lvl);
    PartParts(ram1, owned1, table, lvl);
    SubPart(ram1, owned1, table, lvl, i);
    BoundParts(ram1, owned1, ram2, owned2, s, lvl - 1, vp, t, g2);
    PartParts(ram2, owned2, s, lvl - 1);
    var kids, kids1 := TableKids(ram, table, lvl), TableKids(ram1, table, lvl);
    var sub1, sub2 := TableKids(ram1, s, lvl - 1), TableKids(ram2, s, lvl - 1);
    var flags := CopyFlags(ram1[table][i]);
    BindUpKids(ram1, owned1, ram2, owned2, table, lvl, vp, t, g2);
    ShadowStep(kids, kids1, lvl, vp, t, s, flags, sub1);
    ShadowInFps(sub1, lvl - 1, vp, t.large);
    BindUpSets(kids, kids1, i, sub1, sub2, s, flags, ShadowIn(kids, lvl, vp, t.large), g1, g2, Handle(t), owned);
    BindUpFind(kids, kids1, i, sub1, sub2, s, flags, lvl, vp, t);
    BindUpPath(kids, kids1, i, sub1, sub2, s, flags, lvl, vp, t);
    TablesInAt(kids, i);
    UpMemory(ram, owned, ram1, owned1, ram2, Page(table), TablesIn(kids), Tables(kids[i]), Tables(kids1[i]), g1);
    BoundSets(ram2, owned, owned1, owned2, table, lvl, g1, g2, Fps(kids), ShadowIn(kids, lvl, vp, t.large), Handle(t));
    BoundMade(ram, owned, ram2, owned2, table, lvl, vp, t, g1 + g2);
  }

  lemma StopPositive(t: Target)
    ensures Stop(t) == if t.large then 2 else 1
  {
  }

  lemma TablesInAt(kids: seq<Node>, i: nat)
    requires i < |kids|
    ensures Tables(kids[i]) <= TablesIn(kids)
  {
  }

  lemma BoundSets(ram2: Ram, owned: set<Own>, owned1: set<Own>, owned2: set<Own>, table: nat, lvl: nat,
                  g1: set<Own>, g2: set<Own>, all: set<Own>, shadow: set<Own>, h: Own)
    requires g1 !! owned && owned1 == owned + g1 && g2 !! owned1 && owned2 == owned1 + g2
    requires table in ram2 && Page(table) in owned && Page(table) !in all && all <= owned && h in owned &&
      h != Page(table)
    requires var kids2 := TableKids(ram2, table, lvl); ProperKids(kids2) && Fps(kids2) == all - shadow + (g1 + g2) + {h}
    ensures g1 + g2 !! owned && owned2 == owned + (g1 + g2) && Part(ram2, owned2, table, lvl)
  {
    hide TableKids, ProperKids, Fps;
  }

  // ---------------------------------------------------------------------------------------------
  // virt_map_phys

  // NoMemory and AlreadyMapped are panics.
  datatype MapResult = Mapped | NoMemory | AlreadyMapped

  // Something of at least the requested size is mapped there already.
  predicate Taken(kids: seq<Node>, lvl: nat, vp: nat, large: bool) {
    FindIn(kids, lvl, vp).Leaf? && (large ==> FindIn(kids, lvl, vp).large)
  }

  // The block that appears three times: allocate and clear a table when the entry has none
  method EnsureTable(mem: PhysMem, table: nat, lvl: nat, i: nat, flags: Word) returns (ok: bool, ghost grown: set<Own>)
    requires mem.Valid() && Part(mem.ram, mem.book.owned, table, lvl) && 2 <= lvl <= 4 && i < Width(lvl)
    requires lvl == 2 ==> !(Present(mem.ram[table][i]) && Large(mem.ram[table][i]))
    modifies mem
    ensures mem.Valid() && (!ok ==> mem.book.chunks == [])
    ensures ok ==> Ensured(old(mem.ram), old(mem.book.owned), mem.ram, mem.book.owned, table, lvl, i, grown, flags)
  {
    hide *;
    hide NewTableEntry;
    ghost var ram := mem.ram;
    ghost var owned := mem.book.owned;
    PartParts(ram, owned, table, lvl);
    WidthBound(lvl);
    grown := {};
    if Present(mem.ram[table][i]) {
      AlreadyEnsured(ram, owned, table, lvl, i, flags);
      return true, {};
    }
    var t;
    ok, t := mem.Alloc4Kib();
    if !ok { return; }
    ghost var ram1 := mem.ram;
    mem.OwnedInRam();
    OldAndNew(ram, owned, ram1, mem.book.owned, table, t);
    mem.ClientFill(t, seq(512, _ => 0));
    mem.ClientStore(table, i, NewTableEntry(t, flags));
    grown := {Page(t)};
    NewEnsured(ram, owned, ram1, mem.book.owned, mem.ram, table, lvl, i, t, flags);
  }

  lemma WidthBound(lvl: nat)
    ensures Width(lvl) <= 512
  {
  }

  lemma OldAndNew(ram: Ram, owned: set<Own>, ram1: Ram, owned1: set<Own>, table: nat, t: nat)
    requires Unchanged(ram, ram1, owned) && table in ram && Page(table) in owned
    requires !Held(owned, t) && owned1 == owned + {Page(t)}
    ensures table in ram1 && table != t && Held(owned1, table) && Held(owned1, t)
  {
  }

  method MapAt(mem: PhysMem, table: nat, lvl: nat, vp: nat, t: Target) returns (r: MapResult, ghost grown: set<Own>)
    requires mem.Valid() && Part(mem.ram, mem.book.owned, table, lvl) && Stop(t) <= lvl <= 4 &&
      Idx(lvl, vp) < Width(lvl)
    requires Handle(t) in mem.book.owned && Handle(t) != Page(table) &&
      Handle(t) !in Fps(TableKids(mem.ram, table, lvl))
    modifies mem
    ensures mem.Valid()
    ensures r.Mapped? ==> Bound(old(mem.ram), old(mem.book.owned), mem.ram, mem.book.owned, table, lvl, vp, t, grown)
    ensures r.Mapped? ==> !Taken(TableKids(old(mem.ram), table, lvl), lvl, vp, t.large)
    ensures r.AlreadyMapped? ==> Taken(TableKids(old(mem.ram), table, lvl), lvl, vp, t.large)
    ensures r.NoMemory? ==> mem.book.chunks == []
    decreases lvl
  {
    hide *;
    ghost var ram := mem.ram;
    ghost var owned := mem.book.owned;
    var i := Idx(lvl, vp);
    StopPositive(t);
    WidthBound(lvl);
    PartParts(ram, owned, table, lvl);
    mem.OwnedInRam();
    LeafHere(ram, table, lvl, vp, t.large);
    grown := {};
    if lvl <= 2 && Present(mem.ram[table][i]) && (lvl == 1 || Large(mem.ram[table][i])) {
      return AlreadyMapped, {};
    }
    if lvl == Stop(t) {
      LeafWord(ram, owned, t);
      HeldPage(owned, table);
      var w := if t.large then LargeEntry(t.frame, t.flags) else SmallEntry(t.frame, t.flags);
      mem.ClientStore(table, i, w);
      BindLeaf(ram, owned, mem.ram, table, lvl, vp, t, w);
      return Mapped, {};
    }
    var ok;
    ghost var g1, g2;
    ok, g1 := EnsureTable(mem, table, lvl, i, t.flags);
    if !ok {
      return NoMemory, {};
    }
    ghost var ram1 := mem.ram;
    ghost var owned1 := mem.book.owned;
    EnsuredParts(ram, owned, ram1, owned1, table, lvl, i, g1, t.flags);
    mem.OwnedInRam();
    var sub := TableFrame(mem.ram[table][i]);
    SubPart(ram1, owned1, table, lvl, i);
    Descend(ram, owned, ram1, owned1, table, lvl, vp, t, g1);
    r, g2 := MapAt(mem, sub, lvl - 1, vp, t);
    if r.Mapped? {
      BindUp(ram, owned, ram1, owned1, mem.ram, mem.book.owned, table, lvl, vp, t, g1, g2);
      grown := g1 + g2;
    }
  }

  // What the checks for an existing mapping see
  lemma LeafHere(ram: Ram, table: nat, lvl: nat, vp: nat, large: bool)
    requires table in ram && Idx(lvl, vp) < Width(lvl) && 1 <= lvl <= 4 && (large ==> lvl >= 2)
    ensures var e := ram[table][Idx(lvl, vp)];
      var n := TableKids(ram, table, lvl)[Idx(lvl, vp)]; var kids := TableKids(ram, table, lvl);
      && (lvl <= 2 && Present(e) && (lvl == 1 || Large(e)) ==> Taken(kids, lvl, vp, large))
      && (lvl == 2 && large && !(Present(e) && Large(e)) ==> !Taken(kids, lvl, vp, large) && (n.Absent? || n.Dir?))
      && (lvl == 1 && !Present(e) ==> !Taken(kids, lvl, vp, large) && n.Absent?)
  {
    hide Present, Large, LeafFrame, TableFrame, CopyFlags, Idx;
    var e := ram[table][Idx(lvl, vp)];
    var kids := TableKids(ram, table, lvl);
    var n := Tree(ram, e, lvl);
    assert kids[Idx(lvl, vp)] == n;
    assert FindIn(kids, lvl, vp) == Find(n, lvl, vp);
    if n.Dir? && lvl == 2 {
      assert Find(n, lvl, vp) == FindIn(n.kids, 1, vp);
      if TableFrame(e) in ram {
        NotLargeBelow(ram, ram[TableFrame(e)], vp);
      }
    }
  }

  lemma NotLargeBelow(ram: Ram, ws: seq<Word>, vp: nat)
    ensures !FindIn(Kids(ram, ws, 1), 1, vp).Leaf? || !FindIn(Kids(ram, ws, 1), 1, vp).large
  {
    hide Present, Large, LeafFrame, TableFrame, CopyFlags, Idx;
  }

  lemma LeafWord(ram: Ram, owned: set<Own>, t: Target)
    requires Sound(ram, owned) && Handle(t) in owned
    ensures var w := if t.large then LargeEntry(t.frame, t.flags) else SmallEntry(t.frame, t.flags);
      Present(w) && LeafFrame(w) == t.frame && CopyFlags(w) == SafeFlags(t.flags) + 1 && (t.large ==> Large(w))
    ensures Stop(t) == (if t.large then 2 else 1)
  {
    hide Present, Large, LeafFrame, CopyFlags, SafeFlags, LargeEntry, SmallEntry;
    assert t.large ==> t.frame in ram;
    assert t.frame < MAX_FRAMES;
    SmallLeaf(t.frame, t.flags);
    LargeLeaf(t.frame, t.flags);
  }

  lemma Descend(ram: Ram, owned: set<Own>, ram1: Ram, owned1: set<Own>, table: nat, lvl: nat, vp: nat, t: Target,
      g: set<Own>)
    requires Part(ram, owned, table, lvl) && Idx(lvl, vp) < Width(lvl) && 2 <= lvl <= 4
    requires Ensured(ram, owned, ram1, owned1, table, lvl, Idx(lvl, vp), g, t.flags) && Sound(ram1, owned1)
    requires Handle(t) in owned && Handle(t) !in Fps(TableKids(ram, table, lvl))
    ensures table in ram1
    ensures var s := TableFrame(ram1[table][Idx(lvl, vp)]);
      && s in ram1 && Handle(t) in owned1 && Handle(t) != Page(s) && Handle(t) !in Fps(TableKids(ram1, s, lvl - 1))
      && Idx(lvl - 1, vp) < Width(lvl - 1)
      && (Taken(TableKids(ram1, s, lvl - 1), lvl - 1, vp, t.large) <==>
        Taken(TableKids(ram, table, lvl), lvl, vp, t.large))
  {
    hide *;
    var i := Idx(lvl, vp);
    EnsuredParts(ram, owned, ram1, owned1, table, lvl, i, g, t.flags);
    PartParts(ram, owned, table, lvl);
    SubPart(ram1, owned1, table, lvl, i);
    var s := TableFrame(ram1[table][i]);
    PartParts(ram1, owned1, s, lvl - 1);
    var kids, kids1 := TableKids(ram, table, lvl), TableKids(ram1, table, lvl);
    FpInFps(kids, i);
    IdxBound(lvl - 1, vp);
    TakenBelow(kids, kids1, lvl, vp, t.large, s, CopyFlags(ram1[table][i]), TableKids(ram1, s, lvl - 1));
  }

  lemma IdxBound(lvl: nat, vp: nat)
    requires lvl < 4
    ensures Idx(lvl, vp) < Width(lvl)
  {
    hide Idx;
  }

  lemma {:induction false} TakenBelow(kids: seq<Node>, kids1: seq<Node>, lvl: nat, vp: nat, large: bool, s: nat,
      flags: Word, sub: seq<Node>)
    requires |kids| == |kids1| && Idx(lvl, vp) < |kids| && lvl > 0 && kids1[Idx(lvl, vp)] == Dir(s, flags, sub)
    requires forall v :: Find(kids1[Idx(lvl, vp)], lvl, v) == Find(kids[Idx(lvl, vp)], lvl, v)
    ensures Taken(sub, lvl - 1, vp, large) <==> Taken(kids, lvl, vp, large)
  {
    hide Idx;
    assert Find(kids1[Idx(lvl, vp)], lvl, vp) == FindIn(sub, lvl - 1, vp);
  }

  // ---------------------------------------------------------------------------------------------
  // What a mapping allows

  // The tables that are there already on the way to a mapping
  function OldWay(kids: seq<Node>, lvl: nat, vp: nat, t: Target): seq<Word>
    decreases lvl
  {
    if lvl > Stop(t) && Idx(lvl, vp) < |kids| && kids[Idx(lvl, vp)].Dir? then
      [kids[Idx(lvl, vp)].flags] + OldWay(kids[Idx(lvl, vp)].kids, lvl - 1, vp, t)
    else []
  }

  // They are the first tables of the walk there.
  lemma {:induction false} OldWayIs(kids: seq<Node>, lvl: nat, vp: nat, t: Target)
    ensures var path := Path(kids, lvl, vp);
      OldWay(kids, lvl, vp, t) == if lvl - Stop(t) < |path| then path[..Max(lvl - Stop(t))] else path
    ensures OldWay(kids, lvl, vp, t) <= Way(kids, lvl, vp, t)
    decreases lvl
  {
    hide Idx, TableFlags;
    if lvl > Stop(t) && Idx(lvl, vp) < |kids| && kids[Idx(lvl, vp)].Dir? {
      OldWayIs(kids[Idx(lvl, vp)].kids, lvl - 1, vp, t);
    }
  }

  function Max(k: int): nat {
    if k < 0 then 0 else k
  }

  // A page that has just been mapped may be used as was asked for, as far as the tables that were there before allow
  // it: the new ones do not restrict it.
  lemma {:induction false} WayAllows(kids: seq<Node>, lvl: nat, vp: nat, t: Target)
    ensures Both(PathAllows(Way(kids, lvl, vp, t)), Allowed(t.flags)) ==
      Both(PathAllows(OldWay(kids, lvl, vp, t)), Allowed(t.flags))
    decreases lvl
  {
    hide Idx, TableFlags, Allowed;
    if lvl > Stop(t) {
      if Idx(lvl, vp) < |kids| && kids[Idx(lvl, vp)].Dir? {
        WayAllows(kids[Idx(lvl, vp)].kids, lvl - 1, vp, t);
      } else {
        AllowedFlags(t.flags);
        WayAllows([], lvl - 1, vp, t);
        assert OldWay([], lvl - 1, vp, t) == [];
      }
    }
  }
}
