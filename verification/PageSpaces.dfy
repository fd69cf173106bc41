// Address spaces side by side: what every operation of paging.c keeps, over any run.
module PageSpaces {
  import opened Lists
  import opened Words
  import opened Entries
  import opened PhysBook
  import opened PhysAlloc
  import opened PageTree
  import opened PageClone
  import opened PageCleanup
  import opened PageMap
  import opened PageUnmap

  // User space has 2^35 pages.
  const USER_PAGES: nat := 0x8_0000_0000

  // What user code sees at a page: its words, the flags of its entry, and those of the entries that lead there
  datatype PageView = NoPage | PageView(words: Frame, flags: Word, large: bool, path: seq<Word>)

  function View(ram: Ram, root: nat, vp: nat): PageView
    requires root in ram
  {
    var l := FindIn(UserKids(ram, root), 4, vp);
    if l.Leaf? && l.frame in ram then
      PageView(ram[l.frame], l.flags, l.large, Path(UserKids(ram, root), 4, vp))
    else NoPage
  }

  // What user code may do with it
  function Permitted(v: PageView): Permission {
    if v.NoPage? then Permission(false, false, false) else Both(PathAllows(v.path), Allowed(v.flags))
  }

  // All live address spaces: each is sound, and no two share a table or a page.
  ghost predicate AllSpaces(ram: Ram, owned: set<Own>, spaces: set<nat>) {
    && (forall r :: r in spaces ==> Space(ram, owned, r))
    && (forall r, s :: r in spaces && s in spaces && r != s ==> SpaceFp(ram, r) !! SpaceFp(ram, s))
  }

  lemma SpaceIsPart(ram: Ram, owned: set<Own>, root: nat)
    ensures Space(ram, owned, root) <==> Part(ram, owned, root, 4)
    ensures root in ram ==> TableKids(ram, root, 4) == UserKids(ram, root)
  {
    hide Tree, Fps, ProperKids, Kids;
  }

  lemma SpaceFpIs(ram: Ram, owned: set<Own>, root: nat)
    requires Space(ram, owned, root)
    ensures root in ram && Page(root) in owned && SpaceFp(ram, root) == Fps(UserKids(ram, root)) + {Page(root)}
    ensures SpaceFp(ram, root) <= owned && Page(root) !in Fps(UserKids(ram, root)) && ProperKids(UserKids(ram, root))
  {
    hide UserKids, Fps, ProperKids;
  }

  // A leaf that is found belongs to the footprint.
  lemma {:induction false} LeafInFp(n: Node, lvl: nat, vp: nat)
    requires Find(n, lvl, vp).Leaf?
    ensures var l := Find(n, lvl, vp);
      && LeafOwn(l, vp) in Fp(n) && (l.large ==> vp % 512 <= l.frame)
      && (Proper(n) ==> LeafOwn(l, vp) !in Tables(n))
    decreases n
  {
    hide Idx;
    if n.Dir? {
      LeafInFps(n.kids, lvl - 1, vp);
    }
  }

  lemma {:induction false} LeafInFps(kids: seq<Node>, lvl: nat, vp: nat)
    requires FindIn(kids, lvl, vp).Leaf?
    ensures var l := FindIn(kids, lvl, vp);
      && LeafOwn(l, vp) in Fps(kids) && (l.large ==> vp % 512 <= l.frame)
      && (ProperKids(kids) ==> LeafOwn(l, vp) !in TablesIn(kids))
    decreases kids
  {
    hide Idx, LeafOwn;
    var i := Idx(lvl, vp);
    var l := FindIn(kids, lvl, vp);
    LeafInFp(kids[i], lvl, vp);
    FpInFps(kids, i);
    if ProperKids(kids) {
      forall j | 0 <= j < |kids| ensures LeafOwn(l, vp) !in Tables(kids[j]) {
        TablesInFp(kids[j]);
        if j != i { SiblingApart(kids, j, i); }
      }
    }
  }

  // The frame of a found leaf is memory its space holds.
  lemma LeafHeld(s: set<Own>, l: Leaf, vp: nat)
    requires l.Leaf? && LeafOwn(l, vp) in s && Aligned(s) && (l.large ==> vp % 512 <= l.frame)
    ensures Held(s, l.frame)
  {
    if l.large { ChunkOfUnique(l.frame - vp % 512, l.frame); }
  }

  // Memory a space does not hold may change at will.
  lemma SpaceKept(ram: Ram, owned: set<Own>, ram': Ram, owned': set<Own>, r: nat)
    requires Space(ram, owned, r) && Sound(ram, owned)
    requires Unchanged(ram, ram', SpaceFp(ram, r)) && SpaceFp(ram, r) <= owned'
    ensures Space(ram', owned', r) && UserKids(ram', r) == UserKids(ram, r) && SpaceFp(ram', r) == SpaceFp(ram, r)
    ensures forall vp :: View(ram', r, vp) == View(ram, r, vp)
    ensures ram'[r] == ram[r]
  {
    SpaceFpIs(ram, owned, r);
    hide Tree, Fp, Fps, ProperKids, Kids, FindIn, Tables, TablesIn;
    var kids := UserKids(ram, r);
    UnchangedPage(ram, ram', SpaceFp(ram, r), r);
    TablesInFps(kids);
    UnchangedSub(ram, ram', SpaceFp(ram, r), TablesIn(kids));
    KidsFrame(ram, ram', ram[r][..256], 4);
    assert Aligned(SpaceFp(ram, r));
    hide Sound, Space, UserKids;
    forall vp ensures View(ram', r, vp) == View(ram, r, vp) {
      var l := FindIn(kids, 4, vp);
      if l.Leaf? {
        LeafInFps(kids, 4, vp);
        LeafHeld(SpaceFp(ram, r), l, vp);
      }
    }
  }

  // ---------------------------------------------------------------------------------------------
  // One frame, one page

  // Small pages sit at level 1, large ones at level 2.
  ghost predicate Levelled(n: Node, lvl: nat) {
    && (n.Small? ==> lvl == 1) && (n.Big? ==> lvl == 2)
    && (n.Dir? ==> lvl >= 2 && LevelledKids(n.kids, lvl - 1))
  }

  ghost predicate LevelledKids(kids: seq<Node>, lvl: nat) {
    forall i :: 0 <= i < |kids| ==> Levelled(kids[i], lvl)
  }

  lemma {:induction false} TreeLevelled(ram: Ram, w: Word, lvl: nat)
    ensures Levelled(Tree(ram, w, lvl), lvl)
    decreases lvl
  {
    hide Present, Large, LeafFrame, TableFrame, CopyFlags;
    var n := Tree(ram, w, lvl);
    if n.Dir? && n.frame in ram {
      forall i | 0 <= i < |n.kids| ensures Levelled(n.kids[i], lvl - 1) {
        TreeLevelled(ram, ram[n.frame][i], lvl - 1);
      }
    }
  }

  // Two pages of a part that share a frame are the same page.
  lemma {:induction false} SameLeaf(kids: seq<Node>, lvl: nat, vp: nat, vp2: nat)
    requires ProperKids(kids) && LevelledKids(kids, lvl)
    requires FindIn(kids, lvl, vp).Leaf? && FindIn(kids, lvl, vp2).Leaf?
    requires LeafOwn(FindIn(kids, lvl, vp), vp) == LeafOwn(FindIn(kids, lvl, vp2), vp2)
    ensures SamePath(lvl, if FindIn(kids, lvl, vp).large then 2 else 1, vp, vp2)
    ensures FindIn(kids, lvl, vp).large == FindIn(kids, lvl, vp2).large
    decreases kids
  {
    var i, j := Idx(lvl, vp), Idx(lvl, vp2);
    SameEntry(kids, lvl, vp, vp2);
    hide Idx, LeafOwn;
    assert Levelled(kids[i], lvl) && Proper(kids[i]);
    if kids[i].Dir? {
      assert FindIn(kids, lvl, vp) == FindIn(kids[i].kids, lvl - 1, vp);
      assert FindIn(kids, lvl, vp2) == FindIn(kids[i].kids, lvl - 1, vp2);
      SameLeaf(kids[i].kids, lvl - 1, vp, vp2);
      LargeLevel(kids[i].kids, lvl - 1, vp);
    } else {
      var stop := if FindIn(kids, lvl, vp).large then 2 else 1;
      assert stop == lvl && !(SamePath(lvl - 1, stop, vp, vp2) == false);
    }
  }

  lemma SameEntry(kids: seq<Node>, lvl: nat, vp: nat, vp2: nat)
    requires ProperKids(kids) && FindIn(kids, lvl, vp).Leaf? && FindIn(kids, lvl, vp2).Leaf?
    requires LeafOwn(FindIn(kids, lvl, vp), vp) == LeafOwn(FindIn(kids, lvl, vp2), vp2)
    ensures Idx(lvl, vp) == Idx(lvl, vp2) < |kids|
  {
    hide Idx, LeafOwn, ProperKids;
    var i, j := Idx(lvl, vp), Idx(lvl, vp2);
    LeafInFp(kids[i], lvl, vp);
    LeafInFp(kids[j], lvl, vp2);
    if i != j {
      SiblingApart(kids, i, j);
    }
  }

  lemma {:induction false} LargeLevel(kids: seq<Node>, lvl: nat, vp: nat)
    requires LevelledKids(kids, lvl)
    ensures FindIn(kids, lvl, vp).Leaf? ==> lvl >= (if FindIn(kids, lvl, vp).large then 2 else 1)
    decreases kids
  {
    hide Idx;
    var i := Idx(lvl, vp);
    if i < |kids| && kids[i].Dir? {
      LargeLevel(kids[i].kids, lvl - 1, vp);
    }
  }

  // The indices of a user page determine it; those down to level 2 determine its 2MiB region.
  lemma PathUnique(vp: nat, vp2: nat)
    requires vp < USER_PAGES && vp2 < USER_PAGES
    ensures SamePath(4, 1, vp, vp2) <==> vp == vp2
    ensures SamePath(4, 2, vp, vp2) <==> vp / 512 == vp2 / 512
  {
    hide Idx;
    assert SamePath(4, 2, vp, vp2) <==> Idx(4, vp) == Idx(4, vp2) && SamePath(3, 2, vp, vp2);
    assert SamePath(3, 2, vp, vp2) <==> Idx(3, vp) == Idx(3, vp2) && SamePath(2, 2, vp, vp2);
    assert SamePath(2, 2, vp, vp2) <==> Idx(2, vp) == Idx(2, vp2);
    assert SamePath(4, 1, vp, vp2) <==> Idx(4, vp) == Idx(4, vp2) && SamePath(3, 1, vp, vp2);
    assert SamePath(3, 1, vp, vp2) <==> Idx(3, vp) == Idx(3, vp2) && SamePath(2, 1, vp, vp2);
    assert SamePath(2, 1, vp, vp2) <==> Idx(2, vp) == Idx(2, vp2) && SamePath(1, 1, vp, vp2);
    assert SamePath(1, 1, vp, vp2) <==> Idx(1, vp) == Idx(1, vp2);
    hide SamePath, Idx;
    Digits(vp);
    Digits(vp2);
  }

  lemma Digits(vp: nat)
    requires vp < USER_PAGES
    ensures vp / 512 == Idx(4, vp) * 0x4_0000 + Idx(3, vp) * 0x200 + Idx(2, vp) && vp % 512 == Idx(1, vp)
    ensures Idx(4, vp) < 256
  {
    var a, b := vp / 0x200, vp / 0x4_0000;
    assert vp == 512 * a + vp % 512 && a == 512 * b + a % 512 && b == 512 * (vp / 0x800_0000) + b % 512;
  }

  // No frame shows up twice: two pages, of one address space or of two, that are found in the same frame are the
  // same page of the same space.
  lemma OneFrameOnePage(ram: Ram, owned: set<Own>, spaces: set<nat>, r: nat, vp: nat, r2: nat, vp2: nat)
    requires AllSpaces(ram, owned, spaces) && Sound(ram, owned) && r in spaces && r2 in spaces
    requires vp < USER_PAGES && vp2 < USER_PAGES && r in ram && r2 in ram
    requires FindIn(UserKids(ram, r), 4, vp).Leaf? && FindIn(UserKids(ram, r2), 4, vp2).Leaf?
    requires FindIn(UserKids(ram, r), 4, vp).frame == FindIn(UserKids(ram, r2), 4, vp2).frame
    ensures r == r2 && vp == vp2
  {
    hide UserKids, FindIn, LeafOwn, SpaceFp, Fps, ProperKids, SamePath;
    SpaceFpIs(ram, owned, r);
    SpaceFpIs(ram, owned, r2);
    var kids, kids2 := UserKids(ram, r), UserKids(ram, r2);
    var l, l2 := FindIn(kids, 4, vp), FindIn(kids2, 4, vp2);
    LeafInFps(kids, 4, vp);
    LeafInFps(kids2, 4, vp2);
    SameOwn(ram, owned, l, vp, l2, vp2);
    assert r == r2;
    hide Sound, AllSpaces;
    UserLevelled(ram, r);
    SameLeaf(kids, 4, vp, vp2);
    PathUnique(vp, vp2);
    SameInChunk(l, vp, l2, vp2);
  }

  lemma UserLevelled(ram: Ram, r: nat)
    requires r in ram
    ensures LevelledKids(UserKids(ram, r), 4)
  {
    hide Tree;
    forall i | 0 <= i < 256 ensures Levelled(UserKids(ram, r)[i], 4) {
      TreeLevelled(ram, ram[r][i], 4);
    }
  }

  lemma SameOwn(ram: Ram, owned: set<Own>, l: Leaf, vp: nat, l2: Leaf, vp2: nat)
    requires Sound(ram, owned) && l.Leaf? && l2.Leaf? && l.frame == l2.frame
    requires LeafOwn(l, vp) in owned && LeafOwn(l2, vp2) in owned
    requires (l.large ==> vp % 512 <= l.frame) && (l2.large ==> vp2 % 512 <= l2.frame)
    ensures LeafOwn(l, vp) == LeafOwn(l2, vp2) && l.large == l2.large
  {
    if l.large { ChunkOfUnique(l.frame - vp % 512, l.frame); }
    if l2.large { ChunkOfUnique(l2.frame - vp2 % 512, l2.frame); }
  }

  lemma SameInChunk(l: Leaf, vp: nat, l2: Leaf, vp2: nat)
    requires l.Leaf? && l2.Leaf? && l.frame == l2.frame && LeafOwn(l, vp) == LeafOwn(l2, vp2) && l.large == l2.large
    requires (l.large ==> vp % 512 <= l.frame && vp2 % 512 <= l2.frame)
    requires l.large ==> vp / 512 == vp2 / 512
    requires !l.large ==> vp == vp2
    ensures vp == vp2
  {
  }

  // ---------------------------------------------------------------------------------------------
  // What the operations keep

  // Address spaces whose memory has not been touched are as they were.
  ghost predicate Untouched(ram: Ram, ram': Ram, others: set<nat>) {
    forall r :: r in others ==> (
      && r in ram && r in ram' && ram'[r] == ram[r]
      && UserKids(ram', r) == UserKids(ram, r) && SpaceFp(ram', r) == SpaceFp(ram, r)
      && forall vp :: View(ram', r, vp) == View(ram, r, vp))
  }

  lemma OthersKept(ram: Ram, owned: set<Own>, ram': Ram, owned': set<Own>, spaces: set<nat>, others: set<nat>,
      kept: set<Own>)
    requires AllSpaces(ram, owned, spaces) && others <= spaces && Sound(ram, owned)
    requires Unchanged(ram, ram', kept) && kept <= owned'
    requires forall r :: r in others ==> r in ram && SpaceFp(ram, r) <= kept
    ensures AllSpaces(ram', owned', others) && Untouched(ram, ram', others)
  {
    hide SpaceFp, UserKids, View, Space, Sound, Unchanged;
    forall r | r in others
      ensures r in ram && r in ram' && ram'[r] == ram[r] && Space(ram', owned', r)
      ensures UserKids(ram', r) == UserKids(ram, r) && SpaceFp(ram', r) == SpaceFp(ram, r)
      ensures forall vp :: View(ram', r, vp) == View(ram, r, vp)
    {
      UnchangedSub(ram, ram', kept, SpaceFp(ram, r));
      SpaceKept(ram, owned, ram', owned', r);
      SpaceFpIs(ram, owned, r);
      SpaceFpIs(ram', owned', r);
    }
  }

  lemma SpaceAdded(ram: Ram, owned: set<Own>, spaces: set<nat>, r: nat)
    requires AllSpaces(ram, owned, spaces) && Space(ram, owned, r)
    requires forall s :: s in spaces && s != r ==> SpaceFp(ram, s) !! SpaceFp(ram, r)
    ensures AllSpaces(ram, owned, spaces + {r})
  {
    hide SpaceFp, UserKids, ProperKids;
  }

  lemma InSpaces(ram: Ram, owned: set<Own>, spaces: set<nat>, root: nat)
    requires AllSpaces(ram, owned, spaces) && root in spaces
    ensures Space(ram, owned, root) && root in ram
    ensures forall s :: s in spaces ==>
      s in ram && SpaceFp(ram, s) <= owned && (s != root ==> SpaceFp(ram, s) !! SpaceFp(ram, root))
  {
    hide SpaceFp;
    forall s | s in spaces ensures s in ram && SpaceFp(ram, s) <= owned {
      SpaceFpIs(ram, owned, s);
    }
  }

  // Cloning adds an address space that shows user code the same pages, and touches nothing else.
  lemma CloneKeeps(ram: Ram, owned: set<Own>, spaces: set<nat>, root: nat, ram': Ram, owned': set<Own>, copy: nat)
    requires AllSpaces(ram, owned, spaces) && root in spaces && Sound(ram, owned)
    requires SpaceCloned(ram, owned, root, ram', owned', copy)
    ensures AllSpaces(ram', owned', spaces + {copy}) && copy !in spaces && copy in ram'
    ensures Untouched(ram, ram', spaces)
    ensures SpaceFp(ram', copy) !! owned && owned' == owned + SpaceFp(ram', copy)
    ensures root in ram && forall vp :: View(ram', copy, vp) == View(ram, root, vp)
    ensures root in ram && ram'[copy][256..] == ram[root][256..]
  {
    InSpaces(ram, owned, spaces, root);
    hide SpaceFp, UserKids, Fps, ProperKids, AllSpaces, Sound, Untouched;
    OthersKept(ram, owned, ram', owned', spaces, spaces, owned);
    CloneSpace(ram, owned, root, ram', owned', copy);
    assert copy !in spaces by {
      if copy in spaces { InSpaces(ram, owned, spaces, copy); SpaceFpIs(ram, owned, copy); }
    }
    UntouchedFps(ram, ram', spaces);
    SpaceAdded(ram', owned', spaces, copy);
  }

  lemma UntouchedFps(ram: Ram, ram': Ram, others: set<nat>)
    requires Untouched(ram, ram', others)
    ensures forall r :: r in others ==> r in ram && r in ram' && SpaceFp(ram', r) == SpaceFp(ram, r)
  {
    hide SpaceFp, UserKids, View;
  }

  lemma CloneSpace(ram: Ram, owned: set<Own>, root: nat, ram': Ram, owned': set<Own>, copy: nat)
    requires SpaceCloned(ram, owned, root, ram', owned', copy)
    ensures Space(ram', owned', copy) && SpaceFp(ram', copy) !! owned && owned' == owned + SpaceFp(ram', copy)
    ensures forall vp :: View(ram', copy, vp) == View(ram, root, vp)
  {
    hide UserKids, Fps, ProperKids, Copied, FindIn, Path;
    forall vp ensures View(ram', copy, vp) == View(ram, root, vp) {
      CopiedPath(ram, UserKids(ram, root), ram', UserKids(ram', copy), 4, vp);
      CopiedKidsView(ram, UserKids(ram, root), ram', UserKids(ram', copy), 4, vp);
    }
  }

  lemma {:induction false} CopiedKidsView(ram: Ram, kids: seq<Node>, ram': Ram, kids': seq<Node>, lvl: nat, vp: nat)
    requires CopiedKids(ram, kids, ram', kids')
    ensures SameView(ram, FindIn(kids, lvl, vp), ram', FindIn(kids', lvl, vp))
  {
    hide Idx, Copied;
    var i := Idx(lvl, vp);
    if i < |kids| { CopiedView(ram, kids[i], ram', kids'[i], lvl, vp); }
  }

  // Cleanup removes an address space and frees what it was made of.
  lemma CleanupKeeps(ram: Ram, b: Book, spaces: set<nat>, root: nat, ram': Ram, b': Book)
    requires AllSpaces(ram, b.owned, spaces) && root in spaces && Sound(ram, b.owned)
    requires root in ram && Freed(ram, b, ram', b', SpaceFp(ram, root))
    ensures AllSpaces(ram', b'.owned, spaces - {root}) && Untouched(ram, ram', spaces - {root})
  {
    InSpaces(ram, b.owned, spaces, root);
    hide SpaceFp, UserKids, Fps, ProperKids, AllSpaces, Sound, Untouched;
    OthersKept(ram, b.owned, ram', b'.owned, spaces, spaces - {root}, b'.owned);
  }

  // Cleaning up a clone gives back exactly what cloning took.
  lemma CloneThenCleanup(ram: Ram, owned: set<Own>, root: nat, ram1: Ram, b1: Book, copy: nat, ram2: Ram, b2: Book)
    requires SpaceCloned(ram, owned, root, ram1, b1.owned, copy)
    requires Freed(ram1, b1, ram2, b2, SpaceFp(ram1, copy))
    ensures b2.owned == owned && Unchanged(ram, ram2, owned)
  {
    CloneSpace(ram, owned, root, ram1, b1.owned, copy);
    hide SpaceFp, UserKids, Fps, ProperKids, Copied, CopiedKids, View, Space, Held;
    UnchangedTwice(ram, ram1, ram2, owned, b2.owned);
  }

  // A page whose leaf stays keeps its contents when only tables of its space change.
  lemma ContentsKept(ram: Ram, ram': Ram, owned: set<Own>, gone: set<Own>, root: nat, vp: nat)
    requires Space(ram, owned, root) && Sound(ram, owned) && FindIn(UserKids(ram, root), 4, vp).Leaf?
    requires Unchanged(ram, ram', owned - gone - ({Page(root)} + TablesIn(UserKids(ram, root))))
    requires LeafOwn(FindIn(UserKids(ram, root), 4, vp), vp) !in gone
    ensures var f := FindIn(UserKids(ram, root), 4, vp).frame;
      (f in ram <==> f in ram') && (f in ram ==> ram'[f] == ram[f])
  {
    SpaceFpIs(ram, owned, root);
    hide SpaceFp, UserKids, Fps, ProperKids, FindIn, LeafOwn, TablesIn;
    var kids := UserKids(ram, root);
    var l := FindIn(kids, 4, vp);
    LeafInFps(kids, 4, vp);
    assert Aligned(owned);
    hide Sound;
    LeafHeld(owned - gone - ({Page(root)} + TablesIn(kids)), l, vp);
  }

  // Mapping a page: it shows the frame it was given, all other pages of all spaces stay as they were.
  lemma MapKeeps(ram: Ram, owned: set<Own>, spaces: set<nat>, root: nat, ram': Ram, owned': set<Own>, vp: nat,
      t: Target, grown: set<Own>)
    requires AllSpaces(ram, owned, spaces) && root in spaces && Sound(ram, owned) && vp < USER_PAGES && root in ram
    requires Handle(t) in owned && forall r :: r in spaces ==> r in ram && Handle(t) !in SpaceFp(ram, r)
    requires Bound(ram, owned, ram', owned', root, 4, vp, t, grown)
    ensures AllSpaces(ram', owned', spaces) && Untouched(ram, ram', spaces - {root})
    ensures root in ram' && ram'[root][256..] == ram[root][256..]
    ensures SpaceFp(ram', root) == SpaceFp(ram, root) - ShadowIn(UserKids(ram, root), 4, vp, t.large) + grown +
      {Handle(t)}
    ensures PageShown(ram, ram', root, vp, t)
  {
    hide *;
    InSpaces(ram, owned, spaces, root);
    var kids := UserKids(ram, root);
    SpaceFpIs(ram, owned, root);
    BoundParts(ram, owned, ram', owned', root, 4, vp, t, grown);
    SpaceIsPart(ram, owned, root);
    SpaceIsPart(ram', owned', root);
    SpaceFpIs(ram', owned', root);
    MapSets(ram, ram', owned, owned', spaces, root, vp, t, grown, kids);
    OthersKept(ram, owned, ram', owned', spaces, spaces - {root}, owned - ({Page(root)} + TablesIn(kids)));
    UntouchedFps(ram, ram', spaces - {root});
    RemoveAdd(spaces, root);
    SpaceAdded(ram', owned', spaces - {root}, root);
    WidthFour();
    ShownEverywhere(ram, owned, ram', root, vp, t);
  }

  // The pages of a mapping show the contents of its frame, all other pages what they showed before.
  ghost predicate PageShown(ram: Ram, ram': Ram, root: nat, vp: nat, t: Target) {
    && root in ram && root in ram'
    && forall vp2: nat :: vp2 < USER_PAGES ==>
      if Hit(t.large, vp, vp2) then
        FrameFor(t, vp2) in ram && View(ram', root, vp2) ==
          PageView(ram[FrameFor(t, vp2)], SafeFlags(t.flags) + 1, t.large, Way(UserKids(ram, root), 4, vp, t))
      else View(ram', root, vp2) == View(ram, root, vp2)
  }

  function FrameFor(t: Target, vp: nat): nat {
    if t.large then t.frame + vp % 512 else t.frame
  }

  lemma WidthFour()
    ensures Width(4) == 256
  {
  }

  lemma ShownEverywhere(ram: Ram, owned: set<Own>, ram': Ram, root: nat, vp: nat, t: Target)
    requires Space(ram, owned, root) && Sound(ram, owned) && vp < USER_PAGES && root in ram && root in ram'
    requires Rebound(UserKids(ram, root), UserKids(ram', root), 4, vp, t)
    requires Repathed(UserKids(ram, root), UserKids(ram', root), 4, vp, t)
    requires Unchanged(ram, ram', owned - ({Page(root)} + TablesIn(UserKids(ram, root))))
    requires Handle(t) in owned && Handle(t) !in SpaceFp(ram, root)
    ensures PageShown(ram, ram', root, vp, t)
  {
    hide Space, Sound, Rebound, Repathed, Way, UserKids, Unchanged, TablesIn, SpaceFp, View, SafeFlags, Hit;
    forall vp2: nat | vp2 < USER_PAGES ensures
      if Hit(t.large, vp, vp2) then
        FrameFor(t, vp2) in ram && View(ram', root, vp2) ==
          PageView(ram[FrameFor(t, vp2)], SafeFlags(t.flags) + 1, t.large, Way(UserKids(ram, root), 4, vp, t))
      else View(ram', root, vp2) == View(ram, root, vp2)
    {
      if Hit(t.large, vp, vp2) {
        MapHits(ram, owned, ram', root, vp, t, vp2);
      } else {
        MapMisses(ram, owned, ram', root, vp, t, vp2);
      }
    }
  }

  // The pages a mapping covers
  predicate Hit(large: bool, vp: nat, vp2: nat) {
    if large then vp / 512 == vp2 / 512 else vp == vp2
  }

  lemma MapSets(ram: Ram, ram': Ram, owned: set<Own>, owned': set<Own>, spaces: set<nat>, root: nat, vp: nat,
      t: Target, grown: set<Own>,
                kids: seq<Node>)
    requires AllSpaces(ram, owned, spaces) && root in spaces && root in ram && root in ram' &&
      kids == UserKids(ram, root)
    requires forall r :: r in spaces ==> (
      && r in ram && Handle(t) !in SpaceFp(ram, r) && SpaceFp(ram, r) <= owned &&
        (r != root ==> SpaceFp(ram, r) !! SpaceFp(ram, root)))
    requires grown !! owned && owned' == owned + grown && Page(root) !in Fps(kids)
    requires Fps(UserKids(ram', root)) == Fps(kids) - ShadowIn(kids, 4, vp, t.large) + grown + {Handle(t)}
    ensures SpaceFp(ram', root) == SpaceFp(ram, root) - ShadowIn(kids, 4, vp, t.large) + grown + {Handle(t)}
    ensures owned - ({Page(root)} + TablesIn(kids)) <= owned'
    ensures forall r :: r in spaces - {root} ==> (
      && r in ram && SpaceFp(ram, r) <= owned - ({Page(root)} + TablesIn(kids)) &&
        SpaceFp(ram, r) !! SpaceFp(ram', root))
  {
    ShadowInFps(kids, 4, vp, t.large);
    TablesInFps(kids);
    hide UserKids, ShadowIn, Handle, AllSpaces, TablesIn, Fps;
    assert SpaceFp(ram, root) == Fps(kids) + {Page(root)};
    assert SpaceFp(ram', root) == Fps(UserKids(ram', root)) + {Page(root)};
    hide SpaceFp;
  }

  lemma MapMisses(ram: Ram, owned: set<Own>, ram': Ram, root: nat, vp: nat, t: Target, vp2: nat)
    requires Space(ram, owned, root) && Sound(ram, owned) && vp < USER_PAGES && vp2 < USER_PAGES &&
      !Hit(t.large, vp, vp2)
    requires root in ram' && Rebound(UserKids(ram, root), UserKids(ram', root), 4, vp, t)
    requires Repathed(UserKids(ram, root), UserKids(ram', root), 4, vp, t)
    requires Unchanged(ram, ram', owned - ({Page(root)} + TablesIn(UserKids(ram, root))))
    ensures View(ram', root, vp2) == View(ram, root, vp2)
  {
    hide *;
    SpaceFpIs(ram, owned, root);
    HitPath(t.large, vp, vp2);
    StopIs(t);
    ReboundAt(UserKids(ram, root), UserKids(ram', root), 4, vp, t, vp2);
    RepathedAt(UserKids(ram, root), UserKids(ram', root), 4, vp, t, vp2);
    if FindIn(UserKids(ram, root), 4, vp2).Leaf? {
      assert owned - {} == owned;
      ContentsKept(ram, ram', owned, {}, root, vp2);
    }
    ViewKept(ram, ram', root, vp2);
  }

  lemma HitPath(large: bool, vp: nat, vp2: nat)
    requires vp < USER_PAGES && vp2 < USER_PAGES
    ensures Hit(large, vp, vp2) <==> SamePath(4, if large then 2 else 1, vp, vp2)
  {
    PathUnique(vp, vp2);
    hide SamePath;
  }

  lemma StopIs(t: Target)
    ensures Stop(t) == if t.large then 2 else 1
  {
  }

  lemma {:induction false} ReboundAt(kids: seq<Node>, kids': seq<Node>, lvl: nat, vp: nat, t: Target, vp2: nat)
    requires Rebound(kids, kids', lvl, vp, t)
    ensures FindIn(kids', lvl, vp2) == if SamePath(lvl, Stop(t), vp, vp2) then At(t, vp2) else FindIn(kids, lvl, vp2)
  {
    hide FindIn, At, SamePath, Stop;
  }

  lemma RepathedAt(kids: seq<Node>, kids': seq<Node>, lvl: nat, vp: nat, t: Target, vp2: nat)
    requires Repathed(kids, kids', lvl, vp, t)
    ensures SamePath(lvl, Stop(t), vp, vp2) ==> Path(kids', lvl, vp2) == Way(kids, lvl, vp, t)
    ensures !SamePath(lvl, Stop(t), vp, vp2) && FindIn(kids, lvl, vp2).Leaf? ==>
      Path(kids', lvl, vp2) == Path(kids, lvl, vp2)
    ensures !SamePath(lvl, Stop(t), vp, vp2) ==> Path(kids, lvl, vp2) <= Path(kids', lvl, vp2)
  {
    hide FindIn, Way, Path, SamePath, Stop;
    assert PathAfter(kids, kids', lvl, vp, t, vp2);
  }

  lemma ViewKept(ram: Ram, ram': Ram, root: nat, vp: nat)
    requires root in ram && root in ram' && FindIn(UserKids(ram', root), 4, vp) == FindIn(UserKids(ram, root), 4, vp)
    requires var l := FindIn(UserKids(ram, root), 4, vp);
      l.Leaf? ==> (l.frame in ram <==> l.frame in ram') && (l.frame in ram ==> ram'[l.frame] == ram[l.frame])
    requires FindIn(UserKids(ram, root), 4, vp).Leaf? ==>
      Path(UserKids(ram', root), 4, vp) == Path(UserKids(ram, root), 4, vp)
    ensures View(ram', root, vp) == View(ram, root, vp)
  {
    hide FindIn, UserKids, Path;
  }

  lemma ViewGone(ram: Ram, root: nat, vp: nat)
    requires root in ram && FindIn(UserKids(ram, root), 4, vp) == NoLeaf
    ensures View(ram, root, vp) == NoPage
  {
    hide FindIn, UserKids;
  }

  lemma MapHits(ram: Ram, owned: set<Own>, ram': Ram, root: nat, vp: nat, t: Target, vp2: nat)
    requires Space(ram, owned, root) && Sound(ram, owned) && vp < USER_PAGES && vp2 < USER_PAGES &&
      Hit(t.large, vp, vp2)
    requires root in ram' && Rebound(UserKids(ram, root), UserKids(ram', root), 4, vp, t)
    requires Repathed(UserKids(ram, root), UserKids(ram', root), 4, vp, t)
    requires Unchanged(ram, ram', owned - ({Page(root)} + TablesIn(UserKids(ram, root))))
    requires Handle(t) in owned && Handle(t) !in SpaceFp(ram, root)
    ensures var f := FrameFor(t, vp2);
      f in ram && View(ram', root, vp2) ==
        PageView(ram[f], SafeFlags(t.flags) + 1, t.large, Way(UserKids(ram, root), 4, vp, t))
  {
    assert root in ram;
    hide *;
    HitPath(t.large, vp, vp2);
    StopIs(t);
    RepathedAt(UserKids(ram, root), UserKids(ram', root), 4, vp, t, vp2);
    ReboundAt(UserKids(ram, root), UserKids(ram', root), 4, vp, t, vp2);
    MapFrame(ram, owned, root, t, vp2);
    MapFrameKept(ram, owned, ram', root, t, vp2);
    LeafView(ram', root, vp2, t);
  }

  lemma LeafView(ram: Ram, root: nat, vp: nat, t: Target)
    requires root in ram && FindIn(UserKids(ram, root), 4, vp) == At(t, vp) && FrameFor(t, vp) in ram
    ensures View(ram, root, vp) ==
      PageView(ram[FrameFor(t, vp)], SafeFlags(t.flags) + 1, t.large, Path(UserKids(ram, root), 4, vp))
  {
    hide UserKids, FindIn, SafeFlags, Path;
  }

  lemma MapFrame(ram: Ram, owned: set<Own>, root: nat, t: Target, vp: nat)
    requires Space(ram, owned, root) && Sound(ram, owned)
    requires Handle(t) in owned && Handle(t) !in SpaceFp(ram, root)
    ensures FrameFor(t, vp) in ram
    ensures Held(owned - ({Page(root)} + TablesIn(UserKids(ram, root))), FrameFor(t, vp))
  {
    var kept := owned - ({Page(root)} + TablesIn(UserKids(ram, root)));
    TablesInFps(UserKids(ram, root));
    assert Handle(t) in kept;
    hide UserKids, TablesIn, Fps;
    if t.large { HeldInChunk(kept, t.frame, FrameFor(t, vp)); }
  }

  lemma MapFrameKept(ram: Ram, owned: set<Own>, ram': Ram, root: nat, t: Target, vp: nat)
    requires root in ram && FrameFor(t, vp) in ram
    requires Held(owned - ({Page(root)} + TablesIn(UserKids(ram, root))), FrameFor(t, vp))
    requires Unchanged(ram, ram', owned - ({Page(root)} + TablesIn(UserKids(ram, root))))
    ensures FrameFor(t, vp) in ram' && ram'[FrameFor(t, vp)] == ram[FrameFor(t, vp)]
  {
    hide UserKids, TablesIn, Held, FrameFor;
  }

  // Unmapping a page: it is gone, all other pages of all spaces stay as they were.
  lemma UnmapKeeps(ram: Ram, owned: set<Own>, spaces: set<nat>, root: nat, ram': Ram, owned': set<Own>, vp: nat,
      h: Own, large: bool)
    requires AllSpaces(ram, owned, spaces) && root in spaces && Sound(ram, owned) && vp < USER_PAGES && root in ram
    requires FindIn(UserKids(ram, root), 4, vp).Leaf? && large == FindIn(UserKids(ram, root), 4, vp).large
    requires h == LeafOwn(FindIn(UserKids(ram, root), 4, vp), vp)
    requires Unbound(ram, owned, ram', owned', root, 4, vp, h, large)
    ensures AllSpaces(ram', owned', spaces) && Untouched(ram, ram', spaces - {root})
    ensures root in ram' && ram'[root][256..] == ram[root][256..] && SpaceFp(ram', root) == SpaceFp(ram, root) - {h}
    ensures PageHidden(ram, ram', root, vp, large)
  {
    hide *;
    InSpaces(ram, owned, spaces, root);
    var kids := UserKids(ram, root);
    SpaceFpIs(ram, owned, root);
    UnboundParts(ram, owned, ram', owned', root, 4, vp, h, large);
    SpaceIsPart(ram, owned, root);
    SpaceIsPart(ram', owned', root);
    SpaceFpIs(ram', owned', root);
    UnmapSets(ram, ram', owned, owned', spaces, root, h, kids);
    OthersKept(ram, owned, ram', owned', spaces, spaces - {root}, owned' - ({Page(root)} + TablesIn(kids)));
    UntouchedFps(ram, ram', spaces - {root});
    RemoveAdd(spaces, root);
    SpaceAdded(ram', owned', spaces - {root}, root);
    WidthFour();
    HiddenEverywhere(ram, owned, ram', root, vp, h, large);
  }

  // The pages of the mapping are gone, all other pages show what they showed before.
  ghost predicate PageHidden(ram: Ram, ram': Ram, root: nat, vp: nat, large: bool) {
    && root in ram && root in ram'
    && forall vp2: nat :: vp2 < USER_PAGES ==>
      View(ram', root, vp2) == if Hit(large, vp, vp2) then NoPage else View(ram, root, vp2)
  }

  lemma HiddenEverywhere(ram: Ram, owned: set<Own>, ram': Ram, root: nat, vp: nat, h: Own, large: bool)
    requires Space(ram, owned, root) && Sound(ram, owned) && vp < USER_PAGES && root in ram && root in ram'
    requires FindIn(UserKids(ram, root), 4, vp).Leaf? && large == FindIn(UserKids(ram, root), 4, vp).large
    requires h == LeafOwn(FindIn(UserKids(ram, root), 4, vp), vp)
    requires Unfound(UserKids(ram, root), UserKids(ram', root), 4, vp, large)
    requires SamePaths(UserKids(ram, root), UserKids(ram', root), 4)
    requires Unchanged(ram, ram', owned - {h} - ({Page(root)} + TablesIn(UserKids(ram, root))))
    ensures PageHidden(ram, ram', root, vp, large)
  {
    hide Space, Sound, Unfound, SamePaths, UserKids, Unchanged, TablesIn, View, Hit, FindIn, LeafOwn;
    forall vp2: nat | vp2 < USER_PAGES
      ensures View(ram', root, vp2) == if Hit(large, vp, vp2) then NoPage else View(ram, root, vp2)
    {
      UnmapView(ram, owned, ram', root, vp, h, large, vp2);
    }
  }

  lemma UnmapSets(ram: Ram, ram': Ram, owned: set<Own>, owned': set<Own>, spaces: set<nat>, root: nat, h: Own,
      kids: seq<Node>)
    requires AllSpaces(ram, owned, spaces) && root in spaces && root in ram && root in ram' &&
      kids == UserKids(ram, root)
    requires forall r :: r in spaces ==> (
      r in ram && SpaceFp(ram, r) <= owned && (r != root ==> SpaceFp(ram, r) !! SpaceFp(ram, root)))
    requires owned' == owned - {h} && h in Fps(kids) && Page(root) !in Fps(kids)
    requires Fps(UserKids(ram', root)) == Fps(kids) - {h}
    ensures SpaceFp(ram', root) == SpaceFp(ram, root) - {h}
    ensures forall r :: r in spaces - {root} ==> (
      && r in ram && SpaceFp(ram, r) <= owned' - ({Page(root)} + TablesIn(kids)) &&
        SpaceFp(ram, r) !! SpaceFp(ram', root))
  {
    TablesInFps(kids);
    hide UserKids, AllSpaces, TablesIn, Fps;
    assert SpaceFp(ram, root) == Fps(kids) + {Page(root)};
    assert SpaceFp(ram', root) == Fps(UserKids(ram', root)) + {Page(root)};
    hide SpaceFp;
  }

  lemma UnmapView(ram: Ram, owned: set<Own>, ram': Ram, root: nat, vp: nat, h: Own, large: bool, vp2: nat)
    requires Space(ram, owned, root) && Sound(ram, owned) && vp < USER_PAGES && vp2 < USER_PAGES
    requires FindIn(UserKids(ram, root), 4, vp).Leaf? && large == FindIn(UserKids(ram, root), 4, vp).large
    requires h == LeafOwn(FindIn(UserKids(ram, root), 4, vp), vp)
    requires root in ram' && Unfound(UserKids(ram, root), UserKids(ram', root), 4, vp, large)
    requires SamePaths(UserKids(ram, root), UserKids(ram', root), 4)
    requires Unchanged(ram, ram', owned - {h} - ({Page(root)} + TablesIn(UserKids(ram, root))))
    ensures View(ram', root, vp2) == if Hit(large, vp, vp2) then NoPage else View(ram, root, vp2)
  {
    hide *;
    SpaceFpIs(ram, owned, root);
    var kids := UserKids(ram, root);
    HitPath(large, vp, vp2);
    UnfoundAt(kids, UserKids(ram', root), 4, vp, large, vp2);
    SamePathAt(kids, UserKids(ram', root), 4, vp2);
    if Hit(large, vp, vp2) {
      ViewGone(ram', root, vp2);
    } else {
      if FindIn(kids, 4, vp2).Leaf? {
        OtherLeaf(ram, owned, root, vp, vp2, h, large);
        ContentsKept(ram, ram', owned, {h}, root, vp2);
      }
      ViewKept(ram, ram', root, vp2);
    }
  }

  lemma SamePathAt(kids: seq<Node>, kids': seq<Node>, lvl: nat, vp: nat)
    requires SamePaths(kids, kids', lvl)
    ensures Path(kids', lvl, vp) == Path(kids, lvl, vp)
  {
    hide Path;
  }

  lemma {:induction false} UnfoundAt(kids: seq<Node>, kids': seq<Node>, lvl: nat, vp: nat, large: bool, vp2: nat)
    requires Unfound(kids, kids', lvl, vp, large)
    ensures FindIn(kids', lvl, vp2) == if SamePath(lvl, if large then 2 else 1, vp, vp2) then NoLeaf
      else FindIn(kids, lvl, vp2)
  {
    hide FindIn, SamePath;
  }

  // Another mapping is made of something else.
  lemma OtherLeaf(ram: Ram, owned: set<Own>, root: nat, vp: nat, vp2: nat, h: Own, large: bool)
    requires Space(ram, owned, root) && vp < USER_PAGES && vp2 < USER_PAGES && root in ram && !Hit(large, vp, vp2)
    requires FindIn(UserKids(ram, root), 4, vp).Leaf? && large == FindIn(UserKids(ram, root), 4, vp).large
    requires h == LeafOwn(FindIn(UserKids(ram, root), 4, vp), vp) && FindIn(UserKids(ram, root), 4, vp2).Leaf?
    ensures LeafOwn(FindIn(UserKids(ram, root), 4, vp2), vp2) != h
  {
    hide *;
    SpaceFpIs(ram, owned, root);
    UserLevelled(ram, root);
    HitPath(large, vp, vp2);
    if LeafOwn(FindIn(UserKids(ram, root), 4, vp2), vp2) == h {
      SameLeaf(UserKids(ram, root), 4, vp, vp2);
    }
  }

  // Resetting an address space empties it and leaves the others alone.
  lemma ResetKeeps(ram: Ram, b: Book, spaces: set<nat>, root: nat, ram': Ram, b': Book)
    requires AllSpaces(ram, b.owned, spaces) && root in spaces && Sound(ram, b.owned)
    requires IsReset(ram, b, root, ram', b')
    ensures AllSpaces(ram', b'.owned, spaces) && Untouched(ram, ram', spaces - {root})
    ensures root in ram' && SpaceFp(ram', root) == {Page(root)} && forall vp :: View(ram', root, vp) == NoPage
  {
    InSpaces(ram, b.owned, spaces, root);
    SpaceFpIs(ram, b.owned, root);
    EmptyTable(ram', ram'[root][..256], 4);
    assert Space(ram', b'.owned, root);
    assert SpaceFp(ram', root) == {Page(root)};
    assert forall vp :: FindIn(UserKids(ram', root), 4, vp) == NoLeaf;
    ResetSets(ram, b, spaces, root, b');
    hide SpaceFp, UserKids, Fps, ProperKids, AllSpaces, Sound, Untouched, FindIn, Space;
    OthersKept(ram, b.owned, ram', b'.owned, spaces, spaces - {root}, b'.owned - {Page(root)});
    UntouchedFps(ram, ram', spaces - {root});
    RemoveAdd(spaces, root);
    SpaceAdded(ram', b'.owned, spaces - {root}, root);
  }

  lemma ResetSets(ram: Ram, b: Book, spaces: set<nat>, root: nat, b': Book)
    requires AllSpaces(ram, b.owned, spaces) && root in spaces && root in ram
    requires b'.owned == b.owned - Fps(UserKids(ram, root))
    ensures forall r :: r in spaces - {root} ==> (
      r in ram && SpaceFp(ram, r) <= b'.owned - {Page(root)} && Page(root) !in SpaceFp(ram, r))
  {
    InSpaces(ram, b.owned, spaces, root);
    hide UserKids, AllSpaces, Fps, Space;
    assert SpaceFp(ram, root) == Fps(UserKids(ram, root)) + {Page(root)};
    hide SpaceFp;
  }

  // ---------------------------------------------------------------------------------------------
  // User code stores through its own map

  // Word i of page vp of space root has become w; no other page of any space shows a difference.
  ghost predicate OnlyStored(ram: Ram, ram': Ram, spaces: set<nat>, root: nat, vp: nat, i: nat, w: Word) {
    forall r :: r in spaces ==> (
      && r in ram && r in ram'
      && forall vp2: nat :: vp2 < USER_PAGES ==>
           View(ram', r, vp2) == if r == root && vp2 == vp then StoredView(View(ram, r, vp2), i, w)
             else View(ram, r, vp2))
  }

  function StoredView(v: PageView, i: nat, w: Word): PageView {
    if v.PageView? && i < 512 then v.(words := v.words[i := w]) else v
  }

  lemma StoreOwn(ram: Ram, owned: set<Own>, kept: set<Own>, l: Leaf, vp: nat, ram': Ram)
    requires Sound(ram, owned) && l.Leaf? && LeafOwn(l, vp) in owned && (l.large ==> vp % 512 <= l.frame)
    requires kept == owned - {LeafOwn(l, vp)} && SameExcept(ram, ram', {l.frame})
    ensures Unchanged(ram, ram', kept) && Held(owned, l.frame)
  {
    if l.large { ChunkOfUnique(l.frame - vp % 512, l.frame); }
  }

  lemma StoreKeeps(ram: Ram, owned: set<Own>, spaces: set<nat>, root: nat, vp: nat, i: nat, w: Word, ram': Ram)
    requires AllSpaces(ram, owned, spaces) && root in spaces && Sound(ram, owned) && vp < USER_PAGES && i < 512 &&
      root in ram
    requires var l := FindIn(UserKids(ram, root), 4, vp);
      l.Leaf? && l.frame in ram && ram' == ram[l.frame := ram[l.frame][i := w]]
    ensures Held(owned, FindIn(UserKids(ram, root), 4, vp).frame)
    ensures AllSpaces(ram', owned, spaces) && OnlyStored(ram, ram', spaces, root, vp, i, w)
    ensures forall r :: r in spaces ==>
      r in ram && r in ram' && UserKids(ram', r) == UserKids(ram, r) && ram'[r] == ram[r]
  {
    hide *;
    InSpaces(ram, owned, spaces, root);
    SpaceFpIs(ram, owned, root);
    var kids := UserKids(ram, root);
    var l := FindIn(kids, 4, vp);
    LeafInFps(kids, 4, vp);
    var kept := owned - {LeafOwn(l, vp)};
    OneStore(ram, l.frame, i, w);
    StoreOwn(ram, owned, kept, l, vp, ram');
    StoreSets(ram, owned, spaces, root, LeafOwn(l, vp), kids);
    OthersKept(ram, owned, ram', owned, spaces, spaces - {root}, kept);
    RootKept(ram, owned, ram', root, kept);
    UntouchedKids(ram, ram', spaces - {root});
    RemoveAdd(spaces, root);
    SpaceAdded(ram', owned, spaces - {root}, root);
    StoreViews(ram, owned, spaces, root, vp, i, w, ram');
  }

  lemma OneStore(ram: Ram, f: nat, i: nat, w: Word)
    requires f in ram && i < 512
    ensures SameExcept(ram, ram[f := ram[f][i := w]], {f})
  {
  }

  lemma StoreSets(ram: Ram, owned: set<Own>, spaces: set<nat>, root: nat, h: Own, kids: seq<Node>)
    requires AllSpaces(ram, owned, spaces) && root in spaces && root in ram && kids == UserKids(ram, root)
    requires h in Fps(kids) && h !in TablesIn(kids) && Page(root) !in Fps(kids)
    ensures forall r :: r in spaces - {root} ==>
      r in ram && SpaceFp(ram, r) <= owned - {h} && SpaceFp(ram, r) !! SpaceFp(ram, root)
    ensures {Page(root)} + TablesIn(kids) <= owned - {h}
  {
    InSpaces(ram, owned, spaces, root);
    TablesInFps(kids);
    SpaceFpIs(ram, owned, root);
    hide UserKids, AllSpaces, Fps, Space, TablesIn, SpaceFp;
  }

  lemma RootKept(ram: Ram, owned: set<Own>, ram': Ram, root: nat, kept: set<Own>)
    requires Space(ram, owned, root) && Unchanged(ram, ram', kept) && root in ram
    requires {Page(root)} + TablesIn(UserKids(ram, root)) <= kept
    ensures Space(ram', owned, root) && ram'[root] == ram[root] && UserKids(ram', root) == UserKids(ram, root)
    ensures SpaceFp(ram', root) == SpaceFp(ram, root)
  {
    hide Tree, Fps, ProperKids, Kids, TablesIn;
    UnchangedPage(ram, ram', kept, root);
    UnchangedSub(ram, ram', kept, TablesIn(UserKids(ram, root)));
    KidsFrame(ram, ram', ram[root][..256], 4);
  }

  lemma UntouchedKids(ram: Ram, ram': Ram, others: set<nat>)
    requires Untouched(ram, ram', others)
    ensures forall r :: r in others ==> (
      r in ram && r in ram' && SpaceFp(ram', r) == SpaceFp(ram, r) && UserKids(ram', r) == UserKids(ram, r) &&
        ram'[r] == ram[r])
  {
    hide SpaceFp, UserKids, View;
  }

  lemma StoreViews(ram: Ram, owned: set<Own>, spaces: set<nat>, root: nat, vp: nat, i: nat, w: Word, ram': Ram)
    requires AllSpaces(ram, owned, spaces) && root in spaces && Sound(ram, owned) && vp < USER_PAGES && i < 512 &&
      root in ram
    requires var l := FindIn(UserKids(ram, root), 4, vp);
      l.Leaf? && l.frame in ram && ram' == ram[l.frame := ram[l.frame][i := w]]
    requires forall r :: r in spaces ==> r in ram && r in ram' && UserKids(ram', r) == UserKids(ram, r)
    ensures OnlyStored(ram, ram', spaces, root, vp, i, w)
  {
    hide UserKids, FindIn, AllSpaces, Sound, Path;
    var l := FindIn(UserKids(ram, root), 4, vp);
    forall r, vp2: nat | r in spaces && vp2 < USER_PAGES ensures
      && r in ram && r in ram'
      && View(ram', r, vp2) == if r == root && vp2 == vp then StoredView(View(ram, r, vp2), i, w) else View(ram, r, vp2)
    {
      assert r in ram && r in ram';
      var l2 := FindIn(UserKids(ram, r), 4, vp2);
      if l2.Leaf? && l2.frame == l.frame {
        OneFrameOnePage(ram, owned, spaces, root, vp, r, vp2);
      }
    }
  }
}
