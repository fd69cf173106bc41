// What a page table in memory means: a tree of tables and leaves, the memory it is made of, and the map
// from virtual pages to frames it stands for.
//
// Levels: 1 is a page table, 2 a page directory, 3 a page-directory-pointer table, 4 the PML4.
module PageTree {
  import opened Words
  import opened Entries
  import opened PhysBook

  datatype Node =
    | Absent
    | Small(frame: nat, flags: Word)
    | Big(frame: nat, flags: Word)
    | Dir(frame: nat, flags: Word, kids: seq<Node>)

  // The tree below entry w of a table at a level
  function Tree(ram: Ram, w: Word, lvl: nat): Node
    decreases lvl, 0
  {
    if !Present(w) || lvl == 0 then Absent
    else if lvl == 1 then Small(LeafFrame(w), CopyFlags(w))
    else if lvl == 2 && Large(w) then Big(LeafFrame(w), CopyFlags(w))
    else if TableFrame(w) !in ram then Dir(TableFrame(w), CopyFlags(w), [])
    else Dir(TableFrame(w), CopyFlags(w), Kids(ram, ram[TableFrame(w)], lvl - 1))
  }

  function Kids(ram: Ram, ws: seq<Word>, lvl: nat): (kids: seq<Node>)
    ensures |kids| == |ws|
    ensures forall i :: 0 <= i < |ws| ==> kids[i] == Tree(ram, ws[i], lvl)
    decreases lvl, 1
  {
    seq(|ws|, i requires 0 <= i < |ws| => Tree(ram, ws[i], lvl))
  }

  // What a tree is made of: its tables and its leaves
  function Fp(n: Node): set<Own> {
    match n
    case Absent => {}
    case Small(f, _) => {Page(f)}
    case Big(f, _) => {Chunk(f)}
    case Dir(f, _, kids) => {Page(f)} + Fps(kids)
  }

  function Fps(kids: seq<Node>): (s: set<Own>)
    ensures forall o :: o in s <==> exists i :: 0 <= i < |kids| && o in Fp(kids[i])
  {
    set i, o | 0 <= i < |kids| && o in Fp(kids[i]) :: o
  }

  // Its tables alone
  function Tables(n: Node): set<Own> {
    match n
    case Dir(f, _, kids) => {Page(f)} + TablesIn(kids)
    case _ => {}
  }

  function TablesIn(kids: seq<Node>): (s: set<Own>)
    ensures forall o :: o in s <==> exists i :: 0 <= i < |kids| && o in Tables(kids[i])
  {
    set i, o | 0 <= i < |kids| && o in Tables(kids[i]) :: o
  }

  // Every frame is referenced by one entry.
  ghost predicate Proper(n: Node) {
    n.Dir? ==> Page(n.frame) !in Fps(n.kids) && ProperKids(n.kids)
  }

  ghost predicate ProperKids(kids: seq<Node>) {
    && (forall i :: 0 <= i < |kids| ==> Proper(kids[i]))
    && (forall i, j :: 0 <= i < j < |kids| ==> Fp(kids[i]) !! Fp(kids[j]))
  }

  lemma {:induction false} TablesInFp(n: Node)
    ensures Tables(n) <= Fp(n)
  {
    if n.Dir? {
      TablesInFps(n.kids);
    }
  }

  lemma {:induction false} TablesInFps(kids: seq<Node>)
    ensures TablesIn(kids) <= Fps(kids)
  {
    forall i | 0 <= i < |kids| ensures Tables(kids[i]) <= Fp(kids[i]) {
      TablesInFp(kids[i]);
    }
  }

  lemma UnchangedKeys(ram: Ram, ram': Ram, owned: set<Own>)
    requires Unchanged(ram, ram', owned)
    ensures ram'.Keys == ram.Keys
  {
  }

  lemma UnchangedPage(ram: Ram, ram': Ram, owned: set<Own>, f: nat)
    requires Unchanged(ram, ram', owned) && Page(f) in owned && f in ram
    ensures f in ram' && ram'[f] == ram[f]
  {
  }

  lemma UnchangedSub(ram: Ram, ram': Ram, owned: set<Own>, part: set<Own>)
    requires Unchanged(ram, ram', owned) && part <= owned
    ensures Unchanged(ram, ram', part)
  {
  }

  // A tree depends only on the memory of its tables.
  lemma {:induction false} TreeFrame(ram: Ram, ram': Ram, w: Word, lvl: nat)
    requires Unchanged(ram, ram', Tables(Tree(ram, w, lvl)))
    ensures Tree(ram', w, lvl) == Tree(ram, w, lvl)
    decreases lvl, 0
  {
    hide Present, Large, TableFrame, LeafFrame, CopyFlags, Held, Unchanged;
    var n := Tree(ram, w, lvl);
    UnchangedKeys(ram, ram', Tables(n));
    if n.Dir? && n.frame in ram {
      UnchangedPage(ram, ram', Tables(n), n.frame);
      UnchangedSub(ram, ram', Tables(n), TablesIn(n.kids));
      KidsFrame(ram, ram', ram[n.frame], lvl - 1);
    }
  }

  lemma {:induction false} KidsFrame(ram: Ram, ram': Ram, ws: seq<Word>, lvl: nat)
    requires Unchanged(ram, ram', TablesIn(Kids(ram, ws, lvl)))
    ensures Kids(ram', ws, lvl) == Kids(ram, ws, lvl)
    decreases lvl, 1
  {
    hide Held, Unchanged;
    var kids := Kids(ram, ws, lvl);
    forall i | 0 <= i < |ws| ensures Tree(ram', ws[i], lvl) == Tree(ram, ws[i], lvl) {
      UnchangedSub(ram, ram', TablesIn(kids), Tables(kids[i]));
      TreeFrame(ram, ram', ws[i], lvl);
    }
  }

  // ---------------------------------------------------------------------------------------------
  // One more entry in a table

  lemma KidsSnoc(ram: Ram, ws: seq<Word>, w: Word, lvl: nat)
    ensures Kids(ram, ws + [w], lvl) == Kids(ram, ws, lvl) + [Tree(ram, w, lvl)]
  {
    hide Tree;
  }

  lemma {:induction false} FpsSnoc(kids: seq<Node>, n: Node)
    ensures Fps(kids + [n]) == Fps(kids) + Fp(n)
    ensures ProperKids(kids) && Proper(n) && Fp(n) !! Fps(kids) ==> ProperKids(kids + [n])
  {
    var all := kids + [n];
    hide Fp, Proper;
    forall o | o in Fps(kids) + Fp(n) ensures o in Fps(all) {
      if o in Fp(n) { assert all[|kids|] == n; } else {
        var i :| 0 <= i < |kids| && o in Fp(kids[i]);
        assert all[i] == kids[i];
      }
    }
    forall i, j | 0 <= i < j < |all| && Fp(n) !! Fps(kids) && ProperKids(kids) ensures Fp(all[i]) !! Fp(all[j]) {
      if j == |kids| {
        forall o | o in Fp(kids[i]) ensures o !in Fp(n) { assert o in Fps(kids); }
      }
    }
  }

  lemma FpInFps(kids: seq<Node>, i: nat)
    requires i < |kids|
    ensures Fp(kids[i]) <= Fps(kids)
  {
  }

  lemma {:induction false} FpsPrefix(kids: seq<Node>, i: nat)
    requires i < |kids|
    ensures Fps(kids[..i + 1]) == Fps(kids[..i]) + Fp(kids[i])
    ensures ProperKids(kids) ==> Fp(kids[i]) !! Fps(kids[..i])
    ensures Fps(kids[..i]) <= Fps(kids) && Fp(kids[i]) <= Fps(kids)
  {
    hide *;
    FpsSnoc(kids[..i], kids[i]);
    assert kids[..i] + [kids[i]] == kids[..i + 1];
    PrefixFps(kids, i);
    FpInFps(kids, i);
    if ProperKids(kids) { PrefixApart(kids, i); }
  }

  lemma {:induction false} PrefixFps(kids: seq<Node>, i: nat)
    requires i < |kids|
    ensures Fps(kids[..i]) <= Fps(kids)
  {
    hide Fp;
    forall o | o in Fps(kids[..i]) ensures o in Fps(kids) {
      var j :| 0 <= j < i && o in Fp(kids[..i][j]);
      assert kids[..i][j] == kids[j];
    }
  }

  lemma {:induction false} PrefixApart(kids: seq<Node>, i: nat)
    requires i < |kids| && ProperKids(kids)
    ensures Fp(kids[i]) !! Fps(kids[..i])
  {
    hide Fp, Proper;
    forall o | o in Fps(kids[..i]) ensures o !in Fp(kids[i]) {
      var j :| 0 <= j < i && o in Fp(kids[..i][j]);
      assert kids[..i][j] == kids[j];
    }
  }

  // ---------------------------------------------------------------------------------------------
  // Copies

  ghost predicate SameChunk(ram: Ram, c: nat, ram': Ram, c': nat) {
    forall f :: c <= f < c + 512 ==> f in ram && c' + (f - c) in ram' && ram'[c' + (f - c)] == ram[f]
  }

  // n' in memory ram' is a deep copy of n in memory ram: same shape, same copyable flags, same contents.
  ghost predicate Copied(ram: Ram, n: Node, ram': Ram, n': Node) {
    match n
    case Absent => n'.Absent?
    case Small(f, flags) => n'.Small? && n'.flags == flags && f in ram && n'.frame in ram' && ram'[n'.frame] == ram[f]
    case Big(f, flags) => n'.Big? && n'.flags == flags && SameChunk(ram, f, ram', n'.frame)
    case Dir(f, flags, kids) => n'.Dir? && n'.flags == flags && CopiedKids(ram, kids, ram', n'.kids)
  }

  ghost predicate CopiedKids(ram: Ram, kids: seq<Node>, ram': Ram, kids': seq<Node>) {
    |kids'| == |kids| && forall i :: 0 <= i < |kids| ==> Copied(ram, kids[i], ram', kids'[i])
  }

  lemma ChunkUnchanged(ram: Ram, ram': Ram, s: set<Own>, c: nat)
    requires Unchanged(ram, ram', s) && Chunk(c) in s && c % 512 == 0
    ensures ram'.Keys == ram.Keys && forall f :: c <= f < c + 512 && f in ram ==> ram'[f] == ram[f]
  {
    forall f | c <= f < c + 512 ensures ChunkOf(f) == c { ChunkOfUnique(c, f); }
  }

  lemma SameChunkAfter(ram: Ram, c: nat, ram1: Ram, c': nat, ram2: Ram)
    requires SameChunk(ram, c, ram1, c') && ram2.Keys == ram1.Keys
    requires forall f :: c' <= f < c' + 512 && f in ram1 ==> ram2[f] == ram1[f]
    ensures SameChunk(ram, c, ram2, c')
  {
    forall f | c <= f < c + 512 ensures f in ram && c' + (f - c) in ram2 && ram2[c' + (f - c)] == ram[f] {
      assert f in ram;
      var g := c' + (f - c);
      assert g in ram1;
    }
  }

  lemma SameChunkBefore(ram1: Ram, ram2: Ram, c: nat, ram': Ram, c': nat)
    requires SameChunk(ram2, c, ram', c') && ram2.Keys == ram1.Keys
    requires forall f :: c <= f < c + 512 && f in ram1 ==> ram2[f] == ram1[f]
    ensures SameChunk(ram1, c, ram', c')
  {
    forall f | c <= f < c + 512 ensures f in ram1 && c' + (f - c) in ram' && ram'[c' + (f - c)] == ram1[f] {
      assert f in ram2;
    }
  }

  lemma {:induction false} CopiedFrame(ram: Ram, n: Node, ram1: Ram, n': Node, ram2: Ram)
    requires Copied(ram, n, ram1, n') && Aligned(Fp(n')) && Unchanged(ram1, ram2, Fp(n'))
    ensures Copied(ram, n, ram2, n')
    decreases n
  {
    match n
    case Absent =>
    case Small(f, _) => UnchangedPage(ram1, ram2, Fp(n'), n'.frame);
    case Big(f, _) =>
      ChunkUnchanged(ram1, ram2, Fp(n'), n'.frame);
      SameChunkAfter(ram, f, ram1, n'.frame, ram2);
    case Dir(_, _, kids) =>
      UnchangedSub(ram1, ram2, Fp(n'), Fps(n'.kids));
      CopiedKidsFrame(ram, kids, ram1, n'.kids, ram2);
  }

  lemma {:induction false} CopiedKidsFrame(ram: Ram, kids: seq<Node>, ram1: Ram, kids': seq<Node>, ram2: Ram)
    requires CopiedKids(ram, kids, ram1, kids') && Aligned(Fps(kids')) && Unchanged(ram1, ram2, Fps(kids'))
    ensures CopiedKids(ram, kids, ram2, kids')
    decreases kids
  {
    forall i | 0 <= i < |kids| ensures Copied(ram, kids[i], ram2, kids'[i]) {
      FpInFps(kids', i);
      UnchangedSub(ram1, ram2, Fps(kids'), Fp(kids'[i]));
      CopiedFrame(ram, kids[i], ram1, kids'[i], ram2);
    }
  }

  lemma {:induction false} CopiedSource(ram1: Ram, ram2: Ram, n: Node, ram': Ram, n': Node)
    requires Copied(ram2, n, ram', n') && Aligned(Fp(n)) && Unchanged(ram1, ram2, Fp(n))
    ensures Copied(ram1, n, ram', n')
    decreases n
  {
    match n
    case Absent =>
    case Small(f, _) => UnchangedPage(ram1, ram2, Fp(n), f);
    case Big(f, _) =>
      ChunkUnchanged(ram1, ram2, Fp(n), f);
      SameChunkBefore(ram1, ram2, f, ram', n'.frame);
    case Dir(_, _, kids) =>
      forall i | 0 <= i < |kids| ensures Copied(ram1, kids[i], ram', n'.kids[i]) {
        FpInFps(kids, i);
        UnchangedSub(ram1, ram2, Fp(n), Fp(kids[i]));
        CopiedSource(ram1, ram2, kids[i], ram', n'.kids[i]);
      }
  }

  // ---------------------------------------------------------------------------------------------
  // The map a tree stands for

  // What a virtual page is mapped to: a 4KiB frame (inside a chunk when large), with the leaf's flags
  datatype Leaf = NoLeaf | Leaf(frame: nat, flags: Word, large: bool)

  // The index a virtual page number has at a level
  function Idx(lvl: nat, vp: nat): (i: nat)
    ensures i < 512
  {
    if lvl <= 1 then vp % 512
    else if lvl == 2 then vp / 0x200 % 512
    else if lvl == 3 then vp / 0x4_0000 % 512
    else vp / 0x800_0000 % 512
  }

  function Find(n: Node, lvl: nat, vp: nat): Leaf {
    match n
    case Absent => NoLeaf
    case Small(f, flags) => Leaf(f, flags, false)
    case Big(f, flags) => Leaf(f + vp % 512, flags, true)
    case Dir(_, _, kids) => if lvl == 0 then NoLeaf else FindIn(kids, lvl - 1, vp)
  }

  function FindIn(kids: seq<Node>, lvl: nat, vp: nat): Leaf {
    if Idx(lvl, vp) < |kids| then Find(kids[Idx(lvl, vp)], lvl, vp) else NoLeaf
  }

  // The flags of the entries that lead to tables, from the top of a walk on
  function Path(kids: seq<Node>, lvl: nat, vp: nat): (path: seq<Word>)
    decreases lvl
  {
    if lvl == 0 || Idx(lvl, vp) >= |kids| || !kids[Idx(lvl, vp)].Dir? then []
    else [kids[Idx(lvl, vp)].flags] + Path(kids[Idx(lvl, vp)].kids, lvl - 1, vp)
  }

  // A walk allows what all entries on it do.
  function PathAllows(path: seq<Word>): Permission {
    if path == [] then Permission(true, true, true) else Both(Allowed(path[0]), PathAllows(path[1..]))
  }

  lemma {:induction false} CopiedPath(ram: Ram, kids: seq<Node>, ram': Ram, kids': seq<Node>, lvl: nat, vp: nat)
    requires CopiedKids(ram, kids, ram', kids')
    ensures Path(kids', lvl, vp) == Path(kids, lvl, vp)
    decreases lvl
  {
    hide Idx;
    var i := Idx(lvl, vp);
    if lvl > 0 && i < |kids| {
      assert Copied(ram, kids[i], ram', kids'[i]);
      if kids[i].Dir? { CopiedPath(ram, kids[i].kids, ram', kids'[i].kids, lvl - 1, vp); }
    }
  }

  // A copy maps the same pages, with the same sizes, flags and contents.
  ghost predicate SameView(ram: Ram, l: Leaf, ram': Ram, l': Leaf) {
    if l.NoLeaf? then l'.NoLeaf?
    else l'.Leaf? && l'.flags == l.flags && l'.large == l.large
         && l.frame in ram && l'.frame in ram' && ram'[l'.frame] == ram[l.frame]
  }

  lemma {:induction false} CopiedView(ram: Ram, n: Node, ram': Ram, n': Node, lvl: nat, vp: nat)
    requires Copied(ram, n, ram', n')
    ensures SameView(ram, Find(n, lvl, vp), ram', Find(n', lvl, vp))
    decreases n
  {
    hide Idx;
    match n
    case Absent =>
    case Small(_, _) =>
    case Big(c, _) =>
      var f := c + vp % 512;
      assert f in ram && ram'[n'.frame + (f - c)] == ram[f];
    case Dir(_, _, kids) =>
      if lvl > 0 && Idx(lvl - 1, vp) < |kids| {
        var i := Idx(lvl - 1, vp);
        CopiedView(ram, kids[i], ram', n'.kids[i], lvl - 1, vp);
      }
  }
}
