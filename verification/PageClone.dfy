// paging.c: deep copies of address spaces (clone_* and virt_clone_mapping).
module PageClone {
  import opened Words
  import opened Entries
  import opened PhysBook
  import opened PhysAlloc
  import opened PageTree

  // What cloning one entry of a table achieves
  ghost predicate EntryCloned(ram: Ram, owned: set<Own>, entry: Word, ram': Ram, owned': set<Own>, word: Word,
      lvl: nat) {
    var n' := Tree(ram', word, lvl);
    && Unchanged(ram, ram', owned)
    && Fp(n') !! owned && owned' == owned + Fp(n') && Proper(n')
    && Copied(ram, Tree(ram, entry, lvl), ram', n')
  }

  // A store into a frame the rest of a footprint does not include
  lemma StoreElsewhere(ram: Ram, ram': Ram, s: set<Own>, owned: set<Own>, f: nat)
    requires Sound(ram, owned) && s <= owned && Page(f) in owned && Page(f) !in s
    requires SameExcept(ram, ram', {f})
    ensures Unchanged(ram, ram', s)
  {
  }

  // The first j frames of a chunk have been copied, and nothing else has changed.
  ghost predicate PartCopied(ram: Ram, ram': Ram, src: nat, dst: nat, j: nat) {
    && ram'.Keys == ram.Keys
    && (forall f :: f in ram && !(dst <= f < dst + j) ==> ram'[f] == ram[f])
    && (forall f :: src <= f < src + j ==> f in ram && dst + (f - src) in ram' && ram'[dst + (f - src)] == ram[f])
  }

  lemma CopyStart(ram: Ram, owned: set<Own>, src: nat, dst: nat)
    requires Sound(ram, owned) && Chunk(src) in owned && Chunk(dst) in owned
    ensures PartCopied(ram, ram, src, dst, 0) && src % 512 == 0 && dst % 512 == 0
    ensures forall f :: src <= f < src + 512 || dst <= f < dst + 512 ==> f in ram
  {
  }

  lemma PartCopiedStep(ram: Ram, ram': Ram, src: nat, dst: nat, j: nat)
    requires PartCopied(ram, ram', src, dst, j) && j < 512 && src % 512 == 0 && dst % 512 == 0 && src != dst
    requires src + j in ram && dst + j in ram
    ensures src + j in ram' && dst + j in ram'
    ensures PartCopied(ram, ram'[dst + j := ram'[src + j]], src, dst, j + 1)
  {
    assert !(dst <= src + j < dst + 512);
    var ram2 := ram'[dst + j := ram'[src + j]];
    forall f | src <= f < src + j + 1 ensures f in ram && dst + (f - src) in ram2 && ram2[dst + (f - src)] == ram[f] {
      if f < src + j { assert f in ram; }
    }
  }

  lemma PartCopiedDone(ram: Ram, ram': Ram, src: nat, dst: nat, owned: set<Own>)
    requires PartCopied(ram, ram', src, dst, 512) && Sound(ram, owned) && Chunk(dst) in owned
    ensures SameChunk(ram, src, ram', dst) && Unchanged(ram, ram', owned - {Chunk(dst)})
  {
    forall f | dst <= f < dst + 512 ensures !Held(owned - {Chunk(dst)}, f) { ChunkOfUnique(dst, f); }
  }

  // memcpy of a 2MiB page
  method CopyChunk(mem: PhysMem, dst: nat, src: nat)
    requires mem.Valid() && Chunk(src) in mem.book.owned && Chunk(dst) in mem.book.owned && src != dst
    modifies mem`ram
    ensures mem.Valid()
    ensures SameChunk(old(mem.ram), src, mem.ram, dst)
    ensures Unchanged(old(mem.ram), mem.ram, mem.book.owned - {Chunk(dst)})
  {
    hide *;
    mem.OwnedInRam();
    ghost var ram := mem.ram;
    ghost var owned := mem.book.owned;
    CopyStart(ram, owned, src, dst);
    var j := 0;
    while j < 512
      invariant 0 <= j <= 512 && mem.Valid() && PartCopied(ram, mem.ram, src, dst, j)
    {
      PartCopiedStep(ram, mem.ram, src, dst, j);
      ChunkOfUnique(dst, dst + j);
      HeldInChunk(owned, dst, dst + j);
      mem.ClientFill(dst + j, mem.ram[src + j]);
      j := j + 1;
    }
    PartCopiedDone(ram, mem.ram, src, dst, owned);
  }

  lemma HeldInChunk(owned: set<Own>, c: nat, f: nat)
    requires Chunk(c) in owned && c % 512 == 0 && c <= f < c + 512
    ensures Held(owned, f)
  {
    ChunkOfUnique(c, f);
  }

  // ---------------------------------------------------------------------------------------------
  // One entry: the bodies of the loops in clone_page_table, clone_page_directory,
  // clone_page_directory_pointer and virt_clone_mapping

  lemma AbsentCloned(ram: Ram, owned: set<Own>, entry: Word, lvl: nat)
    requires !Present(entry)
    ensures EntryCloned(ram, owned, entry, ram, owned, 0, lvl)
  {
    Fields(0);
  }

  lemma SmallCloned(ram: Ram, owned: set<Own>, entry: Word, ram1: Ram, ram2: Ram, owned1: set<Own>, dst: nat)
    requires Present(entry) && Fp(Tree(ram, entry, 1)) <= owned && Sound(ram, owned) && Sound(ram1, owned1)
    requires Unchanged(ram, ram1, owned) && !Held(owned, dst) && dst in ram1 && owned1 == owned + {Page(dst)}
    requires LeafFrame(entry) in ram1 && ram2 == ram1[dst := ram1[LeafFrame(entry)]]
    ensures EntryCloned(ram, owned, entry, ram2, owned1, CopiedSmall(dst, entry), 1)
  {
    SmallCopied(dst, entry);
    hide Present, Large, LeafFrame, CopyFlags, CopiedSmall;
    assert Tree(ram, entry, 1) == Small(LeafFrame(entry), CopyFlags(entry));
    assert Page(LeafFrame(entry)) in owned;
  }

  lemma LargeCloned(ram: Ram, owned: set<Own>, entry: Word, ram2: Ram, owned1: set<Own>, dst: nat)
    requires Present(entry) && Large(entry) && Fp(Tree(ram, entry, 2)) <= owned && Sound(ram2, owned1)
    requires Chunk(dst) !in owned && owned1 == owned + {Chunk(dst)}
    requires SameChunk(ram, LeafFrame(entry), ram2, dst) && Unchanged(ram, ram2, owned1 - {Chunk(dst)})
    ensures EntryCloned(ram, owned, entry, ram2, owned1, CopiedLarge(dst, entry), 2)
  {
    assert dst in ram2 && dst < MAX_FRAMES;
    LargeCopied(dst, entry);
    assert owned1 - {Chunk(dst)} == owned;
    hide Present, Large, LeafFrame, CopyFlags, CopiedLarge, Unchanged;
    assert Tree(ram, entry, 2) == Big(LeafFrame(entry), CopyFlags(entry));
  }

  // What cloning the table at frame table has achieved after i entries
  ghost predicate Cloning(ram: Ram, owned: set<Own>, table: nat, ram': Ram, owned': set<Own>, copy: nat, i: nat,
      lvl: nat) {
    && table in ram && copy in ram' && i <= 512
    && var src := Kids(ram, ram[table], lvl);
       var new_ := Kids(ram', ram'[copy][..i], lvl);
    && Unchanged(ram, ram', owned)
    && Page(copy) !in owned && Page(copy) !in Fps(new_) && Fps(new_) !! owned
    && owned' == owned + {Page(copy)} + Fps(new_)
    && ProperKids(new_)
    && CopiedKids(ram, src[..i], ram', new_)
  }

  lemma TableCloned(ram: Ram, owned: set<Own>, entry: Word, ram': Ram, owned': set<Own>, copy: nat, lvl: nat)
    requires Present(entry) && 2 <= lvl && !(lvl == 2 && Large(entry))
    requires Fp(Tree(ram, entry, lvl)) <= owned && Sound(ram, owned) && Sound(ram', owned')
    requires Cloning(ram, owned, TableFrame(entry), ram', owned', copy, 512, lvl - 1)
    ensures EntryCloned(ram, owned, entry, ram', owned', CopiedTable(copy, TableFrame(entry), entry), lvl)
  {
    var old_ := TableFrame(entry);
    assert Page(old_) in owned;
    TableCopied(copy, old_, entry);
    hide Present, Large, TableFrame, LeafFrame, CopyFlags, CopiedTable, Unchanged;
    assert ram'[copy][..512] == ram'[copy];
    assert Kids(ram, ram[old_], lvl - 1)[..512] == Kids(ram, ram[old_], lvl - 1);
  }

  // ---------------------------------------------------------------------------------------------
  // The loop over a table

  lemma CloneStart(ram: Ram, owned: set<Own>, table: nat, ram': Ram, owned': set<Own>, copy: nat, lvl: nat)
    requires table in ram && copy in ram' && Unchanged(ram, ram', owned)
    requires !Held(owned, copy) && owned' == owned + {Page(copy)}
    ensures Cloning(ram, owned, table, ram', owned', copy, 0, lvl)
  {
  }

  lemma CloneRead(ram: Ram, owned: set<Own>, table: nat, ram': Ram, owned': set<Own>, copy: nat, i: nat, lvl: nat)
    requires Cloning(ram, owned, table, ram', owned', copy, i, lvl) && i < 512
    requires Page(table) in owned && Fp(Tree(ram, ram[table][i], lvl)) <= owned
    ensures table in ram' && ram'[table] == ram[table]
    ensures Tree(ram', ram[table][i], lvl) == Tree(ram, ram[table][i], lvl)
    ensures Fp(Tree(ram, ram[table][i], lvl)) <= owned'
  {
    hide Tree, Fp, Tables, Fps, Kids, CopiedKids, ProperKids;
    var n := Tree(ram, ram[table][i], lvl);
    UnchangedPage(ram, ram', owned, table);
    TablesInFp(n);
    UnchangedSub(ram, ram', owned, Tables(n));
    TreeFrame(ram, ram', ram[table][i], lvl);
  }

  // Cloning entry i and storing its word in the copy takes the loop one entry further.
  lemma CloneStep(ram: Ram, owned: set<Own>, table: nat, ram1: Ram, owned1: set<Own>, copy: nat, i: nat, lvl: nat,
                  ram2: Ram, owned2: set<Own>, word: Word, ram3: Ram)
    requires Cloning(ram, owned, table, ram1, owned1, copy, i, lvl) && i < 512
    requires Page(table) in owned && Fp(Tree(ram, ram[table][i], lvl)) <= owned
    requires EntryCloned(ram1, owned1, ram[table][i], ram2, owned2, word, lvl)
    requires copy in ram2 && ram3 == ram2[copy := ram2[copy][i := word]]
    requires Sound(ram, owned) && Sound(ram2, owned2)
    ensures Cloning(ram, owned, table, ram3, owned2, copy, i + 1, lvl)
  {
    var src := Kids(ram, ram[table], lvl);
    var kids1 := Kids(ram1, ram1[copy][..i], lvl);
    var n := Tree(ram2, word, lvl);
    var kids3 := Kids(ram3, ram3[copy][..i + 1], lvl);
    assert Page(copy) in owned1 && Fps(kids1) <= owned1 && Page(copy) !in Fps(kids1);
    CloneRead(ram, owned, table, ram1, owned1, copy, i, lvl);
    CloneStepKids(ram1, owned1, copy, i, lvl, ram2, owned2, word, ram3, kids1);
    assert kids3 == kids1 + [n];
    FpsSnoc(kids1, n);
    assert owned2 == owned + {Page(copy)} + Fps(kids3);
    assert Unchanged(ram, ram3, owned) by {
      UnchangedTwice(ram, ram1, ram2, owned, owned1);
      StoreElsewhere(ram2, ram3, owned, owned2, copy);
      UnchangedTwice(ram, ram2, ram3, owned, owned);
    }
    assert CopiedKids(ram, src[..i + 1], ram3, kids3) by {
      CloneStepCopies(ram, owned, table, ram1, owned1, copy, i, lvl, ram2, owned2, word, ram3, kids1);
    }
  }

  lemma CloneStepKids(ram1: Ram, owned1: set<Own>, copy: nat, i: nat, lvl: nat,
                      ram2: Ram, owned2: set<Own>, word: Word, ram3: Ram, kids1: seq<Node>)
    requires copy in ram1 && copy in ram2 && i < 512 && kids1 == Kids(ram1, ram1[copy][..i], lvl)
    requires Page(copy) in owned1 && Fps(kids1) <= owned1 && Page(copy) !in Fps(kids1)
    requires Unchanged(ram1, ram2, owned1) && Sound(ram2, owned2)
    requires var n := Tree(ram2, word, lvl); Fp(n) !! owned1 && owned2 == owned1 + Fp(n)
    requires ram3 == ram2[copy := ram2[copy][i := word]]
    ensures Kids(ram3, ram3[copy][..i + 1], lvl) == kids1 + [Tree(ram2, word, lvl)]
    ensures Unchanged(ram2, ram3, Fps(kids1)) && Unchanged(ram2, ram3, Fp(Tree(ram2, word, lvl)))
    ensures Unchanged(ram1, ram2, Fps(kids1))
  {
    hide Tree, Fp, Fps, Tables, TablesIn, Kids;
    var n := Tree(ram2, word, lvl);
    UnchangedPage(ram1, ram2, owned1, copy);
    UnchangedSub(ram1, ram2, owned1, Fps(kids1));
    StoreElsewhere(ram2, ram3, Fps(kids1), owned2, copy);
    StoreElsewhere(ram2, ram3, Fp(n), owned2, copy);
    hide Unchanged, Held, Sound;
    UnchangedTwice(ram1, ram2, ram3, Fps(kids1), Fps(kids1));
    TablesInFps(kids1);
    UnchangedSub(ram1, ram3, Fps(kids1), TablesIn(kids1));
    KidsFrame(ram1, ram3, ram1[copy][..i], lvl);
    TablesInFp(n);
    UnchangedSub(ram2, ram3, Fp(n), Tables(n));
    TreeFrame(ram2, ram3, word, lvl);
    assert ram3[copy][..i + 1] == ram1[copy][..i] + [word];
    KidsSnoc(ram3, ram1[copy][..i], word, lvl);
  }

  lemma CloneStepCopies(ram: Ram, owned: set<Own>, table: nat, ram1: Ram, owned1: set<Own>, copy: nat, i: nat, lvl: nat,
                        ram2: Ram, owned2: set<Own>, word: Word, ram3: Ram, kids1: seq<Node>)
    requires Cloning(ram, owned, table, ram1, owned1, copy, i, lvl) && i < 512
    requires kids1 == Kids(ram1, ram1[copy][..i], lvl)
    requires Sound(ram, owned) && Sound(ram2, owned2) && Fp(Tree(ram, ram[table][i], lvl)) <= owned
    requires Tree(ram1, ram[table][i], lvl) == Tree(ram, ram[table][i], lvl)
    requires EntryCloned(ram1, owned1, ram[table][i], ram2, owned2, word, lvl)
    requires Unchanged(ram2, ram3, Fps(kids1)) && Unchanged(ram2, ram3, Fp(Tree(ram2, word, lvl)))
    requires Unchanged(ram1, ram2, Fps(kids1))
    ensures CopiedKids(ram, Kids(ram, ram[table], lvl)[..i + 1], ram3, kids1 + [Tree(ram2, word, lvl)])
  {
    hide *;
    CloningTable(ram, owned, table, ram1, owned1, copy, i, lvl);
    var src := Kids(ram, ram[table], lvl);
    var n, n' := src[i], Tree(ram2, word, lvl);
    CloneStepFacts(ram, owned, table, ram1, owned1, copy, i, lvl, ram2, owned2, word, kids1);
    UnchangedSub(ram, ram1, owned, Fp(n));
    CopiedSource(ram, ram1, n, ram2, n');
    CopiedFrame(ram, n, ram2, n', ram3);
    UnchangedTwice(ram1, ram2, ram3, Fps(kids1), Fps(kids1));
    CopiedKidsFrame(ram, src[..i], ram1, kids1, ram3);
    assert src[..i + 1] == src[..i] + [n];
    CopiedSnoc(ram, src[..i], n, ram3, kids1, n');
  }

  lemma {:induction false} CopiedSnoc(ram: Ram, kids: seq<Node>, n: Node, ram': Ram, kids': seq<Node>, n': Node)
    requires CopiedKids(ram, kids, ram', kids') && Copied(ram, n, ram', n')
    ensures CopiedKids(ram, kids + [n], ram', kids' + [n'])
  {
    hide Copied;
  }

  lemma CloningTable(ram: Ram, owned: set<Own>, table: nat, ram1: Ram, owned1: set<Own>, copy: nat, i: nat, lvl: nat)
    requires Cloning(ram, owned, table, ram1, owned1, copy, i, lvl)
    ensures table in ram
  {
    hide Kids, Fps, Unchanged, ProperKids, CopiedKids;
  }

  lemma CloneStepFacts(ram: Ram, owned: set<Own>, table: nat, ram1: Ram, owned1: set<Own>, copy: nat, i: nat, lvl: nat,
                       ram2: Ram, owned2: set<Own>, word: Word, kids1: seq<Node>)
    requires Cloning(ram, owned, table, ram1, owned1, copy, i, lvl) && i < 512
    requires kids1 == Kids(ram1, ram1[copy][..i], lvl)
    requires Sound(ram, owned) && Sound(ram2, owned2) && Fp(Tree(ram, ram[table][i], lvl)) <= owned
    requires Tree(ram1, ram[table][i], lvl) == Tree(ram, ram[table][i], lvl)
    requires EntryCloned(ram1, owned1, ram[table][i], ram2, owned2, word, lvl)
    ensures table in ram
    ensures var src := Kids(ram, ram[table], lvl); var n, n' := src[i], Tree(ram2, word, lvl);
      && n == Tree(ram, ram[table][i], lvl) && Fp(n) <= owned && Unchanged(ram, ram1, owned)
      && Copied(ram1, n, ram2, n') && Aligned(Fp(n)) && Aligned(Fp(n')) && Aligned(Fps(kids1))
      && CopiedKids(ram, src[..i], ram1, kids1)
  {
    hide Tree, Fp, Fps, Copied, CopiedKids, Unchanged, ProperKids, Proper;
  }

  lemma {:induction false} CloneFits(ram: Ram, ws: seq<Word>, lvl: nat, owned: set<Own>, i: nat)
    requires Fps(Kids(ram, ws, lvl)) <= owned && i < |ws|
    ensures Fp(Tree(ram, ws[i], lvl)) <= owned
  {
    FpInFps(Kids(ram, ws, lvl), i);
  }

  // ---------------------------------------------------------------------------------------------
  // The methods. `ok` is false when an allocation panics, and then no free chunk is left.

  method CloneSmall(mem: PhysMem, entry: Word) returns (ok: bool, word: Word)
    requires mem.Valid() && Present(entry) && Fp(Tree(mem.ram, entry, 1)) <= mem.book.owned
    modifies mem
    ensures mem.Valid() && (!ok ==> mem.book.chunks == [])
    ensures ok ==> EntryCloned(old(mem.ram), old(mem.book.owned), entry, mem.ram, mem.book.owned, word, 1)
  {
    hide *;
    ghost var ram := mem.ram;
    ghost var owned := mem.book.owned;
    word := 0;
    mem.OwnedInRam();
    SmallSource(ram, owned, entry);
    var dst;
    ok, dst := mem.Alloc4Kib();
    if !ok { return; }
    ghost var ram1 := mem.ram;
    mem.OwnedInRam();
    UnchangedPage(ram, ram1, owned, LeafFrame(entry));
    HeldPage(mem.book.owned, dst);
    mem.ClientFill(dst, mem.ram[LeafFrame(entry)]);
    word := CopiedSmall(dst, entry);
    SmallCloned(ram, owned, entry, ram1, mem.ram, mem.book.owned, dst);
  }

  method CloneLarge(mem: PhysMem, entry: Word) returns (ok: bool, word: Word)
    requires mem.Valid() && Present(entry) && Large(entry) && Fp(Tree(mem.ram, entry, 2)) <= mem.book.owned
    modifies mem
    ensures mem.Valid() && (!ok ==> mem.book.chunks == [])
    ensures ok ==> EntryCloned(old(mem.ram), old(mem.book.owned), entry, mem.ram, mem.book.owned, word, 2)
  {
    hide *;
    ghost var ram := mem.ram;
    ghost var owned := mem.book.owned;
    word := 0;
    LargeSource(ram, owned, entry);
    var dst;
    ok, dst := mem.Alloc2MibSafe();
    if !ok { return; }
    CopyChunk(mem, dst, LeafFrame(entry));
    word := CopiedLarge(dst, entry);
    mem.OwnedInRam();
    LargeCloned(ram, owned, entry, mem.ram, mem.book.owned, dst);
  }

  method CloneEntry(mem: PhysMem, entry: Word, lvl: nat) returns (ok: bool, word: Word)
    requires mem.Valid() && 1 <= lvl <= 4 && Fp(Tree(mem.ram, entry, lvl)) <= mem.book.owned
    modifies mem
    ensures mem.Valid() && (!ok ==> mem.book.chunks == [])
    ensures ok ==> EntryCloned(old(mem.ram), old(mem.book.owned), entry, mem.ram, mem.book.owned, word, lvl)
    decreases lvl, 0
  {
    hide *;
    ghost var ram := mem.ram;
    ghost var owned := mem.book.owned;
    word := 0;
    if !Present(entry) {
      AbsentCloned(ram, owned, entry, lvl);
      ok := true;
    } else if lvl == 1 {
      ok, word := CloneSmall(mem, entry);
    } else if lvl == 2 && Large(entry) {
      ok, word := CloneLarge(mem, entry);
    } else {
      mem.OwnedInRam();
      SubTable(ram, owned, entry, lvl);
      var copy;
      ok, copy := CloneTable(mem, TableFrame(entry), lvl - 1);
      if !ok { return; }
      word := CopiedTable(copy, TableFrame(entry), entry);
      mem.OwnedInRam();
      TableCloned(ram, owned, entry, mem.ram, mem.book.owned, copy, lvl);
    }
  }

  lemma SmallSource(ram: Ram, owned: set<Own>, entry: Word)
    requires Present(entry) && Fp(Tree(ram, entry, 1)) <= owned && Sound(ram, owned)
    ensures Page(LeafFrame(entry)) in owned && LeafFrame(entry) in ram
  {
    hide Present, LeafFrame, CopyFlags;
    assert Page(LeafFrame(entry)) in owned;
  }

  lemma LargeSource(ram: Ram, owned: set<Own>, entry: Word)
    requires Present(entry) && Large(entry) && Fp(Tree(ram, entry, 2)) <= owned
    ensures Chunk(LeafFrame(entry)) in owned
  {
    hide Present, Large, LeafFrame, CopyFlags;
  }

  lemma HeldPage(owned: set<Own>, f: nat)
    requires Page(f) in owned
    ensures Held(owned, f)
  {
  }

  lemma SubTable(ram: Ram, owned: set<Own>, entry: Word, lvl: nat)
    requires Present(entry) && 2 <= lvl && !(lvl == 2 && Large(entry))
    requires Fp(Tree(ram, entry, lvl)) <= owned && Sound(ram, owned)
    ensures var t := TableFrame(entry); Page(t) in owned && t in ram && Fps(Kids(ram, ram[t], lvl - 1)) <= owned
  {
    hide Present, Large, TableFrame, CopyFlags, LeafFrame;
    assert Page(TableFrame(entry)) in owned;
  }

  method CloneTable(mem: PhysMem, table: nat, lvl: nat) returns (ok: bool, copy: nat)
    requires mem.Valid() && 1 <= lvl <= 3
    requires Page(table) in mem.book.owned && table in mem.ram &&
      Fps(Kids(mem.ram, mem.ram[table], lvl)) <= mem.book.owned
    modifies mem
    ensures mem.Valid() && (!ok ==> mem.book.chunks == [])
    ensures ok ==> Cloning(old(mem.ram), old(mem.book.owned), table, mem.ram, mem.book.owned, copy, 512, lvl)
    decreases lvl, 2
  {
    hide *;
    ghost var ram := mem.ram;
    ghost var owned := mem.book.owned;
    mem.OwnedInRam();
    ok, copy := mem.Alloc4Kib();
    if !ok { return; }
    CloneStart(ram, owned, table, mem.ram, mem.book.owned, copy, lvl);
    var i := 0;
    while i < 512
      invariant 0 <= i <= 512 && mem.Valid()
      invariant Cloning(ram, owned, table, mem.ram, mem.book.owned, copy, i, lvl)
    {
      CloneFits(ram, ram[table], lvl, owned, i);
      ok := CloneOne(mem, ram, owned, table, copy, i, lvl);
      if !ok { return; }
      i := i + 1;
    }
  }

  lemma CloneTarget(ram: Ram, owned: set<Own>, table: nat, ram1: Ram, owned1: set<Own>, copy: nat, i: nat, lvl: nat,
                    ram2: Ram, owned2: set<Own>, word: Word)
    requires Cloning(ram, owned, table, ram1, owned1, copy, i, lvl) && i < 512
    requires EntryCloned(ram1, owned1, ram[table][i], ram2, owned2, word, lvl)
    ensures copy in ram2 && Held(owned2, copy)
  {
    hide Tree, Kids, ProperKids, CopiedKids, Fps, Fp;
  }

  // One round of the loop
  method CloneOne(mem: PhysMem, ghost ram: Ram, ghost owned: set<Own>, table: nat, copy: nat, i: nat, lvl: nat)
    returns (ok: bool)
    requires mem.Valid() && 1 <= lvl <= 4 && i < 512 && Page(table) in owned && Sound(ram, owned)
    requires Cloning(ram, owned, table, mem.ram, mem.book.owned, copy, i, lvl)
    requires Fp(Tree(ram, ram[table][i], lvl)) <= owned
    modifies mem
    ensures mem.Valid() && (!ok ==> mem.book.chunks == [])
    ensures ok ==> Cloning(ram, owned, table, mem.ram, mem.book.owned, copy, i + 1, lvl)
    decreases lvl, 1
  {
    hide *;
    ghost var ram1 := mem.ram;
    ghost var owned1 := mem.book.owned;
    CloneRead(ram, owned, table, ram1, owned1, copy, i, lvl);
    var word;
    ok, word := CloneEntry(mem, mem.ram[table][i], lvl);
    if !ok { return; }
    ghost var ram2 := mem.ram;
    mem.OwnedInRam();
    CloneTarget(ram, owned, table, ram1, owned1, copy, i, lvl, ram2, mem.book.owned, word);
    mem.ClientStore(copy, i, word);
    CloneStep(ram, owned, table, ram1, owned1, copy, i, lvl, ram2, mem.book.owned, word, mem.ram);
  }

  // ---------------------------------------------------------------------------------------------
  // virt_clone_mapping

  // The user half of a PML4: the trees of its first 256 entries
  function UserKids(ram: Ram, root: nat): seq<Node>
    requires root in ram
  {
    Kids(ram, ram[root][..256], 4)
  }

  // The clone at frame copy of the address space at frame root: the user half is a deep copy made of frames
  // nobody held, the kernel half is shared, and no frame held before has changed.
  ghost predicate SpaceCloned(ram: Ram, owned: set<Own>, root: nat, ram': Ram, owned': set<Own>, copy: nat) {
    && root in ram && copy in ram'
    && Unchanged(ram, ram', owned)
    && Page(copy) !in owned && Page(copy) !in Fps(UserKids(ram', copy)) && Fps(UserKids(ram', copy)) !! owned
    && owned' == owned + {Page(copy)} + Fps(UserKids(ram', copy))
    && ProperKids(UserKids(ram', copy))
    && CopiedKids(ram, UserKids(ram, root), ram', UserKids(ram', copy))
    && ram'[copy][256..] == ram[root][256..]
  }

  lemma UserKidsPrefix(ram: Ram, root: nat)
    requires root in ram
    ensures UserKids(ram, root) == Kids(ram, ram[root], 4)[..256]
  {
    hide Tree;
  }

  // Sharing kernel entry j leaves the cloned half alone.
  lemma KernelStep(ram: Ram, owned: set<Own>, root: nat, ram1: Ram, owned1: set<Own>, copy: nat, j: nat)
    requires Cloning(ram, owned, root, ram1, owned1, copy, 256, 4) && 256 <= j < 512 && Sound(ram1, owned1)
    requires ram1[copy][256..j] == ram[root][256..j]
    ensures Cloning(ram, owned, root, ram1[copy := ram1[copy][j := ram[root][j]]], owned1, copy, 256, 4)
    ensures ram1[copy][j := ram[root][j]][256..j + 1] == ram[root][256..j + 1]
  {
    var ram2 := ram1[copy := ram1[copy][j := ram[root][j]]];
    var new_ := Kids(ram1, ram1[copy][..256], 4);
    hide Tree, Fp, Tables, TablesIn, Kids, Fps, Copied, ProperKids, CopiedKids;
    assert ram2[copy][..256] == ram1[copy][..256];
    assert ram[root][256..j + 1] == ram[root][256..j] + [ram[root][j]];
    assert ram2[copy][256..j + 1] == ram1[copy][256..j] + [ram[root][j]];
    StoreElsewhere(ram1, ram2, Fps(new_), owned1, copy);
    StoreElsewhere(ram1, ram2, owned, owned1, copy);
    UnchangedTwice(ram, ram1, ram2, owned, owned);
    assert Aligned(Fps(new_));
    hide Unchanged, Sound, Aligned;
    TablesInFps(new_);
    UnchangedSub(ram1, ram2, Fps(new_), TablesIn(new_));
    KidsFrame(ram1, ram2, ram1[copy][..256], 4);
    CopiedKidsFrame(ram, Kids(ram, ram[root], 4)[..256], ram1, new_, ram2);
  }

  lemma CloneEnd(ram: Ram, owned: set<Own>, root: nat, ram': Ram, owned': set<Own>, copy: nat)
    requires Cloning(ram, owned, root, ram', owned', copy, 256, 4)
    requires ram'[copy][256..512] == ram[root][256..512]
    ensures SpaceCloned(ram, owned, root, ram', owned', copy)
  {
    hide Tree, Kids, Fps, Copied, Proper, ProperKids, CopiedKids, Unchanged;
    UserKidsPrefix(ram, root);
  }

  lemma UserFits(ram: Ram, root: nat, owned: set<Own>, i: nat)
    requires root in ram && Fps(UserKids(ram, root)) <= owned && i < 256
    ensures Fp(Tree(ram, ram[root][i], 4)) <= owned
  {
    hide Tree, Fp, Fps;
    CloneFits(ram, ram[root][..256], 4, owned, i);
  }

  lemma FillFresh(ram: Ram, ram1: Ram, owned: set<Own>, f: nat, ws: Frame)
    requires Unchanged(ram, ram1, owned) && !Held(owned, f) && f in ram1
    ensures Unchanged(ram, ram1[f := ws], owned)
  {
  }

  lemma CloneRoots(ram: Ram, owned: set<Own>, root: nat, ram': Ram, owned': set<Own>, copy: nat)
    requires Cloning(ram, owned, root, ram', owned', copy, 256, 4) && Page(root) in owned
    ensures root in ram && root in ram' && ram'[root] == ram[root] && copy in ram' && Held(owned', copy)
  {
    hide Tree, Kids, Fps, Copied, Proper, ProperKids, CopiedKids;
  }

  method VirtCloneMapping(mem: PhysMem, root: nat) returns (ok: bool, copy: nat)
    requires mem.Valid() && Page(root) in mem.book.owned && root in mem.ram
    requires Fps(UserKids(mem.ram, root)) <= mem.book.owned
    modifies mem
    ensures mem.Valid() && (!ok ==> mem.book.chunks == [])
    ensures ok ==> SpaceCloned(old(mem.ram), old(mem.book.owned), root, mem.ram, mem.book.owned, copy)
  {
    hide *;
    ghost var ram := mem.ram;
    ghost var owned := mem.book.owned;
    mem.OwnedInRam();
    ok, copy := mem.Alloc4Kib();
    if !ok { return; }
    HeldPage(mem.book.owned, copy);
    FillFresh(ram, mem.ram, owned, copy, seq(512, _ => 0));
    mem.ClientFill(copy, seq(512, _ => 0));
    CloneStart(ram, owned, root, mem.ram, mem.book.owned, copy, 4);
    var i := 0;
    while i < 256
      invariant 0 <= i <= 256 && mem.Valid()
      invariant Cloning(ram, owned, root, mem.ram, mem.book.owned, copy, i, 4)
    {
      UserFits(ram, root, owned, i);
      ok := CloneOne(mem, ram, owned, root, copy, i, 4);
      if !ok { return; }
      i := i + 1;
    }
    CloneRoots(ram, owned, root, mem.ram, mem.book.owned, copy);
    while i < 512
      invariant 256 <= i <= 512 && mem.Valid()
      invariant Cloning(ram, owned, root, mem.ram, mem.book.owned, copy, 256, 4)
      invariant copy in mem.ram && mem.ram[copy][256..i] == ram[root][256..i]
    {
      mem.OwnedInRam();
      CloneRoots(ram, owned, root, mem.ram, mem.book.owned, copy);
      KernelStep(ram, owned, root, mem.ram, mem.book.owned, copy, i);
      mem.ClientStore(copy, i, mem.ram[root][i]);
      i := i + 1;
    }
    CloneEnd(ram, owned, root, mem.ram, mem.book.owned, copy);
  }
}
