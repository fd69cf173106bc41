// syscalls.c: the memory side of fork. The address space is cloned, and then parent and child are told apart by
// the Pid that fork stores through the pointer in rdi: 0 in the parent, 1 in the child.
module Fork {
  import opened Words
  import opened Entries
  import opened PhysBook
  import opened PhysAlloc
  import opened PageTree
  import opened PageClone
  import opened PageCleanup
  import opened PageMap
  import opened PageUnmap
  import opened PageSpaces
  import opened VirtMemory

  // CONTEXT_STACK_LOCATION + CONTEXT_STACK_SIZE - sizeof(Context): 22 words at the end of page 0x2001
  const CONTEXT: nat := 0x200_1000 + PAGE_BYTES - 176
  const CONTEXT_PAGE: nat := 0x2001
  const RDI: nat := 490   // context->rdi, as a word of that page
  const RAX: nat := 495   // context->rax

  lemma ContextWords()
    ensures CONTEXT / PAGE_BYTES == CONTEXT_PAGE && CONTEXT % PAGE_BYTES == 8 * RDI && RAX == RDI + 5 && RAX < 512
  {
  }

  // Half a word: a Pid has 32 bits.
  function Half(w: Word, high: bool): nat {
    if high then w / 0x1_0000_0000 else w % 0x1_0000_0000
  }

  function SetHalf(w: Word, high: bool, v: nat): Word {
    if high then v * 0x1_0000_0000 + w % 0x1_0000_0000 else w / 0x1_0000_0000 * 0x1_0000_0000 + v
  }

  // ---------------------------------------------------------------------------------------------
  // Memory as user code sees it: bytes, least significant first

  function ByteOf(w: nat, k: nat): nat {
    if k == 0 then w % 256 else ByteOf(w / 256, k - 1)
  }

  function Pow256(n: nat): (p: nat)
    ensures p > 0
  {
    if n == 0 then 1 else 256 * Pow256(n - 1)
  }

  lemma Powers()
    ensures Pow256(4) == 0x1_0000_0000
  {
    assert Pow256(1) == 256 && Pow256(2) == 0x1_0000 && Pow256(3) == 0x100_0000;
  }

  lemma ByteStep(x: nat, y: nat)
    requires y < 256
    ensures (256 * x + y) % 256 == y && (256 * x + y) / 256 == x
  {
  }

  // The bytes of a number put together from two
  lemma {:induction false} BytesOf(h: nat, l: nat, n: nat, k: nat)
    requires l < Pow256(n)
    ensures ByteOf(h * Pow256(n) + l, k) == if k < n then ByteOf(l, k) else ByteOf(h, k - n)
    decreases n
  {
    if n == 0 {
      assert h * Pow256(0) == h;
    } else {
      var q, r, p := l / 256, l % 256, Pow256(n - 1);
      assert h * (256 * p) == 256 * (h * p);
      assert h * Pow256(n) + l == 256 * (h * p + q) + r;
      ByteStep(h * p + q, r);
      if k > 0 { BytesOf(h, q, n - 1, k - 1); }
    }
  }

  lemma HalvesOf(w: Word)
    ensures w == w / 0x1_0000_0000 * 0x1_0000_0000 + w % 0x1_0000_0000
  {
  }

  // Storing half a word changes its four bytes and no others.
  lemma HalfBytes(w: Word, high: bool, v: nat, k: nat)
    requires v < 0x1_0000_0000 && k < 8
    ensures ByteOf(SetHalf(w, high, v), k) == if high == (k >= 4) then ByteOf(v, k % 4) else ByteOf(w, k)
  {
    Powers();
    HalvesOf(w);
    hide ByteOf, Pow256;
    BytesOf(w / 0x1_0000_0000, w % 0x1_0000_0000, 4, k);
    if high {
      BytesOf(v, w % 0x1_0000_0000, 4, k);
    } else {
      BytesOf(w / 0x1_0000_0000, v, 4, k);
    }
  }

  lemma ZeroByte(k: nat)
    ensures ByteOf(0, k) == 0
  {
  }

  // The byte at a user address
  function UserByte(ram: Ram, root: nat, va: nat): nat
    requires root in ram
  {
    var v := View(ram, root, va / 0x1000);
    if v.NoPage? then 0 else ByteOf(v.words[va % 0x1000 / 8], va % 8)
  }

  // The number in the n bytes from a user address on
  function UserValue(ram: Ram, root: nat, va: nat, n: nat): nat
    requires root in ram
    decreases n
  {
    if n == 0 then 0 else UserByte(ram, root, va) + 256 * UserValue(ram, root, va + 1, n - 1)
  }

  const RAX_AT: nat := CONTEXT + 40   // the address of context->rax

  // Address space r' in ram' is what r in ram was, but for the 32 bits at byte address `at`, which are pid, and the
  // saved rax, which is SUCCESS.
  ghost predicate Tells(ram: Ram, r: nat, ram': Ram, r': nat, at: nat, pid: nat) {
    && r in ram && r' in ram'
    && (forall vp: nat :: vp < USER_PAGES ==> SameKind(View(ram, r, vp), View(ram', r', vp)))
    && forall va: nat :: va / 0x1000 < USER_PAGES ==>
      UserByte(ram', r', va) == if at <= va < at + 4 then ByteOf(pid, va - at)
        else if RAX_AT <= va < RAX_AT + 8 then 0 else UserByte(ram, r, va)
  }

  predicate SameKind(v: PageView, w: PageView) {
    (v.NoPage? && w.NoPage?) || (v.PageView? && w.PageView? && w == PageView(w.words, v.flags, v.large, v.path))
  }

  // The byte address the kernel hits when it looks one up: virt_lookup_phys sends every page of a large page to the
  // first.
  function Hits(v: PageView, va: nat): nat {
    Landing(v, va / 0x1000) * 0x1000 + va % 0x1000
  }

  // All that fork does to memory, for the pointer in rdi
  ghost predicate ForkedAt(ram: Ram, spaces: set<nat>, root: nat, ram': Ram, copy: nat, rdi: nat) {
    && root in ram
    && Tells(ram, root, ram', root, rdi, 0)
    && Tells(ram, root, ram', copy, Hits(View(ram, root, rdi / 0x1000), rdi), 1)
    && OthersSee(ram, ram', spaces - {root})
  }

  // ---------------------------------------------------------------------------------------------
  // The stores behind it

  // Where a Pid pointer points: page, word and half
  datatype Cell = Cell(page: nat, word: nat, high: bool)

  function CellAt(va: nat): (c: Cell)
    ensures c.word < 512
  {
    Cell(va / PAGE_BYTES, va % PAGE_BYTES / 8, va / 4 % 2 == 1)
  }

  function CellAddress(c: Cell): nat {
    c.page * 0x1000 + 8 * c.word + if c.high then 4 else 0
  }

  // An aligned pointer is the address of its cell.
  lemma CellIs(va: nat)
    requires va % 4 == 0
    ensures CellAddress(CellAt(va)) == va
  {
    var r := va % PAGE_BYTES;
    assert va == 0x1000 * (va / PAGE_BYTES) + r;
    HalfOf(va / PAGE_BYTES, r);
    WordParts(r);
    AlignedPart(va / PAGE_BYTES, r);
  }

  lemma AlignedPart(q: nat, r: nat)
    requires (0x1000 * q + r) % 4 == 0
    ensures r % 4 == 0
  {
    var m := (0x1000 * q + r) / 4;
    assert 0x1000 * q + r == 4 * m;
    assert r == 4 * (m - 0x400 * q);
  }

  lemma WordParts(r: nat)
    requires r % 4 == 0 && r < 0x1000
    ensures r == 8 * (r / 8) + 4 * (r / 4 % 2) && r / 8 < 512
  {
  }

  // The bytes of a cell, among all
  lemma CellBytes(c: Cell, va: nat)
    requires c.word < 512
    ensures CellAddress(c) <= va < CellAddress(c) + 4 <==>
      va / 0x1000 == c.page && va % 0x1000 / 8 == c.word && c.high == (va % 8 >= 4)
    ensures CellAddress(c) <= va < CellAddress(c) + 4 ==> va - CellAddress(c) == va % 8 % 4
  {
    AddressParts(va);
    var p, i, k := va / 0x1000, va % 0x1000 / 8, va % 8;
    assert va == 0x1000 * p + 8 * i + k && i < 512 && k < 8;
    Apart(p, 8 * i + k, c.page, 8 * c.word + if c.high then 4 else 0);
  }

  lemma AddressParts(va: nat)
    ensures va == 0x1000 * (va / 0x1000) + 8 * (va % 0x1000 / 8) + va % 8
  {
    var q, r := va / 0x1000, va % 0x1000;
    assert va == 8 * (0x200 * q + r / 8) + r % 8;
    assert va % 8 == r % 8;
  }

  lemma Apart(p: nat, o: nat, q: nat, u: nat)
    requires o < 0x1000 && u + 4 <= 0x1000
    ensures q * 0x1000 + u <= p * 0x1000 + o < q * 0x1000 + u + 4 <==> p == q && u <= o < u + 4
  {
  }

  // The page the kernel hits when it looks a page up: virt_lookup_phys sends every page of a large page to the first.
  function Landing(v: PageView, vp: nat): nat {
    if v.PageView? && v.large then vp - vp % 512 else vp
  }

  // What fork leaves behind at page vp, where user code saw v before the call: rax is SUCCESS, the cell holds pid.
  function Told(v: PageView, vp: nat, cell: Cell, pid: nat): PageView
    requires cell.word < 512
  {
    var v1 := if vp == CONTEXT_PAGE then StoredView(v, RAX, 0) else v;
    if vp == cell.page && v1.PageView? then StoredView(v1, cell.word, SetHalf(v1.words[cell.word], cell.high, pid))
      else v1
  }

  // OutOfMemory and BadPointer (a page fault in the kernel) are panics.
  datatype ForkResult = Forked | OutOfMemory | BadPointer

  // ---------------------------------------------------------------------------------------------
  // Looking up a page for the kernel

  lemma {:induction false} LargeFind(kids: seq<Node>, lvl: nat, vp: nat, vp2: nat)
    requires SamePath(lvl, 2, vp, vp2) && LevelledKids(kids, lvl)
    requires FindIn(kids, lvl, vp).Leaf? && FindIn(kids, lvl, vp).large && vp % 512 <= FindIn(kids, lvl, vp).frame
    ensures var l := FindIn(kids, lvl, vp);
      FindIn(kids, lvl, vp2) == Leaf(l.frame - vp % 512 + vp2 % 512, l.flags, true)
    decreases kids
  {
    hide Idx;
    LargeLevel(kids, lvl, vp);
    var i := Idx(lvl, vp);
    assert Idx(lvl, vp2) == i && Levelled(kids[i], lvl);
    if kids[i].Dir? {
      LargeLevel(kids[i].kids, lvl - 1, vp);
      LargeFind(kids[i].kids, lvl - 1, vp, vp2);
    }
  }

  // What virt_lookup_phys answers for a page that user code can see
  lemma LookedUp(ram: Ram, owned: set<Own>, spaces: set<nat>, r: nat, va: nat, found: bool, phys: nat)
    requires AllSpaces(ram, owned, spaces) && r in spaces && Sound(ram, owned) && r in ram &&
      va / PAGE_BYTES < USER_PAGES
    requires Answers(FindIn(UserKids(ram, r), 4, va / PAGE_BYTES),
      DirectoryEntry(UserKids(ram, r), 4, va / PAGE_BYTES), va, found, phys)
    requires View(ram, r, va / PAGE_BYTES).PageView?
    ensures found && phys % PAGE_BYTES == va % PAGE_BYTES
    ensures var landing := Landing(View(ram, r, va / PAGE_BYTES), va / PAGE_BYTES);
      var l := FindIn(UserKids(ram, r), 4, landing);
      landing < USER_PAGES && l.Leaf? && l.frame == phys / PAGE_BYTES && l.frame in ram &&
        View(ram, r, landing).PageView?
  {
    PageWalk(ram, owned, spaces, r, va, va / PAGE_BYTES, found, phys);
  }

  lemma PageWalk(ram: Ram, owned: set<Own>, spaces: set<nat>, r: nat, va: nat, vp: nat, found: bool, phys: nat)
    requires AllSpaces(ram, owned, spaces) && r in spaces && Sound(ram, owned) && r in ram && vp < USER_PAGES &&
      vp == va / PAGE_BYTES
    requires Answers(FindIn(UserKids(ram, r), 4, vp), DirectoryEntry(UserKids(ram, r), 4, vp), va, found, phys)
    requires View(ram, r, vp).PageView?
    ensures found && phys % PAGE_BYTES == va % PAGE_BYTES
    ensures var landing := Landing(View(ram, r, vp), vp); var l := FindIn(UserKids(ram, r), 4, landing);
      landing < USER_PAGES && l.Leaf? && l.frame == phys / PAGE_BYTES && l.frame in ram &&
        View(ram, r, landing).PageView?
  {
    hide *;
    var kids := UserKids(ram, r);
    var l := FindIn(kids, 4, vp);
    SeenIsFound(ram, owned, spaces, r, vp);
    AnswerParts(l, DirectoryEntry(kids, 4, vp), va, found, phys, vp);
    LandingIs(View(ram, r, vp), vp);
    if l.large {
      var first := vp - vp % 512;
      FirstPage(vp);
      UserLevelled(ram, r);
      HitPath(true, vp, first);
      SameRegion(vp, first);
      LargeFind(kids, 4, vp, first);
      SeenIsFound(ram, owned, spaces, r, first);
    }
  }

  lemma SameRegion(vp: nat, first: nat)
    requires vp / 512 == first / 512
    ensures Hit(true, vp, first)
  {
  }

  lemma FirstPage(vp: nat)
    ensures (vp - vp % 512) / 512 == vp / 512 && (vp - vp % 512) % 512 == 0
  {
  }

  lemma LandingIs(v: PageView, vp: nat)
    ensures v.PageView? ==> Landing(v, vp) == if v.large then vp - vp % 512 else vp
  {
  }

  lemma AnswerParts(l: Leaf, directory: Node, va: nat, found: bool, phys: nat, vp: nat)
    requires Answers(l, directory, va, found, phys) && l.Leaf? && vp == va / PAGE_BYTES
    ensures found && phys % PAGE_BYTES == va % PAGE_BYTES && (l.large ==> vp % 512 <= l.frame)
    ensures phys / PAGE_BYTES == if l.large then l.frame - vp % 512 else l.frame
  {
  }

  // virt_lookup_phys on the page table of a live address space
  method Lookup(vm: VirtMem, root: nat, va: nat) returns (phys: nat)
    requires vm.Valid() && root in vm.spaces && va / PAGE_BYTES < USER_PAGES && root in vm.mem.ram
    requires View(vm.mem.ram, root, va / PAGE_BYTES).PageView?
    ensures phys % PAGE_BYTES == va % PAGE_BYTES
    ensures var landing := Landing(View(vm.mem.ram, root, va / PAGE_BYTES), va / PAGE_BYTES);
      var l := FindIn(UserKids(vm.mem.ram, root), 4, landing);
      && landing < USER_PAGES && l.Leaf? && l.frame == phys / PAGE_BYTES && l.frame in vm.mem.ram
      && View(vm.mem.ram, root, landing).PageView?
  {
    var vp := va / PAGE_BYTES;
    hide *;
    vm.Parts();
    vm.mem.OwnedInRam();
    InSpaces(vm.mem.ram, vm.mem.book.owned, vm.spaces, root);
    SpaceIsPart(vm.mem.ram, vm.mem.book.owned, root);
    UserIndex(vp);
    var found;
    found, phys := VirtLookupPhys(vm.mem, root, va);
    LookedUp(vm.mem.ram, vm.mem.book.owned, vm.spaces, root, va, found, phys);
    assert found;   // the panics of lines 77 and 100 are not reached
  }


  // ---------------------------------------------------------------------------------------------
  // fork

  // The pointer in the saved rdi of the process in address space root
  ghost function Rdi(ram: Ram, root: nat): Word
    requires root in ram && View(ram, root, CONTEXT_PAGE).PageView?
  {
    View(ram, root, CONTEXT_PAGE).words[RDI]
  }

  // Address space r' in ram' shows user code what r in ram did.
  ghost predicate SeesSame(ram: Ram, r: nat, ram': Ram, r': nat) {
    r in ram && r' in ram' && forall vp: nat :: vp < USER_PAGES ==> View(ram', r', vp) == View(ram, r, vp)
  }

  // It does, up to what fork tells the process.
  ghost predicate SeesTold(ram: Ram, r: nat, ram': Ram, r': nat, cell: Cell, pid: nat)
    requires cell.word < 512
  {
    r in ram && r' in ram' && forall vp: nat :: vp < USER_PAGES ==>
      View(ram', r', vp) == Told(View(ram, r, vp), vp, cell, pid)
  }

  ghost predicate OthersSee(ram: Ram, ram': Ram, others: set<nat>) {
    forall r :: r in others ==> SeesSame(ram, r, ram', r)
  }

  // Parent and child see what the parent saw, up to what fork tells them; nobody else sees a difference.
  ghost predicate ForkDone(ram: Ram, spaces: set<nat>, root: nat, ram': Ram, copy: nat, cell: Cell, childCell: Cell)
    requires cell.word < 512 && childCell.word < 512
  {
    && SeesTold(ram, root, ram', root, cell, 0)
    && SeesTold(ram, root, ram', copy, childCell, 1)
    && OthersSee(ram, ram', spaces - {root})
  }

  // The two stores that tell a process
  lemma ToldTwice(ram: Ram, ram1: Ram, ram2: Ram, spaces: set<nat>, r: nat, cell: Cell, pid: nat)
    requires r in spaces && cell.word < 512 && OnlyStored(ram, ram1, spaces, r, CONTEXT_PAGE, RAX, 0)
    requires cell.page < USER_PAGES && r in ram1 && View(ram1, r, cell.page).PageView?
    requires OnlyStored(ram1, ram2, spaces, r, cell.page, cell.word,
                        SetHalf(View(ram1, r, cell.page).words[cell.word], cell.high, pid))
    ensures r in ram && r in ram2 && SeesTold(ram, r, ram2, r, cell, pid) && OthersSee(ram, ram2, spaces - {r})
  {
    hide View, SetHalf;
    forall r2 | r2 in spaces - {r} ensures SeesSame(ram, r2, ram2, r2) {
      assert r2 in ram && r2 in ram1 && r2 in ram2;
    }
  }

  // What is told, byte by byte
  lemma ToldByte(v: PageView, cell: Cell, pid: nat, va: nat)
    requires cell.word < 512 && pid < 0x1_0000_0000
    requires va / 0x1000 == cell.page || va / 0x1000 == CONTEXT_PAGE ==> v.PageView?
    ensures var w := Told(v, va / 0x1000, cell, pid);
      SameKind(v, w) && (v.PageView? ==>
        ByteOf(w.words[va % 0x1000 / 8], va % 8) ==
        if CellAddress(cell) <= va < CellAddress(cell) + 4 then ByteOf(pid, va - CellAddress(cell))
        else if RAX_AT <= va < RAX_AT + 8 then 0 else ByteOf(v.words[va % 0x1000 / 8], va % 8))
  {
    ContextWords();
    AddressParts(va);
    CellBytes(cell, va);
    RaxBytes(va);
    var vp, i, k := va / 0x1000, va % 0x1000 / 8, va % 8;
    ZeroByte(k);
    hide CellAddress, SetHalf, ByteOf;
    if v.PageView? {
      var w1 := if vp == CONTEXT_PAGE && i == RAX then 0 else v.words[i];
      HalfBytes(w1, cell.high, pid, k);
    }
  }

  lemma RaxBytes(va: nat)
    ensures RAX_AT <= va < RAX_AT + 8 <==> va / 0x1000 == CONTEXT_PAGE && va % 0x1000 / 8 == RAX
  {
    AddressParts(va);
    assert RAX_AT == 0x1000 * CONTEXT_PAGE + 8 * RAX;
  }

  lemma TellsMade(ram: Ram, r: nat, ram': Ram, r': nat, cell: Cell, pid: nat, at: nat)
    requires cell.word < 512 && SeesTold(ram, r, ram', r', cell, pid) && CellAddress(cell) == at
    requires pid < 0x1_0000_0000 && View(ram, r, cell.page).PageView? && View(ram, r, CONTEXT_PAGE).PageView?
    ensures Tells(ram, r, ram', r', at, pid)
  {
    hide View, Told, ByteOf, CellAddress;
    forall vp: nat | vp < USER_PAGES ensures SameKind(View(ram, r, vp), View(ram', r', vp)) {
      ToldByte(View(ram, r, vp), cell, pid, vp * 0x1000);
      assert vp * 0x1000 / 0x1000 == vp;
    }
    forall va: nat | va / 0x1000 < USER_PAGES
      ensures UserByte(ram', r', va) == if at <= va < at + 4 then ByteOf(pid, va - at)
        else if RAX_AT <= va < RAX_AT + 8 then 0 else UserByte(ram, r, va)
    {
      CellBytes(cell, va);
      RaxBytes(va);
      ToldByte(View(ram, r, va / 0x1000), cell, pid, va);
    }
  }

  // Where the child's Pid goes
  function ChildCell(v: PageView, cell: Cell): (c: Cell)
    ensures cell.word < 512 ==> c.word < 512
  {
    Cell(Landing(v, cell.page), cell.word, cell.high)
  }

  // Lines 89 and 90, through the current address space
  method TellParent(vm: VirtMem, root: nat) returns (fault: bool)
    requires vm.Valid() && root in vm.spaces && root in vm.mem.ram
    requires View(vm.mem.ram, root, CONTEXT_PAGE).PageView?
    requires var rdi := Rdi(vm.mem.ram, root); rdi / PAGE_BYTES < USER_PAGES
    modifies vm, vm.mem
    ensures vm.Valid() && vm.spaces == old(vm.spaces) && vm.Strays() == old(vm.Strays())
    ensures fault <==> View(old(vm.mem.ram), root, Rdi(old(vm.mem.ram), root) / PAGE_BYTES).NoPage?
    ensures !fault ==> SeesTold(old(vm.mem.ram), root, vm.mem.ram, root, CellAt(Rdi(old(vm.mem.ram), root)), 0)
    ensures !fault ==> OthersSee(old(vm.mem.ram), vm.mem.ram, vm.spaces - {root})
    ensures !fault ==> SameTrees(old(vm.mem.ram), vm.mem.ram, vm.spaces)
  {
    ContextWords();
    UserContext();
    var page, rax, rdiWord := CONTEXT_PAGE, RAX, RDI;
    ghost var ram := vm.mem.ram;
    ghost var cell0 := CellAt(Rdi(ram, root));
    fault := vm.UserStore(root, page, rax, 0);
    ghost var ram1 := vm.mem.ram;
    var rdi;
    fault, rdi := vm.UserLoad(root, page, rdiWord);
    var cell := CellAt(rdi);
    assert cell == cell0;
    var w;
    fault, w := vm.UserLoad(root, cell.page, cell.word);
    if !fault {
      fault := vm.UserStore(root, cell.page, cell.word, SetHalf(w, cell.high, 0));
      ToldTwice(ram, ram1, vm.mem.ram, vm.spaces, root, cell, 0);
    }
  }

  lemma UserContext()
    ensures CONTEXT_PAGE < USER_PAGES && RDI < 512 && RAX < 512
  {
  }

  lemma SameOffset(va: nat, phys: nat)
    requires va % PAGE_BYTES == phys % PAGE_BYTES
    ensures CellAt(phys) == Cell(phys / PAGE_BYTES, CellAt(va).word, CellAt(va).high)
  {
    SameHalf(va, phys);
  }

  lemma SameHalf(va: nat, phys: nat)
    requires va % PAGE_BYTES == phys % PAGE_BYTES
    ensures va / 4 % 2 == phys / 4 % 2
  {
    HalfOf(va / PAGE_BYTES, va % PAGE_BYTES);
    HalfOf(phys / PAGE_BYTES, phys % PAGE_BYTES);
    assert va == 0x1000 * (va / PAGE_BYTES) + va % PAGE_BYTES;
    assert phys == 0x1000 * (phys / PAGE_BYTES) + phys % PAGE_BYTES;
  }

  lemma HalfOf(q: nat, r: nat)
    ensures (0x1000 * q + r) / 4 % 2 == r / 4 % 2
  {
    assert (0x1000 * q + r) / 4 == 0x400 * q + r / 4;
    EvenPart(0x200 * q, r / 4);
  }

  lemma EvenPart(q: nat, r: nat)
    ensures (2 * q + r) % 2 == r % 2
  {
  }

  // Lines 91 to 106, through the kernel's map of physical memory
  method TellChild(vm: VirtMem, copy: nat, newContext: nat)
    requires vm.Valid() && copy in vm.spaces && copy in vm.mem.ram
    requires View(vm.mem.ram, copy, CONTEXT_PAGE).PageView?
    requires var l := FindIn(UserKids(vm.mem.ram, copy), 4, CONTEXT_PAGE); l.Leaf? && l.frame == newContext / PAGE_BYTES
    requires var rdi := Rdi(vm.mem.ram, copy);
      rdi / PAGE_BYTES < USER_PAGES && View(vm.mem.ram, copy, rdi / PAGE_BYTES).PageView?
    modifies vm, vm.mem
    ensures vm.Valid() && vm.spaces == old(vm.spaces) && vm.Strays() == old(vm.Strays())
    ensures var cell := CellAt(Rdi(old(vm.mem.ram), copy));
      ChildCell(View(old(vm.mem.ram), copy, cell.page), cell).page < USER_PAGES
    ensures var cell := CellAt(Rdi(old(vm.mem.ram), copy));
      var childCell := ChildCell(View(old(vm.mem.ram), copy, cell.page), cell);
      && SeesTold(old(vm.mem.ram), copy, vm.mem.ram, copy, childCell, 1)
      && View(old(vm.mem.ram), copy, childCell.page).PageView?
    ensures OthersSee(old(vm.mem.ram), vm.mem.ram, vm.spaces - {copy})
  {
    UserContext();
    var page, rax, rdiWord, bytes := CONTEXT_PAGE, RAX, RDI, PAGE_BYTES;
    ghost var ram := vm.mem.ram;
    ghost var cell := CellAt(Rdi(ram, copy));
    vm.PhysStore(newContext / bytes, rax, 0, copy, page);
    ghost var ram1 := vm.mem.ram;
    var rdi := vm.PhysLoad(newContext / bytes, rdiWord, copy, page);
    var pidAt := Lookup(vm, copy, rdi);   // does not fail: the page is there
    SameOffset(rdi, pidAt);
    var at := CellAt(pidAt);
    ghost var childCell := ChildCell(View(ram, copy, cell.page), cell);
    var w := vm.PhysLoad(at.page, at.word, copy, childCell.page);
    vm.PhysStore(at.page, at.word, SetHalf(w, at.high, 1), copy, childCell.page);
    ToldTwice(ram, ram1, vm.mem.ram, vm.spaces, copy, childCell, 1);
  }

  lemma PageOf(va: nat)
    ensures CellAt(va).page == va / PAGE_BYTES && CellAt(va).word < 512
  {
  }

  lemma ForkMade(ram: Ram, spaces: set<nat>, root: nat, ram1: Ram, copy: nat, ram2: Ram, ram3: Ram, cell: Cell,
      childCell: Cell)
    requires root in spaces && copy !in spaces && cell.word < 512 && childCell.word < 512
    requires Untouched(ram, ram1, spaces) && root in ram && copy in ram1 &&
      forall vp :: View(ram1, copy, vp) == View(ram, root, vp)
    requires root in ram1 && SeesTold(ram1, root, ram2, root, cell, 0) &&
      OthersSee(ram1, ram2, spaces + {copy} - {root})
    requires SeesTold(ram2, copy, ram3, copy, childCell, 1) && OthersSee(ram2, ram3, spaces + {copy} - {copy})
    ensures ForkDone(ram, spaces, root, ram3, copy, cell, childCell)
  {
    hide View, Told, UserKids, SpaceFp;
    assert SeesSame(ram1, copy, ram2, copy) && SeesSame(ram2, root, ram3, root);
    forall r | r in spaces - {root} ensures SeesSame(ram, r, ram3, r) {
      assert SeesSame(ram1, r, ram2, r) && SeesSame(ram2, r, ram3, r);
    }
  }

  // What the child is told with, right after cloning and after the parent has been told
  lemma ParentReady(ram: Ram, ram1: Ram, spaces: set<nat>, root: nat, copy: nat)
    requires root in spaces && Untouched(ram, ram1, spaces) && root in ram && copy in ram1
    requires forall vp :: View(ram1, copy, vp) == View(ram, root, vp)
    requires View(ram, root, CONTEXT_PAGE).PageView?
    ensures root in ram1 && forall vp :: View(ram1, root, vp) == View(ram, root, vp)
    ensures View(ram1, root, CONTEXT_PAGE).PageView? && Rdi(ram1, root) == Rdi(ram, root)
    ensures View(ram1, copy, CONTEXT_PAGE) == View(ram, root, CONTEXT_PAGE)
    ensures !View(ram, root, CONTEXT_PAGE).large ==>
      Landing(View(ram1, copy, CONTEXT_PAGE), CONTEXT_PAGE) == CONTEXT_PAGE
    ensures copy !in spaces ==> ClonedFrom(ram, spaces, root, ram1, copy)
  {
    hide View, UserKids, SpaceFp;
  }

  lemma ChildReady(ram: Ram, ram1: Ram, ram2: Ram, spaces: set<nat>, root: nat, copy: nat)
    requires root in spaces && copy !in spaces && root in ram && copy in ram1
    requires forall vp :: View(ram1, copy, vp) == View(ram, root, vp)
    requires View(ram, root, CONTEXT_PAGE).PageView?
    requires var page := Rdi(ram, root) / PAGE_BYTES; page < USER_PAGES && View(ram, root, page).PageView?
    requires OthersSee(ram1, ram2, spaces + {copy} - {root}) && SameTrees(ram1, ram2, spaces + {copy})
    ensures copy in ram2 && View(ram2, copy, CONTEXT_PAGE).PageView? && Rdi(ram2, copy) == Rdi(ram, root)
    ensures View(ram2, copy, Rdi(ram, root) / PAGE_BYTES) == View(ram, root, Rdi(ram, root) / PAGE_BYTES)
    ensures forall vp: nat :: vp < USER_PAGES ==> View(ram2, copy, vp) == View(ram, root, vp)
    ensures UserKids(ram2, copy) == UserKids(ram1, copy)
  {
    UserContext();
    hide View, UserKids;
    assert SeesSame(ram1, copy, ram2, copy);
  }

  method ForkMemory(vm: VirtMem, root: nat) returns (r: ForkResult, copy: nat)
    requires vm.Valid() && root in vm.spaces && root in vm.mem.ram
    requires var v := View(vm.mem.ram, root, CONTEXT_PAGE); v.PageView? && !v.large
    requires var rdi := Rdi(vm.mem.ram, root); rdi % 4 == 0 && rdi / PAGE_BYTES < USER_PAGES
    modifies vm, vm.mem
    ensures r.OutOfMemory? ==> vm.mem.book.chunks == []
    ensures !r.OutOfMemory? ==>
      (r.BadPointer? <==> View(old(vm.mem.ram), root, Rdi(old(vm.mem.ram), root) / PAGE_BYTES).NoPage?)
    ensures r.Forked? ==> vm.Valid() && copy !in old(vm.spaces) && vm.spaces == old(vm.spaces) + {copy}
    ensures r.Forked? ==>
      ForkedAt(old(vm.mem.ram), old(vm.spaces), root, vm.mem.ram, copy, Rdi(old(vm.mem.ram), root))
    ensures r.Forked? ==> vm.Strays() == old(vm.Strays())
  {
    ContextWords();
    UserContext();
    var page, context, bytes := CONTEXT_PAGE, CONTEXT, PAGE_BYTES;
    ghost var ram, spaces := vm.mem.ram, vm.spaces;
    hide *;
    var ok;
    ok, copy := vm.CloneMapping(root);
    if !ok {
      return OutOfMemory, copy;
    }
    ParentReady(ram, vm.mem.ram, spaces, root, copy);
    var newContext := Lookup(vm, copy, context);
    var fault := Tell(vm, root, copy, newContext, ram, spaces);
    r := if fault then BadPointer else Forked;
  }

  // The clone shows what the parent shows.
  ghost predicate ClonedFrom(ram: Ram, spaces: set<nat>, root: nat, ram1: Ram, copy: nat) {
    && root in spaces && copy !in spaces && root in ram && root in ram1 && copy in ram1 && Untouched(ram, ram1, spaces)
    && (forall vp :: View(ram1, copy, vp) == View(ram, root, vp)) && View(ram, root, CONTEXT_PAGE).PageView?
  }

  // fork, from line 89 on
  method Tell(vm: VirtMem, root: nat, copy: nat, newContext: nat, ghost ram: Ram, ghost spaces: set<nat>)
      returns (fault: bool)
    requires vm.Valid() && vm.spaces == spaces + {copy} && ClonedFrom(ram, spaces, root, vm.mem.ram, copy)
    requires var rdi := Rdi(ram, root); rdi % 4 == 0 && rdi / PAGE_BYTES < USER_PAGES
    requires var l := FindIn(UserKids(vm.mem.ram, copy), 4, CONTEXT_PAGE); l.Leaf? && l.frame == newContext / PAGE_BYTES
    modifies vm, vm.mem
    ensures fault <==> View(ram, root, Rdi(ram, root) / PAGE_BYTES).NoPage?
    ensures !fault ==> vm.Valid() && vm.spaces == spaces + {copy} && vm.Strays() == old(vm.Strays())
    ensures !fault ==> ForkedAt(ram, spaces, root, vm.mem.ram, copy, Rdi(ram, root))
  {
    ghost var ram1 := vm.mem.ram;
    CloneParts(ram, spaces, root, ram1, copy);
    hide *;
    ParentReady(ram, ram1, spaces, root, copy);
    PageOf(Rdi(ram, root));
    fault := TellParent(vm, root);
    if !fault {
      ghost var ram2 := vm.mem.ram;
      ChildReady(ram, ram1, ram2, spaces, root, copy);
      TellChild(vm, copy, newContext);
      ForkEnds(ram, spaces, root, ram1, copy, ram2, vm.mem.ram, Rdi(ram, root));
    }
  }

  lemma CloneParts(ram: Ram, spaces: set<nat>, root: nat, ram1: Ram, copy: nat)
    requires ClonedFrom(ram, spaces, root, ram1, copy)
    ensures root in spaces && copy !in spaces && root in ram && root in ram1 && copy in ram1
    ensures Untouched(ram, ram1, spaces) && forall vp :: View(ram1, copy, vp) == View(ram, root, vp)
    ensures View(ram, root, CONTEXT_PAGE).PageView?
  {
    hide View, Untouched;
  }

  lemma ForkEnds(ram: Ram, spaces: set<nat>, root: nat, ram1: Ram, copy: nat, ram2: Ram, ram3: Ram, rdi: nat)
    requires root in spaces && copy !in spaces && root in ram && rdi % 4 == 0 && copy in ram2
    requires Untouched(ram, ram1, spaces) && copy in ram1 && forall vp :: View(ram1, copy, vp) == View(ram, root, vp)
    requires root in ram1 && SeesTold(ram1, root, ram2, root, CellAt(rdi), 0)
    requires OthersSee(ram1, ram2, spaces + {copy} - {root}) && OthersSee(ram2, ram3, spaces + {copy} - {copy})
    requires View(ram, root, CONTEXT_PAGE).PageView? && View(ram, root, rdi / PAGE_BYTES).PageView?
    requires forall vp: nat :: vp < USER_PAGES ==> View(ram2, copy, vp) == View(ram, root, vp)
    requires CellAt(rdi).page < USER_PAGES
    requires var cell := CellAt(rdi); var childCell := ChildCell(View(ram2, copy, cell.page), cell);
      && childCell.page < USER_PAGES && SeesTold(ram2, copy, ram3, copy, childCell, 1)
      && View(ram2, copy, childCell.page).PageView?
    ensures ForkedAt(ram, spaces, root, ram3, copy, rdi)
  {
    var cell := CellAt(rdi);
    PageOf(rdi);
    hide *;
    ForkMade(ram, spaces, root, ram1, copy, ram2, ram3, cell, ChildCell(View(ram, root, cell.page), cell));
    ForkedBytes(ram, spaces, root, ram3, copy, rdi);
  }

  // In bytes
  lemma ForkedBytes(ram: Ram, spaces: set<nat>, root: nat, ram': Ram, copy: nat, rdi: nat)
    requires root in ram && rdi % 4 == 0 && View(ram, root, CONTEXT_PAGE).PageView?
    requires var cell := CellAt(rdi); var childCell := ChildCell(View(ram, root, cell.page), cell);
      && ForkDone(ram, spaces, root, ram', copy, cell, childCell)
      && View(ram, root, cell.page).PageView? && View(ram, root, childCell.page).PageView?
    ensures ForkedAt(ram, spaces, root, ram', copy, rdi)
  {
    CellIs(rdi);
    HitsCell(View(ram, root, CellAt(rdi).page), rdi);
    var cell := CellAt(rdi);
    var childCell := ChildCell(View(ram, root, cell.page), cell);
    assert cell.page == rdi / 0x1000;
    hide View, Tells, SeesTold, OthersSee, CellAt, ChildCell, CellAddress, Hits;
    TellsMade(ram, root, ram', root, cell, 0, rdi);
    TellsMade(ram, root, ram', copy, childCell, 1, Hits(View(ram, root, rdi / 0x1000), rdi));
  }

  lemma HitsCell(v: PageView, va: nat)
    requires va % 4 == 0
    ensures CellAddress(ChildCell(v, CellAt(va))) == Hits(v, va)
  {
    CellIs(va);
    assert va == 0x1000 * (va / 0x1000) + va % 0x1000;
  }

  // ---------------------------------------------------------------------------------------------
  // What fork achieves

  // The pointer's bytes are those at the start of the saved context.
  lemma RdiBytes(ram: Ram, root: nat, va: nat)
    requires root in ram && View(ram, root, CONTEXT_PAGE).PageView? && CONTEXT <= va < CONTEXT + 8
    ensures UserByte(ram, root, va) == ByteOf(Rdi(ram, root), va - CONTEXT)
  {
    assert va / 0x1000 == CONTEXT_PAGE && va % 0x1000 / 8 == RDI && va % 8 == va - CONTEXT;
    hide View, ByteOf;
  }

  // Parent and child agree on every byte but the four of the Pid and the four that the lookup leads to; both have what
  // the parent had everywhere but there and in the saved rax.
  lemma ForkAgrees(ram: Ram, spaces: set<nat>, root: nat, ram': Ram, copy: nat, rdi: nat, va: nat)
    requires ForkedAt(ram, spaces, root, ram', copy, rdi) && va / 0x1000 < USER_PAGES
    requires var at := Hits(View(ram, root, rdi / 0x1000), rdi); !(rdi <= va < rdi + 4) && !(at <= va < at + 4)
    ensures root in ram' && copy in ram' && UserByte(ram', copy, va) == UserByte(ram', root, va)
    ensures root in ram && !(RAX_AT <= va < RAX_AT + 8) ==> UserByte(ram', root, va) == UserByte(ram, root, va)
    ensures SameKind(View(ram', root, va / 0x1000), View(ram', copy, va / 0x1000))
  {
    hide UserByte, View, Hits;
  }

  // The parent finds 0 in the 32 bits at rdi. The child finds 1 there exactly when the kernel's lookup is right about
  // rdi, or a 1 was there before. The saved rax is SUCCESS in the parent, and in the child exactly when the child is
  // not told inside it.
  lemma ForkTells(ram: Ram, spaces: set<nat>, root: nat, ram': Ram, copy: nat, rdi: nat)
    requires ForkedAt(ram, spaces, root, ram', copy, rdi) && rdi % 4 == 0 && rdi / 0x1000 < USER_PAGES
    ensures root in ram && root in ram' && copy in ram'
    ensures UserValue(ram', root, rdi, 4) == 0 && UserValue(ram', root, RAX_AT, 8) == 0
    ensures UserValue(ram', copy, rdi, 4) == 1 <==>
      Hits(View(ram, root, rdi / 0x1000), rdi) == rdi ||
      (!(RAX_AT <= rdi < RAX_AT + 8) && UserValue(ram, root, rdi, 4) == 1)
    ensures UserValue(ram', copy, RAX_AT, 8) == 0 <==>
      !(RAX_AT <= Hits(View(ram, root, rdi / 0x1000), rdi) < RAX_AT + 8)
  {
    var at := Hits(View(ram, root, rdi / 0x1000), rdi);
    HitsParts(View(ram, root, rdi / 0x1000), rdi);
    hide Hits, View, ByteOf, UserByte, Tells, UserValue;
    PidValue(ram, root, ram', root, rdi, rdi, 0);
    PidValue(ram, root, ram', copy, at, rdi, 1);
    RaxValue(ram, root, ram', root, rdi, 0);
    RaxValue(ram, root, ram', copy, at, 1);
  }

  // The 32 bits at rdi afterwards
  lemma PidValue(ram: Ram, r: nat, ram': Ram, r': nat, at: nat, rdi: nat, pid: nat)
    requires Tells(ram, r, ram', r', at, pid) && pid < 2 && at % 4 == 0 && rdi % 4 == 0 && rdi / 0x1000 < USER_PAGES
    ensures UserValue(ram', r', rdi, 4) ==
      if at == rdi then pid else if RAX_AT <= rdi < RAX_AT + 8 then 0 else UserValue(ram, r, rdi, 4)
  {
    hide *;
    PidByte(ram, r, ram', r', at, rdi, pid, 0);
    PidByte(ram, r, ram', r', at, rdi, pid, 1);
    PidByte(ram, r, ram', r', at, rdi, pid, 2);
    PidByte(ram, r, ram', r', at, rdi, pid, 3);
    FourBytes(ram', r', rdi);
    FourBytes(ram, r, rdi);
  }

  lemma PidByte(ram: Ram, r: nat, ram': Ram, r': nat, at: nat, rdi: nat, pid: nat, k: nat)
    requires Tells(ram, r, ram', r', at, pid) && pid < 2 && at % 4 == 0 && rdi % 4 == 0 && rdi / 0x1000 < USER_PAGES
    requires k < 4
    ensures r in ram && r' in ram' && UserByte(ram', r', rdi + k) ==
      if at == rdi then (if k == 0 then pid else 0)
      else if RAX_AT <= rdi < RAX_AT + 8 then 0 else UserByte(ram, r, rdi + k)
  {
    SmallBytes(k);
    InUser(rdi, k);
    SameFour(at, rdi, k);
    RaxPage(RAX_AT);
    SameFour(RAX_AT, rdi, k);
    SameFour(RAX_AT + 4, rdi, k);
    hide View, ByteOf, UserByte;
  }

  // Aligned numbers do not overlap.
  lemma SameFour(a: nat, b: nat, k: nat)
    requires a % 4 == 0 && b % 4 == 0 && k < 4
    ensures a <= b + k < a + 4 <==> a == b
  {
  }

  // The saved rax afterwards
  lemma RaxValue(ram: Ram, r: nat, ram': Ram, r': nat, at: nat, pid: nat)
    requires Tells(ram, r, ram', r', at, pid) && pid < 2 && at % 4 == 0
    ensures UserValue(ram', r', RAX_AT, 8) == 0 <==> pid == 0 || !(RAX_AT <= at < RAX_AT + 8)
  {
    var rax := RAX_AT;
    RaxPage(RAX_AT);
    hide *;
    RaxByte(ram, r, ram', r', at, pid, rax);
    ZeroValue(ram', r', rax, 8);
    if pid == 1 && rax <= at < rax + 8 {
      RaxByte(ram, r, ram', r', at, pid, at);
      SmallBytes(0);
    } else {
      forall va: nat | rax <= va < rax + 8 ensures UserByte(ram', r', va) == 0 {
        RaxByte(ram, r, ram', r', at, pid, va);
        if at <= va < at + 4 { Inside(rax, at, va); SmallBytes(va - at); }
      }
    }
  }

  lemma Inside(rax: nat, at: nat, va: nat)
    requires rax % 8 == 0 && at % 4 == 0 && at <= va < at + 4 && rax <= va < rax + 8
    ensures rax <= at < rax + 8
  {
  }

  lemma RaxByte(ram: Ram, r: nat, ram': Ram, r': nat, at: nat, pid: nat, va: nat)
    requires Tells(ram, r, ram', r', at, pid) && RAX_AT <= va < RAX_AT + 8
    ensures r' in ram' && UserByte(ram', r', va) == if at <= va < at + 4 then ByteOf(pid, va - at) else 0
  {
    RaxPage(va);
    hide View, UserByte, ByteOf;
  }

  lemma SmallBytes(k: nat)
    requires k < 4
    ensures ByteOf(0, k) == 0 && ByteOf(1, k) == if k == 0 then 1 else 0
  {
    ZeroByte(k);
    if k > 0 { ZeroByte(k - 1); }
  }

  lemma FourBytes(ram: Ram, root: nat, va: nat)
    requires root in ram
    ensures UserValue(ram, root, va, 4) == UserByte(ram, root, va) + 256 * (UserByte(ram, root, va + 1) +
      256 * (UserByte(ram, root, va + 2) + 256 * UserByte(ram, root, va + 3)))
  {
    hide UserByte;
    assert UserValue(ram, root, va + 3, 1) == UserByte(ram, root, va + 3);
    assert UserValue(ram, root, va + 2, 2) == UserByte(ram, root, va + 2) + 256 * UserByte(ram, root, va + 3);
  }

  lemma {:induction false} ZeroValue(ram: Ram, root: nat, va: nat, n: nat)
    requires root in ram
    ensures UserValue(ram, root, va, n) == 0 <==> forall x: nat :: va <= x < va + n ==> UserByte(ram, root, x) == 0
    decreases n
  {
    hide UserByte;
    if n > 0 {
      ZeroValue(ram, root, va + 1, n - 1);
    }
  }

  // An aligned number lies in one page.
  lemma InUser(va: nat, k: nat)
    requires va % 4 == 0 && k < 4 && va / 0x1000 < USER_PAGES
    ensures (va + k) / 0x1000 < USER_PAGES
  {
    assert va == 0x1000 * (va / 0x1000) + va % 0x1000;
    AlignedPart(va / 0x1000, va % 0x1000);
  }

  lemma RaxPage(va: nat)
    requires RAX_AT <= va < RAX_AT + 8
    ensures RAX_AT % 8 == 0 && va / 0x1000 < USER_PAGES
  {
  }

  lemma HitsParts(v: PageView, va: nat)
    requires va % 4 == 0
    ensures Hits(v, va) % 4 == 0 && (Hits(v, va) == va || Hits(v, va) + 0x1000 <= va)
  {
    assert va == 0x1000 * (va / 0x1000) + va % 0x1000;
    AlignedPart(va / 0x1000, va % 0x1000);
  }

  // A Pid variable in page 5 of a large page: the child's 1 is written into page 0 instead.
  lemma LandingExample(words: Frame, flags: Word, path: seq<Word>)
    ensures Landing(PageView(words, flags, true, path), 5) == 0
  {
  }
}
