// phys_alloc.c: the two-level physical frame allocator.
//
// Everything the allocator knows except its globals is stored in the memory it manages: free 2MiB
// chunks are linked through their first word, a chunk split into 4KiB frames keeps its pool header in
// its first frame, and the free frames of a pool are linked through their first word.
module PhysBook {
  import opened Lists
  import opened Words

  // What a client can hold: a 4KiB frame, or a 2MiB chunk named by its first frame.
  datatype Own = Page(frame: nat) | Chunk(base: nat)

  // The abstract value of a pool header: its free stack, and implicit_next as a frame number.
  datatype Pool = Pool(free: seq<nat>, bump: nat)

  // Who has which chunk: the free chunks (top of the stack first), the chunks split into pools, the
  // pool list (head first), what clients hold, and every chunk ever pushed at setup. `repaired` tells which version
  // of phys_free_4KIB runs: the one in phys_alloc.c, or the one that can take every frame back.
  datatype Book = Book(chunks: seq<nat>, pools: map<nat, Pool>, list: seq<nat>, owned: set<Own>, managed: set<nat>,
                       repaired: bool)

  type Frame = ws: seq<Word> | |ws| == 512 witness seq(512, _ => 0)

  // Physical memory: frame number -> 512 words.
  type Ram = map<nat, Frame>

  // Word offsets inside a pool header
  const SIZE := 0
  const TOP := 1
  const IMPLICIT_NEXT := 2
  const MAX_ADDRESS := 3
  const NEXT := 4
  const PREV := 5
  const ON_LIST := 6

  // ---------------------------------------------------------------------------------------------
  // What the memory holds

  ghost predicate RamOk(ram: Ram, managed: set<nat>) {
    && (forall f :: f in ram ==> f < MAX_FRAMES)
    && (forall c :: c in managed ==> c > 0 && c % 512 == 0)
    && (forall c, f :: c in managed && c <= f < c + 512 ==> f in ram)
  }

  ghost predicate SameExcept(ram: Ram, ram': Ram, touched: set<nat>) {
    ram'.Keys == ram.Keys && forall f :: f in ram && f !in touched ==> ram'[f] == ram[f]
  }

  lemma SameFrames(ram: Ram)
    ensures forall touched :: SameExcept(ram, ram, touched)
    ensures forall owned :: Unchanged(ram, ram, owned)
  {
  }

  lemma OneFrame(ram: Ram, ram': Ram, p: nat, ws: Frame)
    requires SameExcept(ram, ram', {p}) && p in ram
    ensures SameExcept(ram, ram'[p := ws], {p})
  {
  }

  lemma UnchangedTwice(ram: Ram, ram1: Ram, ram2: Ram, owned: set<Own>, owned1: set<Own>)
    requires Unchanged(ram, ram1, owned) && Unchanged(ram1, ram2, owned1) && owned <= owned1
    ensures Unchanged(ram, ram2, owned)
  {
  }

  // The pointer to element i of s, or NULL past its end.
  function Link(s: seq<nat>, i: nat): Word {
    if i < |s| then Ptr(s[i]) else 0
  }

  // An intrusive stack in memory holds exactly the frames s, top first.
  ghost predicate StackAt(ram: Ram, size: nat, top: Word, s: seq<nat>) {
    && Distinct(s)
    && size == |s|
    && top == Link(s, 0)
    && (forall i :: 0 <= i < |s| ==> s[i] in ram && ram[s[i]][0] == Link(s, i + 1))
  }

  // The pool header at frame p has the abstract value q; NEXT and PREV belong to the list.
  ghost predicate PoolAt(ram: Ram, p: nat, q: Pool, listed: bool) {
    && p in ram && p < q.bump <= p + 512
    && (forall f :: f in q.free ==> p < f < q.bump)
    && StackAt(ram, ram[p][SIZE], ram[p][TOP], q.free)
    && ram[p][IMPLICIT_NEXT] == Ptr(q.bump)
    && ram[p][MAX_ADDRESS] == Ptr(p + 512)
    && ram[p][ON_LIST] == (if listed then 1 else 0)
  }

  // The doubly linked pool list; the head's prev is unconstrained.
  ghost predicate ListAt(ram: Ram, head: Word, list: seq<nat>) {
    && Distinct(list)
    && head == Link(list, 0)
    && (forall i :: 0 <= i < |list| ==> list[i] in ram && ram[list[i]][NEXT] == Link(list, i + 1))
    && (forall i :: 0 < i < |list| ==> ram[list[i]][PREV] == Ptr(list[i - 1]))
  }

  predicate Exhausted(p: nat, q: Pool) {
    q.free == [] && q.bump == p + 512
  }

  // The frames of a pool that are out with clients
  predicate Out(p: nat, q: Pool, f: nat) {
    p < f < q.bump && f !in q.free
  }

  // A client holds the memory of this frame.
  predicate Held(owned: set<Own>, f: nat) {
    Page(f) in owned || Chunk(ChunkOf(f)) in owned
  }

  ghost predicate Unchanged(ram: Ram, ram': Ram, owned: set<Own>) {
    ram'.Keys == ram.Keys && forall f :: f in ram && Held(owned, f) ==> ram'[f] == ram[f]
  }

  // Every chunk pushed at setup is free, split into a pool, or held by a client, and only one of these.
  ghost predicate Partition(b: Book) {
    && (forall c :: c in b.managed <==> c in b.chunks || c in b.pools || Chunk(c) in b.owned)
    && (forall c :: c in b.chunks ==> c !in b.pools && Chunk(c) !in b.owned)
    && (forall c :: c in b.pools ==> Chunk(c) !in b.owned)
  }

  // The 4KiB frames out with clients are exactly the frames the pools have handed out.
  ghost predicate PagesOut(b: Book) {
    forall f {:trigger Page(f) in b.owned} :: Page(f) in b.owned <==>
      ChunkOf(f) in b.pools && Out(ChunkOf(f), b.pools[ChunkOf(f)], f)
  }

  ghost predicate PoolsAt(ram: Ram, pools: map<nat, Pool>, list: seq<nat>) {
    forall p :: p in pools ==> PoolAt(ram, p, pools[p], p in list)
  }

  // The list holds the pools that can still give out a frame.
  ghost predicate Listed(b: Book) {
    forall p :: p in b.list <==> p in b.pools && !Exhausted(p, b.pools[p])
  }

  // No pool that has handed out every frame has all of them back.
  ghost predicate NoneFull(b: Book) {
    forall p :: p in b.pools && b.pools[p].bump == p + 512 ==> exists f :: Out(p, b.pools[p], f)
  }

  // Memory and globals agree with the book.
  ghost predicate Core(ram: Ram, size2M: nat, top2M: Word, pool4K: Word, b: Book) {
    && RamOk(ram, b.managed) && Partition(b) && PagesOut(b)
    && (forall p :: p in b.list ==> p in b.pools)
    && StackAt(ram, size2M, top2M, b.chunks)
    && PoolsAt(ram, b.pools, b.list)
    && ListAt(ram, pool4K, b.list)
  }

  // ---------------------------------------------------------------------------------------------
  // Stacks, pools and lists depend only on their own frames

  lemma StackFrame(ram: Ram, ram': Ram, size: nat, top: Word, s: seq<nat>)
    requires StackAt(ram, size, top, s)
    requires forall f :: f in s ==> f in ram' && ram'[f] == ram[f]
    ensures StackAt(ram', size, top, s)
  {
  }

  lemma StackPushed(ram: Ram, ram': Ram, size: nat, top: Word, s: seq<nat>, f: nat)
    requires StackAt(ram, size, top, s) && f !in s && f in ram
    requires SameExcept(ram, ram', {f}) && ram'[f][0] == top
    ensures StackAt(ram', size + 1, Ptr(f), [f] + s)
  {
    var t := [f] + s;
    LinkFirst(f, s);
    hide Ptr;
    forall i | 0 <= i < |t| ensures t[i] in ram' && ram'[t[i]][0] == Link(t, i + 1) {
      LinkBehind(f, s, i);
      hide Link;
      if i > 0 { assert t[i] == s[i - 1] && ram[s[i - 1]][0] == Link(s, i); }
    }
  }

  lemma LinkFirst(f: nat, s: seq<nat>)
    ensures Link([f] + s, 0) == Ptr(f)
  {
  }

  lemma LinkBehind(f: nat, s: seq<nat>, i: nat)
    ensures Link([f] + s, i + 1) == Link(s, i)
  {
  }

  lemma StackPopped(ram: Ram, size: nat, top: Word, s: seq<nat>)
    requires StackAt(ram, size, top, s) && s != [] && s[0] < MAX_FRAMES
    ensures size > 0 && FrameOf(top) == s[0] && s[0] in ram && s[0] !in s[1..]
    ensures StackAt(ram, size - 1, ram[s[0]][0], s[1..])
  {
    var t := s[1..];
    forall i | 0 <= i < |t| ensures t[i] in ram && ram[t[i]][0] == Link(t, i + 1) {
      assert t[i] == s[i + 1];
    }
  }

  // Two pool headers differ at most in their list links.
  ghost predicate SameHeader(ws: Frame, ws': Frame) {
    forall i :: 0 <= i <= ON_LIST && i != NEXT && i != PREV ==> ws'[i] == ws[i]
  }

  lemma PoolFrame(ram: Ram, ram': Ram, p: nat, q: Pool, listed: bool)
    requires PoolAt(ram, p, q, listed)
    requires p in ram' && SameHeader(ram[p], ram'[p])
    requires forall f :: f in q.free ==> f in ram' && ram'[f] == ram[f]
    ensures PoolAt(ram', p, q, listed)
  {
    StackFrame(ram, ram', ram[p][SIZE], ram[p][TOP], q.free);
  }

  lemma PoolPopped(ram: Ram, p: nat, q: Pool, listed: bool)
    requires PoolAt(ram, p, q, listed) && p + 512 <= MAX_FRAMES
    ensures p in ram && (ram[p][SIZE] == 0 <==> q.free == [])
    ensures q.free != [] ==>
      var f := FrameOf(ram[p][TOP]);
      var q' := Pool(q.free[1..], q.bump);
      && f in ram && f == q.free[0] && ram[p][SIZE] > 0
      && PoolAt(ram[p := ram[p][TOP := ram[f][0]][SIZE := ram[p][SIZE] - 1]], p, q', listed)
      && !Out(p, q, f) && (forall g :: Out(p, q', g) <==> Out(p, q, g) || g == f)
  {
    hide Ptr, FrameOf;
    if q.free != [] {
      assert q.free[0] in q.free;
      StackPopped(ram, ram[p][SIZE], ram[p][TOP], q.free);
      var f := FrameOf(ram[p][TOP]);
      var q' := Pool(q.free[1..], q.bump);
      assert forall g :: g in q.free <==> g == f || g in q'.free;
      var ram' := ram[p := ram[p][TOP := ram[f][0]][SIZE := ram[p][SIZE] - 1]];
      StackFrame(ram, ram', |q'.free|, ram[f][0], q'.free);
    }
  }

  lemma PoolBumped(ram: Ram, p: nat, q: Pool, listed: bool)
    requires PoolAt(ram, p, q, listed) && p + 512 <= MAX_FRAMES && q.free == [] && q.bump < p + 512
    ensures
      var f := FrameOf(ram[p][IMPLICIT_NEXT]);
      var q' := Pool([], q.bump + 1);
      && f == q.bump && PoolAt(ram[p := ram[p][IMPLICIT_NEXT := ram[p][IMPLICIT_NEXT] + PAGE_BYTES]], p, q', listed)
      && !Out(p, q, f) && (forall g :: Out(p, q', g) <==> Out(p, q, g) || g == f)
  {
    hide FrameOf;
  }

  lemma PoolHere(ram: Ram, p: nat, q: Pool, listed: bool)
    requires PoolAt(ram, p, q, listed)
    ensures p in ram
  {
  }

  lemma PoolPushed(ram: Ram, ram1: Ram, p: nat, q: Pool, listed: bool, f: nat)
    requires PoolAt(ram, p, q, listed) && Out(p, q, f) && f in ram
    requires ram1 == ram[f := ram[f][0 := if ram[p][SIZE] == 0 then 0 else ram[p][TOP]]]
    ensures PoolAt(ram1[p := ram1[p][SIZE := ram[p][SIZE] + 1][TOP := Ptr(f)]], p, Pool([f] + q.free, q.bump), listed)
  {
    PoolParts(ram, p, q, listed, f);
    var ram2 := ram1[p := ram1[p][SIZE := ram[p][SIZE] + 1][TOP := Ptr(f)]];
    assert ram2[p] == ram[p][SIZE := ram[p][SIZE] + 1][TOP := Ptr(f)];
    assert forall g :: g in [f] + q.free ==> g in ram2 && ram2[g] == ram1[g];
    assert SameExcept(ram, ram1, {f}) && ram1[f][0] == ram[p][TOP];
    hide *;
    StackPushed(ram, ram1, ram[p][SIZE], ram[p][TOP], q.free, f);
    StackFrame(ram1, ram2, ram[p][SIZE] + 1, Ptr(f), [f] + q.free);
    PoolGrown(ram, ram2, p, q, listed, f);
  }

  lemma PoolParts(ram: Ram, p: nat, q: Pool, listed: bool, f: nat)
    requires PoolAt(ram, p, q, listed) && Out(p, q, f)
    ensures p in ram && StackAt(ram, ram[p][SIZE], ram[p][TOP], q.free) && (ram[p][SIZE] == 0 ==> ram[p][TOP] == 0)
    ensures p !in q.free && f !in q.free && f != p && forall g :: g in q.free ==> g in ram
  {
    hide Ptr;
  }

  lemma PoolGrown(ram: Ram, ram2: Ram, p: nat, q: Pool, listed: bool, f: nat)
    requires PoolAt(ram, p, q, listed) && Out(p, q, f) && p in ram2
    requires ram2[p] == ram[p][SIZE := ram[p][SIZE] + 1][TOP := Ptr(f)]
    requires StackAt(ram2, ram[p][SIZE] + 1, Ptr(f), [f] + q.free)
    ensures PoolAt(ram2, p, Pool([f] + q.free, q.bump), listed)
  {
    hide StackAt, Ptr;
  }

  lemma ListFrame(ram: Ram, ram': Ram, head: Word, list: seq<nat>)
    requires ListAt(ram, head, list)
    requires forall p :: p in list ==> p in ram' && ram'[p][NEXT] == ram[p][NEXT] && ram'[p][PREV] == ram[p][PREV]
    ensures ListAt(ram', head, list)
  {
  }

  // The frames clients hold are not the frames the allocator keeps its own data in.
  lemma HeldIsApart(b: Book)
    requires Partition(b) && PagesOut(b) && forall c :: c in b.managed ==> c % 512 == 0
    ensures forall f :: Held(b.owned, f) ==> f !in b.chunks && f !in b.pools
    ensures forall f, p :: p in b.pools && f in b.pools[p].free && p < f < p + 512 ==> !Held(b.owned, f)
  {
    forall f | Held(b.owned, f) ensures f !in b.chunks && f !in b.pools {
      if f in b.chunks || f in b.pools { ChunkOfUnique(f, f); }
    }
    forall f, p | p in b.pools && f in b.pools[p].free && p < f < p + 512 ensures !Held(b.owned, f) {
      ChunkOfUnique(p, f);
    }
  }

  lemma StackInChunks(ram: Ram, ram': Ram, touched: set<nat>, size: nat, top: Word, s: seq<nat>)
    requires StackAt(ram, size, top, s) && SameExcept(ram, ram', touched)
    requires forall c :: c in s ==> c !in touched
    ensures StackAt(ram', size, top, s)
  {
  }

  lemma PoolElsewhere(ram: Ram, ram': Ram, p: nat, touched: set<nat>, x: nat, q: Pool, listed: bool)
    requires PoolAt(ram, x, q, listed) && x != p && x % 512 == 0
    requires SameExcept(ram, ram', touched) && forall f :: f in touched ==> ChunkOf(f) == p
    ensures PoolAt(ram', x, q, listed)
  {
    hide Ptr, FrameOf;
    ChunkOfUnique(x, x);
    forall f | f in q.free ensures f in ram' && ram'[f] == ram[f] {
      ChunkOfUnique(x, f);
    }
    PoolFrame(ram, ram', x, q, listed);
  }

  // A change inside chunk p leaves the stack of free chunks and the pools of the other chunks alone.
  lemma LocalChange(ram: Ram, ram': Ram, p: nat, touched: set<nat>, size: nat, top: Word, b: Book)
    requires RamOk(ram, b.managed) && Partition(b) && p !in b.chunks
    requires StackAt(ram, size, top, b.chunks) && PoolsAt(ram, b.pools, b.list)
    requires SameExcept(ram, ram', touched) && forall f :: f in touched ==> ChunkOf(f) == p
    ensures RamOk(ram', b.managed)
    ensures StackAt(ram', size, top, b.chunks)
    ensures forall x :: x in b.pools && x != p ==> PoolAt(ram', x, b.pools[x], x in b.list)
  {
    hide Ptr, FrameOf, PoolAt, StackAt;
    assert forall c :: c in b.chunks ==> ChunkOf(c) == c && c in b.managed;
    StackInChunks(ram, ram', touched, size, top, b.chunks);
    forall x | x in b.pools && x != p ensures PoolAt(ram', x, b.pools[x], x in b.list) {
      PoolElsewhere(ram, ram', p, touched, x, b.pools[x], x in b.list);
    }
  }

  // ---------------------------------------------------------------------------------------------
  // The steps of the allocator, on memory and book

  // The top chunk of the stack goes to a client.
  lemma ChunkTaken(ram: Ram, size: nat, top: Word, head: Word, b: Book, b': Book)
    requires Core(ram, size, top, head, b) && b.chunks != []
    requires b' == b.(chunks := b.chunks[1..], owned := b.owned + {Chunk(b.chunks[0])})
    ensures var c := b.chunks[0];
      && c > 0 && c % 512 == 0 && c in ram && size > 0 && FrameOf(top) == c
      && Core(ram, size - 1, ram[c][0], head, b')
      && (forall f :: c <= f < c + 512 ==> f in ram && ChunkOf(f) == c && !Held(b.owned, f))
  {
    var c := b.chunks[0];
    StackPopped(ram, size, top, b.chunks);
    assert forall x :: x in b.chunks <==> x == c || x in b'.chunks;
    forall f | c <= f < c + 512 ensures f in ram && ChunkOf(f) == c && !Held(b.owned, f) {
      ChunkOfUnique(c, f);
    }
  }

  lemma StackTop(ram: Ram, size: nat, top: Word, head: Word, b: Book)
    requires Core(ram, size, top, head, b)
    ensures size == 0 ==> top == 0
  {
  }

  // A chunk the allocator has not known goes on top of the stack.
  lemma ChunkAdded(ram: Ram, ram': Ram, size: nat, top: Word, head: Word, b: Book, b': Book, c: nat)
    requires Core(ram, size, top, head, b) && c > 0 && c % 512 == 0 && c !in b.managed
    requires forall f :: c <= f < c + 512 ==> f in ram
    requires c in ram && ram' == ram[c := ram[c][0 := if size == 0 then 0 else top]]
    requires b' == b.(chunks := [c] + b.chunks, managed := b.managed + {c})
    ensures Core(ram', size + 1, Ptr(c), head, b') && Unchanged(ram, ram', b.owned) && ram'.Keys == ram.Keys
  {
    hide Ptr, FrameOf, Link, PoolAt, StackAt, ListAt, Held;
    ChunkOfUnique(c, c);
    StackTop(ram, size, top, head, b);
    UnknownNotHeld(b, c);
    AddedBooks(ram, ram', b, b', c);
    LocalChange(ram, ram', c, {c}, size, top, b);
    StackPushed(ram, ram', size, top, b.chunks, c);
    hide Partition, PagesOut, RamOk;
    ListFrame(ram, ram', head, b.list);
  }

  lemma AddedBooks(ram: Ram, ram': Ram, b: Book, b': Book, c: nat)
    requires RamOk(ram, b.managed) && Partition(b) && PagesOut(b) && c > 0 && c % 512 == 0 && c !in b.managed
    requires (forall f :: c <= f < c + 512 ==> f in ram) && ram'.Keys == ram.Keys
    requires b' == b.(chunks := [c] + b.chunks, managed := b.managed + {c})
    ensures RamOk(ram', b'.managed) && Partition(b') && PagesOut(b') && c !in b.chunks && c !in b.pools
    ensures b'.list == b.list && b'.pools == b.pools
  {
    assert forall x :: x in b'.chunks <==> x == c || x in b.chunks;
    assert forall f :: f in ram <==> f in ram';
  }

  lemma UnknownNotHeld(b: Book, c: nat)
    requires Partition(b) && PagesOut(b) && c % 512 == 0 && c !in b.managed
    ensures !Held(b.owned, c)
  {
    ChunkOfUnique(c, c);
  }

  // A client's chunk goes on top of the stack.
  lemma ChunkGiven(ram: Ram, ram': Ram, size: nat, top: Word, head: Word, b: Book, b': Book, c: nat)
    requires Core(ram, size, top, head, b) && Chunk(c) in b.owned
    requires SameExcept(ram, ram', {c}) && c in ram && ram'[c][0] == top
    requires b' == b.(chunks := [c] + b.chunks, owned := b.owned - {Chunk(c)})
    ensures Core(ram', size + 1, Ptr(c), head, b')
    ensures Unchanged(ram, ram', b'.owned)
  {
    LocalChange(ram, ram', c, {c}, size, top, b);
    StackPushed(ram, ram', size, top, b.chunks, c);
    ListFrame(ram, ram', head, b.list);
  }

  // A client's chunk becomes a pool with no frame handed out, alone on the list.
  lemma ChunkSplit(ram: Ram, ram': Ram, size: nat, top: Word, head: Word, b: Book, b': Book, p: nat)
    requires Core(ram, size, top, head, b) && Chunk(p) in b.owned && b.list == []
    requires SameExcept(ram, ram', {p})
    requires PoolAt(ram', p, Pool([], p + 1), true) && ram'[p][NEXT] == 0
    requires b' == b.(pools := b.pools[p := Pool([], p + 1)], list := [p], owned := b.owned - {Chunk(p)})
    ensures Core(ram', size, top, Ptr(p), b')
    ensures Unchanged(ram, ram', b'.owned)
  {
    LocalChange(ram, ram', p, {p}, size, top, b);
  }

  // The head pool hands out frame f.
  lemma PageTaken(ram: Ram, ram': Ram, size: nat, top: Word, head: Word, b: Book, b': Book, p: nat, q: Pool, f: nat)
    requires Core(ram, size, top, head, b) && p in b.list
    requires SameExcept(ram, ram', {p}) && PoolAt(ram', p, q, true)
    requires ram'[p][NEXT] == ram[p][NEXT] && ram'[p][PREV] == ram[p][PREV]
    requires !Out(p, b.pools[p], f) && forall g :: Out(p, q, g) <==> Out(p, b.pools[p], g) || g == f
    requires b' == b.(pools := b.pools[p := q], owned := b.owned + {Page(f)})
    ensures Core(ram', size, top, head, b')
    ensures ChunkOf(f) == p && f in ram && !Held(b.owned, f)
    ensures Unchanged(ram, ram', b.owned)
  {
    hide Ptr, FrameOf, Link, StackAt, PoolAt, ListAt, Out;
    HeadPlace(ram, b, p, ram', q);
    PageOut(b, b', p, q, f);
    LocalChange(ram, ram', p, {p}, size, top, b);
    hide Partition, PagesOut;
    ListFrame(ram, ram', head, b.list);
    HeaderNotHeld(ram, ram', b, p);
  }

  lemma HeadPlace(ram: Ram, b: Book, p: nat, ram': Ram, q: Pool)
    requires RamOk(ram, b.managed) && Partition(b) && p in b.pools && PoolAt(ram', p, q, true)
    ensures p in b.managed && p % 512 == 0 && ChunkOf(p) == p && q.bump <= p + 512
    ensures forall f :: p <= f < p + 512 ==> f in ram
  {
    hide StackAt, Ptr;
    ChunkOfUnique(p, p);
  }

  // A header is not memory clients hold.
  lemma HeaderNotHeld(ram: Ram, ram': Ram, b: Book, p: nat)
    requires Partition(b) && PagesOut(b) && p in b.pools && p % 512 == 0 && SameExcept(ram, ram', {p})
    ensures Unchanged(ram, ram', b.owned)
  {
    ChunkOfUnique(p, p);
  }

  lemma PageOut(b: Book, b': Book, p: nat, q: Pool, f: nat)
    requires Partition(b) && PagesOut(b) && p in b.pools && p % 512 == 0 && q.bump <= p + 512
    requires !Out(p, b.pools[p], f) && forall g :: Out(p, q, g) <==> Out(p, b.pools[p], g) || g == f
    requires b' == b.(pools := b.pools[p := q], owned := b.owned + {Page(f)})
    ensures Partition(b') && PagesOut(b')
    ensures ChunkOf(f) == p && p < f < p + 512 && !Held(b.owned, f)
  {
    assert Out(p, q, f);
    ChunkOfUnique(p, f);
    forall g ensures Page(g) in b'.owned <==> ChunkOf(g) in b'.pools && Out(ChunkOf(g), b'.pools[ChunkOf(g)], g) {
      if ChunkOf(g) == p {
        assert Out(p, q, g) <==> Out(p, b.pools[p], g) || g == f;
      }
    }
  }

  lemma ListTail(ram: Ram, ram': Ram, head: Word, list: seq<nat>)
    requires ListAt(ram, head, list) && list != [] && SameExcept(ram, ram', {list[0]})
    ensures ListAt(ram', ram[list[0]][NEXT], list[1..]) && list[0] !in list[1..]
  {
    var t := list[1..];
    forall i | 0 <= i < |t|
      ensures t[i] in ram' && ram'[t[i]][NEXT] == Link(t, i + 1) && (i > 0 ==> ram'[t[i]][PREV] == Ptr(t[i - 1]))
    {
      assert t[i] == list[i + 1];
    }
  }

  lemma PoolMarked(ram: Ram, p: nat, q: Pool)
    requires PoolAt(ram, p, q, false)
    ensures p in ram && PoolAt(ram[p := ram[p][ON_LIST := 1]], p, q, true)
  {
    hide Ptr, FrameOf;
    var ram' := ram[p := ram[p][ON_LIST := 1]];
    StackFrame(ram, ram', ram[p][SIZE], ram[p][TOP], q.free);
  }

  // Clearing ON_LIST and the links of a pool header
  lemma PoolUnmarked(ram: Ram, p: nat, q: Pool)
    requires PoolAt(ram, p, q, true)
    ensures p in ram
    ensures PoolAt(ram[p := ram[p][ON_LIST := 0][NEXT := 0][PREV := 0]], p, q, false)
  {
    hide Ptr, FrameOf;
    var ram' := ram[p := ram[p][ON_LIST := 0][NEXT := 0][PREV := 0]];
    StackFrame(ram, ram', ram[p][SIZE], ram[p][TOP], q.free);
  }

  // The head pool leaves the list.
  lemma HeadDropped(ram: Ram, ram': Ram, size: nat, top: Word, head: Word, b: Book, b': Book, p: nat)
    requires Core(ram, size, top, head, b) && b.list != [] && p == b.list[0]
    requires SameExcept(ram, ram', {p}) && PoolAt(ram', p, b.pools[p], false)
    requires b' == b.(list := b.list[1..])
    ensures Core(ram', size, top, ram[p][NEXT], b')
    ensures Unchanged(ram, ram', b.owned)
  {
    SameBooks(b, b');
    HeldIsApart(b);
    hide Ptr, FrameOf, StackAt, PoolAt, PagesOut;
    assert p !in b.chunks && p % 512 == 0 && ChunkOf(p) == p;
    LocalChange(ram, ram', p, {p}, size, top, b);
    ListTail(ram, ram', head, b.list);
    hide ListAt, RamOk, Partition, Held;
    assert forall x :: x in b.list <==> x == p || x in b'.list;
  }

  // Client frame f goes back to its pool.
  lemma PageGiven(ram: Ram, ram': Ram, size: nat, top: Word, head: Word, b: Book, b': Book, f: nat)
    requires Core(ram, size, top, head, b) && Page(f) in b.owned
    requires var p := ChunkOf(f); var q := b.pools[p];
      && SameExcept(ram, ram', {p, f})
      && PoolAt(ram', p, Pool([f] + q.free, q.bump), p in b.list)
      && ram'[p][NEXT] == ram[p][NEXT] && ram'[p][PREV] == ram[p][PREV]
      && b' == b.(pools := b.pools[p := Pool([f] + q.free, q.bump)], owned := b.owned - {Page(f)})
    ensures Core(ram', size, top, head, b')
    ensures Unchanged(ram, ram', b'.owned)
  {
    hide Ptr, FrameOf, StackAt, PoolAt;
    var p := ChunkOf(f);
    ChunkOfUnique(p, p);
    LocalChange(ram, ram', p, {p, f}, size, top, b);
    assert f !in b.list by { if f in b.list { ChunkOfUnique(f, f); } }
    ListFrame(ram, ram', head, b.list);
    PageIn(b, b', f);
    hide ListAt, Partition, PagesOut, RamOk;
  }

  lemma PageIn(b: Book, b': Book, f: nat)
    requires Partition(b) && PagesOut(b) && Page(f) in b.owned && forall c :: c in b.managed ==> c % 512 == 0
    requires var p := ChunkOf(f); var q := b.pools[p];
      b' == b.(pools := b.pools[p := Pool([f] + q.free, q.bump)], owned := b.owned - {Page(f)})
    ensures Partition(b') && PagesOut(b')
    ensures !Held(b'.owned, ChunkOf(f)) && !Held(b'.owned, f)
  {
    var p := ChunkOf(f);
    ChunkOfUnique(p, p);
    assert !Out(p, b.pools[p], p);
    forall g ensures Page(g) in b'.owned <==> ChunkOf(g) in b'.pools && Out(ChunkOf(g), b'.pools[ChunkOf(g)], g) {
      assert Page(g) in b.owned <==> ChunkOf(g) in b.pools && Out(ChunkOf(g), b.pools[ChunkOf(g)], g);
    }
  }

  // Only pool p and the links of other pools change.
  ghost predicate OnlyLinks(ram: Ram, ram': Ram, p: nat, pools: map<nat, Pool>) {
    && ram'.Keys == ram.Keys
    && (forall f :: f in ram ==> f == p || ram'[f] == ram[f] || (f in pools && SameHeader(ram[f], ram'[f])))
  }

  lemma PoolRelinked(ram: Ram, ram': Ram, p: nat, pools: map<nat, Pool>, x: nat, q: Pool, listed: bool)
    requires PoolAt(ram, x, q, listed) && x != p && x % 512 == 0 && p % 512 == 0
    requires OnlyLinks(ram, ram', p, pools) && forall y :: y in pools ==> y % 512 == 0
    ensures PoolAt(ram', x, q, listed)
  {
    hide Ptr, FrameOf;
    forall f | f in q.free ensures f in ram' && ram'[f] == ram[f] {
      ChunkOfUnique(x, f);
      assert f % 512 != 0;
    }
    PoolFrame(ram, ram', x, q, listed);
  }

  lemma LinksChange(ram: Ram, ram': Ram, p: nat, size: nat, top: Word, b: Book)
    requires RamOk(ram, b.managed) && Partition(b) && p in b.pools
    requires StackAt(ram, size, top, b.chunks) && PoolsAt(ram, b.pools, b.list)
    requires OnlyLinks(ram, ram', p, b.pools)
    ensures RamOk(ram', b.managed)
    ensures StackAt(ram', size, top, b.chunks)
    ensures forall x :: x in b.pools && x != p ==> PoolAt(ram', x, b.pools[x], x in b.list)
  {
    hide Ptr, FrameOf, PoolAt;
    StackFrame(ram, ram', size, top, b.chunks);
    hide StackAt;
    forall x | x in b.pools && x != p ensures PoolAt(ram', x, b.pools[x], x in b.list) {
      PoolRelinked(ram, ram', p, b.pools, x, b.pools[x], x in b.list);
    }
  }

  lemma LinksNotHeld(ram: Ram, ram': Ram, p: nat, b: Book)
    requires RamOk(ram, b.managed) && Partition(b) && PagesOut(b) && p in b.pools
    requires OnlyLinks(ram, ram', p, b.pools)
    ensures Unchanged(ram, ram', b.owned)
  {
    hide SameHeader;
    HeldIsApart(b);
  }

  lemma ListPushed(ram: Ram, ram': Ram, head: Word, list: seq<nat>, p: nat)
    requires ListAt(ram, head, list) && list != [] && p !in list && p in ram
    requires SameExcept(ram, ram', {p, list[0]})
    requires ram'[p][NEXT] == head && ram'[list[0]] == ram[list[0]][PREV := Ptr(p)]
    ensures ListAt(ram', Ptr(p), [p] + list)
  {
    hide Ptr, FrameOf;
    var t := [p] + list;
    forall i | 0 <= i < |t|
      ensures t[i] in ram' && ram'[t[i]][NEXT] == Link(t, i + 1) && (i > 0 ==> ram'[t[i]][PREV] == Ptr(t[i - 1]))
    {
      if i > 0 {
        assert t[i] == list[i - 1];
        if i > 1 { assert t[i - 1] == list[i - 2] && list[i - 1] != list[0]; }
      }
    }
  }

  lemma HeadLinked(ram: Ram, ram': Ram, head: Word, b: Book, p: nat, h: nat)
    requires ListAt(ram, head, b.list) && b.list != [] && p !in b.list && h == b.list[0] && h in ram && h in b.pools
    requires p in b.pools && p in ram && p % 512 == 0 && h % 512 == 0
    requires PoolAt(ram, p, b.pools[p], false)
    requires var ram1 := ram[h := ram[h][PREV := Ptr(p)]];
      ram' == ram1[p := ram1[p][NEXT := head][PREV := 0][ON_LIST := 1]]
    ensures OnlyLinks(ram, ram', p, b.pools) && ListAt(ram', Ptr(p), [p] + b.list)
    ensures PoolAt(ram', p, b.pools[p], true)
  {
    hide Ptr, FrameOf, StackAt, PoolAt;
    assert ListAt(ram', Ptr(p), [p] + b.list) by { ListPushed(ram, ram', head, b.list, p); }
    hide ListAt;
    PoolEnlisted(ram, ram', p, b.pools[p], h, head);
  }

  // The same, when the list is empty
  lemma HeadAlone(ram: Ram, ram': Ram, head: Word, b: Book, p: nat)
    requires ListAt(ram, head, b.list) && b.list == [] && p in b.pools && p in ram && p % 512 == 0
    requires PoolAt(ram, p, b.pools[p], false)
    requires ram' == ram[p := ram[p][NEXT := head][PREV := 0][ON_LIST := 1]]
    ensures OnlyLinks(ram, ram', p, b.pools) && ListAt(ram', Ptr(p), [p] + b.list)
    ensures PoolAt(ram', p, b.pools[p], true)
  {
    PoolEnlisted(ram, ram', p, b.pools[p], p, head);
    hide PoolAt;
  }

  lemma PoolEnlisted(ram: Ram, ram': Ram, p: nat, q: Pool, h: nat, next: Word)
    requires PoolAt(ram, p, q, false) && SameExcept(ram, ram', {p, h}) && p % 512 == 0 && h % 512 == 0
    requires p in ram && ram'[p] == ram[p][NEXT := next][PREV := 0][ON_LIST := 1]
    ensures PoolAt(ram', p, q, true)
  {
    var ram1 := ram'[p := ram[p][NEXT := next][PREV := 0]];
    EnlistedFrames(ram, p, q, h);
    hide Ptr, FrameOf, StackAt;
    PoolFrame(ram, ram1, p, q, false);
    PoolMarked(ram1, p, q);
    hide PoolAt;
    assert ram1[p := ram1[p][ON_LIST := 1]] == ram';
  }

  lemma EnlistedFrames(ram: Ram, p: nat, q: Pool, h: nat)
    requires PoolAt(ram, p, q, false) && p % 512 == 0 && h % 512 == 0
    ensures forall f :: f in q.free ==> f in ram && f != h && f != p
  {
    hide Ptr, FrameOf, Link;
    forall f | f in q.free ensures f in ram && f != h && f != p {
      var i :| 0 <= i < |q.free| && q.free[i] == f;
      assert p < f < p + 512;
    }
  }

  // A pool off the list becomes its head.
  lemma HeadAdded(ram: Ram, ram': Ram, size: nat, top: Word, head: Word, b: Book, b': Book, p: nat)
    requires Core(ram, size, top, head, b) && p in b.pools
    requires OnlyLinks(ram, ram', p, b.pools)
    requires PoolAt(ram', p, b.pools[p], true) && ListAt(ram', Ptr(p), [p] + b.list)
    requires b' == b.(list := [p] + b.list)
    ensures Core(ram', size, top, Ptr(p), b')
    ensures Unchanged(ram, ram', b.owned)
  {
    SameBooks(b, b');
    hide Ptr, FrameOf, StackAt, PoolAt, ListAt, SameHeader, OnlyLinks, Partition, PagesOut, RamOk, Held, Unchanged;
    LinksChange(ram, ram', p, size, top, b);
    LinksNotHeld(ram, ram', p, b);
    assert forall x :: x in b'.list <==> x == p || x in b.list;
    hide Link;
  }

  lemma SameBooks(b: Book, b': Book)
    requires Partition(b) && PagesOut(b) && b' == b.(list := b'.list)
    ensures Partition(b') && PagesOut(b')
  {
  }

  // The list without its element k
  function Without(list: seq<nat>, k: nat): seq<nat>
    requires k < |list|
  {
    list[..k] + list[k + 1..]
  }

  lemma WithoutAt(list: seq<nat>, k: nat)
    requires k < |list|
    ensures forall i :: 0 <= i < |Without(list, k)| ==> Without(list, k)[i] == list[if i < k then i else i + 1]
    ensures Distinct(list) ==> forall x :: x in Without(list, k) <==> x in list && x != list[k]
  {
    var t := Without(list, k);
    forall x | Distinct(list) ensures x in t <==> x in list && x != list[k] {
      if x in list && x != list[k] {
        var j :| 0 <= j < |list| && list[j] == x;
        assert t[if j < k then j else j - 1] == x;
      }
    }
  }

  // Element k is unlinked: its neighbours take over its links. (The prev of a new head is free.)
  ghost predicate Unlinked(ram: Ram, ram': Ram, list: seq<nat>, k: nat)
    requires k < |list|
  {
    && ram'.Keys == ram.Keys && (forall p :: p in list ==> p in ram)
    && (forall i :: 0 <= i < |list| && i != k ==>
         ram'[list[i]][NEXT] == ram[list[if i + 1 == k then k else i]][NEXT])
    && (forall i :: 0 < i < |list| && i != k && (k > 0 || i > 1) ==>
         ram'[list[i]][PREV] == ram[list[if i == k + 1 then k else i]][PREV])
  }

  lemma ListCut(ram: Ram, ram': Ram, head: Word, list: seq<nat>, k: nat)
    requires ListAt(ram, head, list) && k < |list| && Unlinked(ram, ram', list, k)
    ensures ListAt(ram', if k == 0 then ram[list[0]][NEXT] else head, Without(list, k))
  {
    hide Ptr, FrameOf;
    ListCutDistinct(list, k);
    ListCutNext(ram, ram', head, list, k);
    ListCutPrev(ram, ram', head, list, k);
    WithoutAt(list, k);
    hide Without, Distinct, Unlinked;
  }

  lemma ListCutDistinct(list: seq<nat>, k: nat)
    requires k < |list| && Distinct(list)
    ensures Distinct(Without(list, k)) && |Without(list, k)| == |list| - 1
  {
  }

  lemma ListCutNext(ram: Ram, ram': Ram, head: Word, list: seq<nat>, k: nat)
    requires ListAt(ram, head, list) && k < |list| && Unlinked(ram, ram', list, k)
    ensures var t := Without(list, k); forall i :: 0 <= i < |t| ==> t[i] in ram' && ram'[t[i]][NEXT] == Link(t, i + 1)
  {
    hide Ptr, FrameOf, Distinct;
    WithoutAt(list, k);
    var t := Without(list, k);
    hide Without;
    forall i | 0 <= i < |t| ensures t[i] in ram' && ram'[t[i]][NEXT] == Link(t, i + 1) {
      var j := if i < k then i else i + 1;
      assert ram'[list[j]][NEXT] == ram[list[if j + 1 == k then k else j]][NEXT];
    }
  }

  lemma ListCutPrev(ram: Ram, ram': Ram, head: Word, list: seq<nat>, k: nat)
    requires ListAt(ram, head, list) && k < |list| && Unlinked(ram, ram', list, k)
    ensures var t := Without(list, k); forall i :: 0 < i < |t| ==> t[i] in ram' && ram'[t[i]][PREV] == Ptr(t[i - 1])
  {
    hide Ptr, FrameOf, Distinct;
    WithoutAt(list, k);
    var t := Without(list, k);
    hide Without;
    forall i | 0 < i < |t| ensures t[i] in ram' && ram'[t[i]][PREV] == Ptr(t[i - 1]) {
      var j := if i < k then i else i + 1;
      assert ram'[list[j]][PREV] == ram[list[if j == k + 1 then k else j]][PREV];
    }
  }

  // The stores that unlink element k
  function UnlinkStores(ram: Ram, list: seq<nat>, k: nat): Ram
    requires k < |list| && forall p :: p in list ==> p in ram
  {
    var p := list[k];
    var ram1 := if k + 1 == |list| then ram
                else ram[list[k + 1] := ram[list[k + 1]][PREV := if k == 0 then 0 else ram[p][PREV]]];
    if k == 0 then ram1 else ram1[list[k - 1] := ram1[list[k - 1]][NEXT := ram[p][NEXT]]]
  }

  lemma UnlinkIs(ram: Ram, list: seq<nat>, k: nat)
    requires k < |list| && forall p :: p in list ==> p in ram
    ensures var p := list[k];
      && UnlinkStores(ram, list, k).Keys == ram.Keys
      && (k + 1 == |list| && k == 0 ==> UnlinkStores(ram, list, k) == ram)
      && (k + 1 < |list| && k == 0 ==> UnlinkStores(ram, list, k) == ram[list[1] := ram[list[1]][PREV := 0]])
      && (k + 1 == |list| && k > 0 ==>
           UnlinkStores(ram, list, k) == ram[list[k - 1] := ram[list[k - 1]][NEXT := ram[p][NEXT]]])
      && (k + 1 < |list| && k > 0 ==>
           var ram1 := ram[list[k + 1] := ram[list[k + 1]][PREV := ram[p][PREV]]];
           UnlinkStores(ram, list, k) == ram1[list[k - 1] := ram1[list[k - 1]][NEXT := ram[p][NEXT]]])
  {
  }

  // What those stores make of one frame
  lemma UnlinkedFrame(ram: Ram, list: seq<nat>, k: nat, f: nat)
    requires k < |list| && Distinct(list) && f in ram && forall p :: p in list ==> p in ram
    ensures var ram' := UnlinkStores(ram, list, k);
      && ram'.Keys == ram.Keys
      && ram'[f] == if k + 1 < |list| && f == list[k + 1] then ram[f][PREV := if k == 0 then 0 else ram[list[k]][PREV]]
                    else if k > 0 && f == list[k - 1] then ram[f][NEXT := ram[list[k]][NEXT]]
                    else ram[f]
  {
  }

  lemma UnlinkDone(ram: Ram, ram': Ram, b: Book, k: nat)
    requires Distinct(b.list) && k < |b.list|
    requires forall p :: p in b.list ==> p in ram && p in b.pools
    requires SameExcept(UnlinkStores(ram, b.list, k), ram', {b.list[k]})
    ensures Unlinked(ram, ram', b.list, k) && OnlyLinks(ram, ram', b.list[k], b.pools)
    ensures ram'.Keys == ram.Keys
  {
    var list := b.list;
    hide UnlinkStores;
    UnlinkedFrame(ram, list, k, list[k]);
    assert OnlyLinks(ram, ram', list[k], b.pools) by {
      forall f | f in ram ensures f == list[k] || ram'[f] == ram[f] || (f in b.pools && SameHeader(ram[f], ram'[f])) {
        UnlinkedFrame(ram, list, k, f);
      }
    }
    hide OnlyLinks, SameHeader;
    forall i | 0 <= i < |list| && i != k
      ensures ram'[list[i]][NEXT] == ram[list[if i + 1 == k then k else i]][NEXT]
      ensures i > 0 && (k > 0 || i > 1) ==> ram'[list[i]][PREV] == ram[list[if i == k + 1 then k else i]][PREV]
    {
      UnlinkedFrame(ram, list, k, list[i]);
    }
  }

  // The links around element k, as the code reads them
  lemma LinksAt(ram: Ram, size: nat, top: Word, head: Word, b: Book, k: nat)
    requires Core(ram, size, top, head, b) && k < |b.list|
    ensures var p := b.list[k];
      && p in b.list && p in b.pools && p in ram && ChunkOf(p) == p
      && (head == Ptr(p) <==> k == 0)
      && (ram[p][NEXT] == 0 <==> k + 1 == |b.list|)
      && (k + 1 < |b.list| ==> FrameOf(ram[p][NEXT]) == b.list[k + 1] && b.list[k + 1] in ram)
      && (k > 0 ==> ram[p][PREV] != 0 && FrameOf(ram[p][PREV]) == b.list[k - 1] && b.list[k - 1] in ram)
    ensures forall p :: p in b.list ==> p in ram && p in b.pools
    ensures ListAt(ram, head, b.list) && Distinct(b.list) && Chunk(b.list[k]) !in b.owned
  {
    hide StackAt, PoolAt, FrameOf, PoolsAt;
    forall p | p in b.list ensures p in ram {}
    var p := b.list[k];
    assert p in b.managed;
    ChunkOfUnique(p, p);
    assert b.list[0] in ram && FrameOf(Ptr(b.list[0])) == b.list[0] && FrameOf(Ptr(p)) == p;
    if k > 0 { assert b.list[k - 1] in b.list; }
    if k + 1 < |b.list| { assert b.list[k + 1] in b.list; }
  }

  lemma PoolBecomesChunk(b: Book, b': Book, p: nat)
    requires Partition(b) && PagesOut(b) && p in b.pools
    requires forall f :: !Out(p, b.pools[p], f)
    requires b' == b.(pools := b.pools - {p}, list := b'.list, owned := b.owned + {Chunk(p)})
    ensures Partition(b') && PagesOut(b')
  {
    forall g ensures Page(g) in b'.owned <==> ChunkOf(g) in b'.pools && Out(ChunkOf(g), b'.pools[ChunkOf(g)], g) {
      assert Page(g) in b.owned <==> ChunkOf(g) in b.pools && Out(ChunkOf(g), b.pools[ChunkOf(g)], g);
    }
  }

  // A full pool leaves the list and is a chunk again, in the hands of the allocator's own caller.
  lemma PoolReleased(ram: Ram, ram': Ram, size: nat, top: Word, head: Word, head': Word, b: Book, b': Book, p: nat,
      k: nat)
    requires Core(ram, size, top, head, b) && k < |b.list| && p == b.list[k]
    requires forall f :: !Out(p, b.pools[p], f)
    requires OnlyLinks(ram, ram', p, b.pools)
    requires ListAt(ram', head', Without(b.list, k))
    requires b' == b.(pools := b.pools - {p}, list := Without(b.list, k), owned := b.owned + {Chunk(p)})
    ensures Core(ram', size, top, head', b')
    ensures Unchanged(ram, ram', b.owned)
  {
    hide Ptr, FrameOf, Link, StackAt, PoolAt, SameHeader, Out, Held, Unchanged, OnlyLinks, Without;
    assert Distinct(b.list);
    hide ListAt, Distinct;
    assert p in b.list && p in b.pools;
    PoolBecomesChunk(b, b', p);
    WithoutAt(b.list, k);
    hide Partition, PagesOut, RamOk;
    LinksChange(ram, ram', p, size, top, b);
    LinksNotHeld(ram, ram', p, b);
  }

  // ---------------------------------------------------------------------------------------------
  // Counting: free-stack size + outstanding frames = (implicit_next - pool) / 4KiB - 1

  function Interval(lo: nat, hi: nat): (r: set<nat>)
    ensures forall f :: f in r <==> lo < f < hi
    ensures |r| == if lo < hi then hi - lo - 1 else 0
    decreases hi
  {
    if hi <= lo + 1 then {} else Interval(lo, hi - 1) + {hi - 1}
  }

  function OutSet(p: nat, q: Pool): (out: set<nat>)
    ensures forall f :: f in out <==> Out(p, q, f)
  {
    set f | f in Interval(p, q.bump) && f !in q.free
  }

  lemma PoolCount(p: nat, q: Pool)
    requires p < q.bump <= p + 512 && Distinct(q.free) && forall f :: f in q.free ==> p < f < q.bump
    ensures |q.free| + |OutSet(p, q)| == q.bump - p - 1 <= 511
    ensures |q.free| == 511 <==> q.bump == p + 512 && OutSet(p, q) == {}
  {
    var free := set f | f in q.free;
    DistinctSize(q.free, free);
    assert free + OutSet(p, q) == Interval(p, q.bump) && free !! OutSet(p, q);
    hide Interval, OutSet, Out, Distinct;
  }

  // ---------------------------------------------------------------------------------------------
  // When freeing goes wrong

  // MASK_2MIB(PHYS_TO_VIRT(ptr)), as a frame number
  function ChunkAt(ptr: nat): nat {
    ChunkOf(FrameOf(PhysToVirt(ptr)))
  }

  // The kernel pointer PHYS_TO_VIRT makes of ptr lies in the kernel's map of physical memory.
  predicate Mapped(ram: Ram, ptr: nat) {
    PhysToVirt(ptr) >= KERNEL_BASE && ChunkAt(ptr) in ram
  }

  lemma MappedKeys()
    ensures forall ram: Ram, ram': Ram, ptr :: ram.Keys == ram'.Keys ==> (Mapped(ram, ptr) <==> Mapped(ram', ptr))
  {
  }

  lemma ChunkAddressMapped(ram: Ram, c: nat)
    requires c in ram && c < MAX_FRAMES && c % 512 == 0
    ensures ChunkAt(c * PAGE_BYTES) == c && Mapped(ram, c * PAGE_BYTES)
  {
    PtrIsVirtual(c);
  }

  // The head of the pool list, as phys_alloc_4KIB finds it
  lemma HeadPool(ram: Ram, size: nat, top: Word, head: Word, b: Book)
    requires Core(ram, size, top, head, b)
    ensures head == 0 <==> b.list == []
    ensures b.list != [] ==> var p := b.list[0];
      && Distinct(b.list) && p in b.list && p in b.pools && p in ram && FrameOf(head) == p && p + 512 <= MAX_FRAMES
      && PoolAt(ram, p, b.pools[p], true) && (Listed(b) ==> !Exhausted(p, b.pools[p]))
  {
    if b.list != [] {
      var p := b.list[0];
      assert p in b.list && p in b.managed;
      assert p + 511 in ram;
    }
  }

  // Which books the allocator leaves behind
  ghost predicate Steady(b: Book) {
    Listed(b) && NoneFull(b)
  }

  lemma SteadyTaken(b: Book, b': Book, p: nat, q: Pool, f: nat)
    requires Listed(b) && b.list != [] && p == b.list[0] && Distinct(b.list)
    requires NoneFull(b) && Out(p, q, f)
    requires b'.pools == b.pools[p := q] && b'.list == if Exhausted(p, q) then b.list[1..] else b.list
    ensures Steady(b')
  {
    assert forall x :: x in b.list <==> x == p || x in b.list[1..];
    forall x | x in b'.pools && b'.pools[x].bump == x + 512 ensures exists g :: Out(x, b'.pools[x], g) {
      if x == p { assert Out(x, b'.pools[x], f); } else {
        var g :| Out(x, b.pools[x], g);
        assert Out(x, b'.pools[x], g);
      }
    }
  }

  // A chunk just taken becomes the only pool of the list.
  lemma NewPoolBook(b0: Book, b: Book, b': Book, p: nat)
    requires Partition(b0) && Steady(b0) && b0.list == [] && b0.chunks != [] && p == b0.chunks[0]
    requires b == b0.(chunks := b0.chunks[1..], owned := b0.owned + {Chunk(p)})
    requires b' == b.(pools := b.pools[p := Pool([], p + 1)], list := [p], owned := b.owned - {Chunk(p)})
    ensures b'.owned == b0.owned && p !in b0.pools && Chunk(p) !in b0.owned && Steady(b')
  {
    assert p in b0.chunks;
    hide Partition;
    SteadyNew(b, b', p);
  }

  lemma SteadyNew(b: Book, b': Book, p: nat)
    requires Listed(b) && NoneFull(b) && p !in b.pools && b.list == []
    requires b'.pools == b.pools[p := Pool([], p + 1)] && b'.list == [p]
    ensures Steady(b')
  {
    forall x | x in b'.pools && b'.pools[x].bump == x + 512 ensures exists g :: Out(x, b'.pools[x], g) {
      var g :| Out(x, b.pools[x], g);
      assert Out(x, b'.pools[x], g);
    }
  }

  // Whatever clients do to the frames they hold, free lists and pool headers stay as they are.
  lemma ClientWrites(ram: Ram, ram': Ram, size: nat, top: Word, head: Word, b: Book)
    requires Core(ram, size, top, head, b)
    requires ram'.Keys == ram.Keys && forall f :: f in ram && !Held(b.owned, f) ==> ram'[f] == ram[f]
    ensures Core(ram', size, top, head, b)
  {
    HeldIsApart(b);
    hide Held, Ptr, FrameOf, Partition, PagesOut;
    assert RamOk(ram', b.managed);
    StackFrame(ram, ram', size, top, b.chunks);
    hide StackAt;
    forall p | p in b.pools ensures PoolAt(ram', p, b.pools[p], p in b.list) {
      assert PoolAt(ram, p, b.pools[p], p in b.list);
      PoolFrame(ram, ram', p, b.pools[p], p in b.list);
    }
    hide PoolAt, RamOk;
    ListFrame(ram, ram', head, b.list);
  }

  // A frame of no chunk the allocator manages
  ghost predicate Outside(b: Book, f: nat) {
    forall c: nat :: c in b.managed ==> !(c <= f < c + 512)
  }

  // What the kernel writes elsewhere does not concern the allocator.
  lemma OutsideWrites(ram: Ram, ram': Ram, size: nat, top: Word, head: Word, b: Book, f: nat)
    requires Core(ram, size, top, head, b) && Outside(b, f)
    requires ram'.Keys == ram.Keys && forall g :: g in ram && g != f ==> ram'[g] == ram[g]
    ensures Core(ram', size, top, head, b)
  {
    hide Ptr, FrameOf, PagesOut;
    assert RamOk(ram', b.managed);
    forall c | c in b.chunks ensures c in ram' && ram'[c] == ram[c] { assert c in b.managed; }
    StackFrame(ram, ram', size, top, b.chunks);
    hide StackAt;
    forall p | p in b.pools ensures p != f && p in ram && PoolAt(ram', p, b.pools[p], p in b.list) {
      assert p in b.managed && PoolAt(ram, p, b.pools[p], p in b.list);
      PoolFrame(ram, ram', p, b.pools[p], p in b.list);
    }
    hide PoolAt, RamOk;
    ListFrame(ram, ram', head, b.list);
  }

  // Chunks the allocator gives out are aligned.
  ghost predicate Aligned(s: set<Own>) {
    forall c :: Chunk(c) in s ==> c % 512 == 0
  }

  ghost predicate PagesIn(ram: Ram, s: set<Own>) {
    forall f: nat :: Page(f) in s ==> 0 < f < MAX_FRAMES && f in ram && Chunk(ChunkOf(f)) !in s
  }

  ghost predicate ChunkIn(ram: Ram, c: nat) {
    forall f: nat :: c <= f < c + 512 ==> f in ram && f < MAX_FRAMES
  }

  ghost predicate ChunksIn(ram: Ram, s: set<Own>) {
    forall c: nat :: Chunk(c) in s ==> ChunkIn(ram, c)
  }

  // What clients hold is memory, and no frame is held twice.
  ghost predicate Sound(ram: Ram, s: set<Own>) {
    Aligned(s) && PagesIn(ram, s) && ChunksIn(ram, s)
  }

  lemma OwnedSound(ram: Ram, size: nat, top: Word, head: Word, b: Book)
    requires Core(ram, size, top, head, b)
    ensures Sound(ram, b.owned)
  {
    hide StackAt, PoolsAt, ListAt, RamOk, Partition, PagesOut;
    OwnedPages(ram, b);
    OwnedChunks(ram, b);
    hide PagesIn, ChunksIn, Aligned;
  }

  lemma OwnedPages(ram: Ram, b: Book)
    requires RamOk(ram, b.managed) && Partition(b) && PagesOut(b)
    ensures PagesIn(ram, b.owned)
  {
    forall f: nat | Page(f) in b.owned ensures 0 < f < MAX_FRAMES && f in ram && Chunk(ChunkOf(f)) !in b.owned {
      assert ChunkOf(f) in b.managed && f in ram;
    }
  }

  lemma OwnedChunks(ram: Ram, b: Book)
    requires RamOk(ram, b.managed) && Partition(b)
    ensures Aligned(b.owned) && ChunksIn(ram, b.owned)
  {
    forall c: nat | Chunk(c) in b.owned ensures c in b.managed && ChunkIn(ram, c) {
      assert c in b.managed;
      ManagedIn(ram, b.managed, c);
    }
  }

  lemma ManagedIn(ram: Ram, managed: set<nat>, c: nat)
    requires RamOk(ram, managed) && c in managed
    ensures ChunkIn(ram, c)
  {
    forall f: nat | c <= f < c + 512 ensures f in ram && f < MAX_FRAMES {
      assert f in ram;
    }
  }

  lemma SteadySame(b: Book, b': Book)
    requires Steady(b) && b'.pools == b.pools && b'.list == b.list
    ensures Steady(b')
  {
  }

  lemma ChunkAddress(ram: Ram, size: nat, top: Word, head: Word, b: Book, c: nat)
    requires Core(ram, size, top, head, b) && Chunk(c) in b.owned
    ensures c in ram && ChunkAt(c * PAGE_BYTES) == c && Mapped(ram, c * PAGE_BYTES)
    ensures size == 0 ==> top == 0
  {
    ChunkAddressMapped(ram, c);
  }

  // Adding KERNEL_BASE to a kernel pointer leaves the kernel's map: phys_free_2MIB(pool) faults.
  lemma PoolPointerNotMapped(ram: Ram, p: nat)
    requires p < MAX_FRAMES
    ensures !Mapped(ram, Ptr(p))
  {
  }

  // The frames in gone are all that is out of a pool that has handed out every frame once.
  predicate Drained(p: nat, q: Pool, gone: set<Own>) {
    q.bump == p + 512 && forall f | p < f < q.bump :: Out(p, q, f) ==> Page(f) in gone
  }

  // phys_free_4KIB as written cannot take back these frames: the pool list is empty, or one pool would be full.
  predicate Blocked(b: Book, gone: set<Own>) {
    !b.repaired && (b.list == [] || exists p | p in b.pools :: Drained(p, b.pools[p], gone))
  }

  // A pool at frame 512 that has given out all its frames and got all but frame 513 back
  function AllButOne(): Pool {
    Pool(seq(510, i requires 0 <= i < 510 => 514 + i), 1024)
  }

  // Freeing that one fails.
  lemma BlockedExample()
    ensures Blocked(Book([], map[512 := AllButOne()], [512], {Page(513)}, {512}, false), {Page(513)})
  {
    var q := AllButOne();
    forall f | 514 <= f < 1024 ensures f in q.free { assert q.free[f - 514] == f; }
    assert Drained(512, q, {Page(513)});
    var b := Book([], map[512 := q], [512], {Page(513)}, {512}, false);
    assert 512 in b.pools && b.pools[512] == q;
  }

  // ---------------------------------------------------------------------------------------------
  // Which frame is given out

  // A pool that is not exhausted gives out the frame that came back last, or else the first one it has never given out.
  function Given(q: Pool): nat {
    if q.free != [] then q.free[0] else q.bump
  }

  function Rest(q: Pool): Pool {
    if q.free != [] then Pool(q.free[1..], q.bump) else Pool([], q.bump + 1)
  }

  // Some pool or chunk can give one.
  predicate CanAlloc(b: Book) {
    if b.list == [] then b.chunks != [] else b.list[0] in b.pools
  }

  // With no pool on the list, the top chunk becomes one.
  ghost function Readied(b: Book): (r: Book)
    requires CanAlloc(b)
    ensures r.list != [] && r.list[0] in r.pools
  {
    if b.list != [] then b else
      var p := b.chunks[0];
      b.(chunks := b.chunks[1..], pools := b.pools[p := Pool([], p + 1)], list := [p])
  }

  // The head pool gives a frame, and leaves the list when that was its last.
  ghost function AfterTake(b: Book): Book
    requires b.list != [] && b.list[0] in b.pools
  {
    var p := b.list[0];
    var q := Rest(b.pools[p]);
    b.(pools := b.pools[p := q], list := if Exhausted(p, q) then b.list[1..] else b.list,
       owned := b.owned + {Page(Given(b.pools[p]))})
  }

  ghost function AfterAlloc(b: Book): Book
    requires CanAlloc(b)
  {
    AfterTake(Readied(b))
  }

  function Taken4Kib(b: Book): nat
    requires CanAlloc(b)
  {
    if b.list != [] then Given(b.pools[b.list[0]]) else b.chunks[0] + 1
  }

  // Frame f is the top of the free stack of the head pool; no other pool has part in it, and none grows.
  ghost predicate Popped(b: Book, b': Book, f: nat)
    requires b.list != [] && b.list[0] in b.pools
  {
    var p := b.list[0];
    var q := b.pools[p];
    && q.free != [] && f == q.free[0] && p in b'.pools && b'.pools[p].bump == q.bump
    && q.free == [f] + b'.pools[p].free
    && b'.pools - {p} == b.pools - {p} && b'.chunks == b.chunks
    && (b'.list == b.list || (b.list == [p] + b'.list && Exhausted(p, b'.pools[p])))
  }

  lemma AllocPops(b: Book)
    requires CanAlloc(b)
    ensures b.list != [] && b.pools[b.list[0]].free != [] ==> Popped(b, AfterAlloc(b), Taken4Kib(b))
    ensures AfterAlloc(b).owned == b.owned + {Page(Taken4Kib(b))} && AfterAlloc(b).managed == b.managed
  {
    hide Exhausted;
    if b.list != [] && b.pools[b.list[0]].free != [] {
      var b' := AfterAlloc(b);
      var p := b.list[0];
      assert b'.pools == b.pools[p := Rest(b.pools[p])];
      assert b'.pools - {p} == b.pools - {p};
    }
  }

  // The book after frame f has been taken back: on the free stack of its pool, or, when it was the last frame out,
  // the pool is a free chunk again.
  ghost function AfterFree(b: Book, f: nat): Book
    requires ChunkOf(f) in b.pools
  {
    var p := ChunkOf(f);
    var q := b.pools[p];
    if p in b.list && Drained(p, q, {Page(f)}) then
      b.(pools := b.pools - {p}, list := Without(b.list, IndexOf(b.list, p)), chunks := [p] + b.chunks,
         owned := b.owned - {Page(f)})
    else
      b.(pools := b.pools[p := Pool([f] + q.free, q.bump)],
         list := if p in b.list then b.list else [p] + b.list,
         owned := b.owned - {Page(f)})
  }

  // What becomes of pool and list when frame f is pushed back: pool_full is true exactly when f was the last
  // frame out, and then the pool is on the list.
  lemma FreeOutcome(b: Book, f: nat)
    requires Partition(b) && PagesOut(b) && Page(f) in b.owned && Steady(b) && Distinct(b.list)
    requires forall c :: c in b.managed ==> c % 512 == 0
    requires var p := ChunkOf(f); var q := Pool([f] + b.pools[p].free, b.pools[p].bump);
      p < q.bump <= p + 512 && Distinct(q.free) && forall g :: g in q.free ==> p < g < q.bump
    ensures var p := ChunkOf(f); var full := |b.pools[p].free| + 1 == 511;
      && (full <==> Drained(p, b.pools[p], {Page(f)}))
      && (full ==> p in b.list && forall g :: !Out(p, Pool([f] + b.pools[p].free, b.pools[p].bump), g))
      && (Blocked(b, {Page(f)}) <==> !b.repaired && (b.list == [] || full))
      && Steady(AfterFree(b, f))
  {
    var p := ChunkOf(f);
    var q := b.pools[p];
    var q' := Pool([f] + q.free, q.bump);
    PoolCount(p, q');
    assert forall g :: Out(p, q', g) <==> Out(p, q, g) && g != f;
    assert |q'.free| == 511 <==> Drained(p, q, {Page(f)});
    forall x | x in b.pools && Drained(x, b.pools[x], {Page(f)}) ensures x == p {
      var g :| Out(x, b.pools[x], g);
      ChunkOfUnique(x, f);
    }
    if |q'.free| == 511 {
      assert p in b.list;
      ReleasedSteady(b, f);
    } else if q.bump == p + 512 {
      var g :| g in OutSet(p, q');
      PushedSteady(b, f, g);
    } else {
      PushedSteady(b, f, f);
    }
  }

  lemma PushedSteady(b: Book, f: nat, g: nat)
    requires Steady(b) && ChunkOf(f) in b.pools && !Drained(ChunkOf(f), b.pools[ChunkOf(f)], {Page(f)})
    requires var p := ChunkOf(f); b.pools[p].bump == p + 512 ==> Out(p, Pool([f] + b.pools[p].free, b.pools[p].bump), g)
    ensures Steady(AfterFree(b, f))
  {
    var b' := AfterFree(b, f);
    forall x | x in b'.pools && b'.pools[x].bump == x + 512 ensures exists h :: Out(x, b'.pools[x], h) {
      if x == ChunkOf(f) { assert Out(x, b'.pools[x], g); } else {
        var h :| Out(x, b.pools[x], h);
        assert Out(x, b'.pools[x], h);
      }
    }
  }

  lemma ReleasedSteady(b: Book, f: nat)
    requires Steady(b) && ChunkOf(f) in b.pools && ChunkOf(f) in b.list && Distinct(b.list)
    requires Drained(ChunkOf(f), b.pools[ChunkOf(f)], {Page(f)})
    ensures Steady(AfterFree(b, f))
  {
    var b' := AfterFree(b, f);
    WithoutAt(b.list, IndexOf(b.list, ChunkOf(f)));
    hide Without;
    forall x | x in b'.pools && b'.pools[x].bump == x + 512 ensures exists h :: Out(x, b'.pools[x], h) {
      var h :| Out(x, b.pools[x], h);
      assert Out(x, b'.pools[x], h);
    }
  }

  lemma PoolRange(ram: Ram, p: nat, q: Pool, listed: bool, f: nat)
    requires PoolAt(ram, p, q, listed) && Out(p, q, f)
    ensures var q' := Pool([f] + q.free, q.bump);
      p in ram && p < q.bump <= p + 512 && Distinct(q'.free) && forall g :: g in q'.free ==> p < g < q.bump
  {
    hide Ptr, FrameOf, Link;
  }

  // What phys_free_4KIB hands to phys_free_2MIB
  predicate PointerIs(p: nat, arg: nat, repaired: bool) {
    arg == if repaired then p * PAGE_BYTES else Ptr(p)
  }

  lemma PointerCases(p: nat, arg: nat, repaired: bool)
    requires arg == if repaired then p * PAGE_BYTES else Ptr(p)
    ensures PointerIs(p, arg, repaired)
  {
  }

  // phys_free_2MIB(pool) faults; with the physical address of the pool it works.
  lemma PoolPointers(ram: Ram, p: nat, arg: nat, repaired: bool)
    requires p < MAX_FRAMES && p % 512 == 0 && p in ram && PointerIs(p, arg, repaired)
    ensures (Mapped(ram, arg) <==> repaired) && (Mapped(ram, arg) ==> arg == p * PAGE_BYTES)
  {
    PoolPointerNotMapped(ram, p);
    ChunkAddressMapped(ram, p);
    hide Mapped;
  }

  // The book after a free, from the book after the push
  lemma AfterFreeIs(b: Book, b1: Book, f: nat)
    requires ChunkOf(f) in b.pools
    requires var p := ChunkOf(f);
      b1 == b.(pools := b.pools[p := Pool([f] + b.pools[p].free, b.pools[p].bump)], owned := b.owned - {Page(f)})
    ensures var p := ChunkOf(f);
      AfterFree(b, f) ==
        if p in b.list && Drained(p, b.pools[p], {Page(f)}) then
          b1.(pools := b1.pools - {p}, list := Without(b1.list, IndexOf(b1.list, p)), chunks := [p] + b1.chunks)
        else if p in b.list then b1 else b1.(list := [p] + b1.list)
  {
    hide Drained, Without;
    var p := ChunkOf(f);
    assert b1.pools - {p} == b.pools - {p};
  }

  // What phys_free_4KIB finds when a client hands it one of its frames
  lemma PageBack(ram: Ram, size: nat, top: Word, head: Word, b: Book, f: nat)
    requires Core(ram, size, top, head, b) && Steady(b) && Page(f) in b.owned
    ensures var p := ChunkOf(f);
      && p in b.pools && p in ram && f in ram && p < MAX_FRAMES && p % 512 == 0
      && PoolAt(ram, p, b.pools[p], p in b.list) && Out(p, b.pools[p], f)
      && (head == 0 <==> b.list == [])
    ensures var p := ChunkOf(f); var full := |b.pools[p].free| + 1 == 511;
      && (full <==> Drained(p, b.pools[p], {Page(f)}))
      && (full ==> p in b.list && forall g :: !Out(p, Pool([f] + b.pools[p].free, b.pools[p].bump), g))
      && (Blocked(b, {Page(f)}) <==> !b.repaired && (b.list == [] || full))
      && Steady(AfterFree(b, f))
  {
    HeadPool(ram, size, top, head, b);
    var p := ChunkOf(f);
    assert p in b.managed && f in ram;
    assert PoolAt(ram, p, b.pools[p], p in b.list);
    PoolRange(ram, p, b.pools[p], p in b.list, f);
    hide PoolAt, StackAt, ListAt, Ptr, FrameOf, RamOk, PoolsAt, Distinct;
    FreeOutcome(b, f);
  }

  // Frame f is back on the free stack of its pool, and the pool's place on the list is still to be settled.
  ghost predicate PushDone(ram: Ram, b: Book, b1: Book, f: nat) {
    var p := ChunkOf(f);
    && p in b.pools && b1 == b.(pools := b.pools[p := Pool([f] + b.pools[p].free, b.pools[p].bump)],
      owned := b.owned - {Page(f)})
    && p in ram && p < MAX_FRAMES && p % 512 == 0 && PoolAt(ram, p, b1.pools[p], p in b.list)
    && (|b1.pools[p].free| == 511 ==> p in b.list && forall g :: !Out(p, b1.pools[p], g))
    && (|b1.pools[p].free| == 511 <==> Drained(p, b.pools[p], {Page(f)}))
    && Steady(AfterFree(b, f))
  }

  lemma PushParts(ram: Ram, b: Book, b1: Book, f: nat)
    requires PushDone(ram, b, b1, f)
    ensures var p := ChunkOf(f);
      && p in b.pools && b1 == b.(pools := b.pools[p := Pool([f] + b.pools[p].free, b.pools[p].bump)],
        owned := b.owned - {Page(f)})
      && p in b1.pools && p in ram && p < MAX_FRAMES && p % 512 == 0 && PoolAt(ram, p, b1.pools[p], p in b.list)
      && (|b1.pools[p].free| == 511 ==> p in b.list && forall g :: !Out(p, b1.pools[p], g))
      && (|b1.pools[p].free| == 511 <==> Drained(p, b.pools[p], {Page(f)}))
      && Steady(AfterFree(b, f))
  {
    hide PoolAt, Drained, Steady, AfterFree, Out;
  }

  lemma PushIsDone(ram: Ram, size: nat, top: Word, head: Word, b: Book, f: nat, ram1: Ram, b1: Book)
    requires Core(ram, size, top, head, b) && Steady(b) && Page(f) in b.owned && ChunkOf(f) in b.pools
    requires var p := ChunkOf(f); var q := Pool([f] + b.pools[p].free, b.pools[p].bump);
      b1 == b.(pools := b.pools[p := q], owned := b.owned - {Page(f)}) && p in ram1 && PoolAt(ram1, p, q, p in b.list)
    ensures PushDone(ram1, b, b1, f)
    ensures Blocked(b, {Page(f)}) <==> !b.repaired && (head == 0 || Drained(ChunkOf(f), b.pools[ChunkOf(f)], {Page(f)}))
  {
    hide Core, Steady, PoolAt, Drained, Blocked, AfterFree, Out;
    PageBack(ram, size, top, head, b, f);
  }

  // What pushing frame f needs
  lemma PushReady(ram: Ram, size: nat, top: Word, head: Word, b: Book, f: nat)
    requires Core(ram, size, top, head, b) && Steady(b) && Page(f) in b.owned
    ensures var p := ChunkOf(f);
      p in b.pools && p in ram && f in ram && PoolAt(ram, p, b.pools[p], p in b.list) && Out(p, b.pools[p], f)
  {
    hide *;
    PageBack(ram, size, top, head, b, f);
  }

  // Freeing one frame of a set leaves the fate of the rest as it was for the whole set.
  lemma BlockedStep(b: Book, f: nat, gone: set<Own>)
    requires Partition(b) && PagesOut(b) && Page(f) in b.owned && Page(f) in gone && !Blocked(b, {Page(f)})
    requires forall c :: c in b.managed ==> c % 512 == 0
    ensures Blocked(b, gone) <==> Blocked(AfterFree(b, f), gone - {Page(f)})
  {
    if b.repaired { return; }
    var b' := AfterFree(b, f);
    var rest := gone - {Page(f)};
    forall p | p in b.pools
      ensures p in b'.pools && (Drained(p, b.pools[p], gone) <==> Drained(p, b'.pools[p], rest))
    {
      forall g | p < g < p + 512 ensures ChunkOf(g) == p { ChunkOfUnique(p, g); }
      assert forall g | p < g < p + 512 :: (Out(p, b.pools[p], g) ==> Page(g) in gone) <==>
        (Out(p, b'.pools[p], g) ==> Page(g) in rest);
    }
  }

  lemma BlockedMore(b: Book, gone: set<Own>, more: set<Own>)
    requires Blocked(b, gone) && gone <= more
    ensures Blocked(b, more)
  {
    if b.list != [] {
      var p :| p in b.pools && Drained(p, b.pools[p], gone);
      assert Drained(p, b.pools[p], more);
    }
  }

  // Chunks have no part in it.
  lemma BlockedChunk(b: Book, b': Book, c: nat, gone: set<Own>)
    requires b'.pools == b.pools && b'.list == b.list && b'.repaired == b.repaired
    ensures Blocked(b, gone) <==> Blocked(b', gone - {Chunk(c)})
  {
    forall p | p in b.pools ensures Drained(p, b.pools[p], gone) <==> Drained(p, b.pools[p], gone - {Chunk(c)}) {
    }
  }

  lemma AfterFreeListed(b: Book, f: nat)
    requires ChunkOf(f) in b.pools && !Blocked(b, {Page(f)})
    ensures var b' := AfterFree(b, f);
      && b'.owned == b.owned - {Page(f)} && b'.managed == b.managed && (b'.repaired || b'.list != [])
      && (b'.repaired || (ChunkOf(f) in b'.pools && f in b'.pools[ChunkOf(f)].free))
  {
    hide Without;
  }

  lemma BlockedByNothing(b: Book)
    requires Steady(b)
    ensures Blocked(b, {}) <==> !b.repaired && b.list == []
  {
  }

  // The frame is free in its pool.
  predicate OnStack(b: Book, f: nat) {
    ChunkOf(f) in b.pools && f in b.pools[ChunkOf(f)].free
  }

  // (A repaired allocator may have turned the pool back into a chunk.)
  predicate Stacked(b: Book, f: nat) {
    b.repaired || OnStack(b, f)
  }

  // What a freed frame still holds: everything but the link of the stack in its first word. A link is even.
  predicate Remains(ws: Frame, ws': Frame) {
    ws' == ws[0 := ws'[0]] && ws'[0] % 2 == 0
  }

  // Frame f has been pushed; apart from it, only pool headers have changed.
  ghost predicate Pushed(ram: Ram, ram': Ram, b: Book, f: nat) {
    && ram'.Keys == ram.Keys && f in ram && Remains(ram[f], ram'[f])
    && forall g :: g in ram && g != f && g !in b.pools ==> ram'[g] == ram[g]
  }

  ghost predicate SameFramesOutside(ram: Ram, ram': Ram, pools: set<nat>) {
    ram'.Keys == ram.Keys && forall g :: g in ram && g !in pools ==> ram'[g] == ram[g]
  }

  lemma PushedThen(ram: Ram, ram1: Ram, ram2: Ram, b: Book, f: nat)
    requires f in ram && ChunkOf(f) in b.pools && f !in b.pools && SameExcept(ram, ram1, {ChunkOf(f), f})
    requires Remains(ram[f], ram1[f]) && SameFramesOutside(ram1, ram2, b.pools.Keys)
    ensures Pushed(ram, ram2, b, f)
  {
    hide Remains;
  }

  lemma NoneChanged(ram: Ram, pools: set<nat>)
    ensures SameFramesOutside(ram, ram, pools)
  {
  }

  // A frame that is out is no pool header.
  lemma OutIsNoPool(ram: Ram, size: nat, top: Word, head: Word, b: Book, f: nat)
    requires Core(ram, size, top, head, b) && Page(f) in b.owned
    ensures f !in b.pools
  {
    HeldIsApart(b);
    hide PoolAt, StackAt, ListAt;
    assert Held(b.owned, f);
  }

  // Frames on the free stacks are memory, no pool headers, and held by nobody.
  lemma StackedApart(ram: Ram, size: nat, top: Word, head: Word, b: Book)
    requires Core(ram, size, top, head, b)
    ensures forall g: nat :: OnStack(b, g) ==> g in ram && g !in b.pools && Page(g) !in b.owned
    ensures forall c: nat, g: nat :: OnStack(b, g) && Chunk(c) in b.owned ==> c != g
  {
    forall g: nat | OnStack(b, g) ensures g in ram && g !in b.pools && Page(g) !in b.owned {
      var p := ChunkOf(g);
      OnePool(ram, size, top, head, b, p);
      assert p in b.managed && p % 512 == 0;
      hide StackAt, ListAt;
      assert p < g < p + 512;
    }
    hide Core;
    forall c: nat, g: nat | OnStack(b, g) && Chunk(c) in b.owned ensures c != g {
      ChunkNotStacked(ram, size, top, head, b, c, g);
    }
  }

  lemma ChunkNotStacked(ram: Ram, size: nat, top: Word, head: Word, b: Book, c: nat, g: nat)
    requires Core(ram, size, top, head, b) && OnStack(b, g) && Chunk(c) in b.owned
    ensures c != g
  {
    var p := ChunkOf(g);
    OnePool(ram, size, top, head, b, p);
    assert p in b.managed && c in b.managed && c % 512 == 0 && p % 512 == 0;
    hide StackAt, ListAt;
    assert p < g < p + 512;
  }

  lemma TopEven(ram: Ram, p: nat, q: Pool, listed: bool)
    requires PoolAt(ram, p, q, listed)
    ensures ram[p][TOP] % 2 == 0
  {
    if q.free != [] { PtrEven(q.free[0]); }
    hide Ptr;
  }

  lemma PtrEven(f: nat)
    ensures Ptr(f) % 2 == 0
  {
    assert Ptr(f) == 2 * (0x7FFF_C000_0000_0000 + 0x800 * f);
  }

  // A chunk pushed a second time is no better.
  lemma ChunkTwiceBreaks(ram: Ram, size: nat, top: Word, head: Word, b: Book, c: nat, ram': Ram, top': Word,
      head': Word,
                         b': Book)
    requires Core(ram, size, top, head, b) && c in b.chunks && c in ram
    requires ram' == ram[c := ram[c][0 := if size == 0 then 0 else top]] && top' == Ptr(c)
    ensures !Core(ram', size + 1, top', head', b')
  {
    hide PoolsAt, ListAt, Partition, PagesOut;
    if Core(ram', size + 1, top', head', b') {
      assert 0 !in b.chunks by { assert 0 !in b.managed; ChunksManaged(b, ram, size, top, head); }
      FreedAgain(ram, size, top, b.chunks, c, ram', 0, b'.chunks);
      assert false;
    }
  }

  lemma ChunksManaged(b: Book, ram: Ram, size: nat, top: Word, head: Word)
    requires Core(ram, size, top, head, b)
    ensures forall c :: c in b.chunks ==> c in b.managed && c > 0
  {
    hide PoolsAt, ListAt, StackAt, PagesOut;
  }

  // A frame pushed a second time closes the free stack of its pool into a ring: what is then in memory is no stack
  // of any frames.
  lemma {:induction false} FreedAgain(ram: Ram, size: nat, top: Word, s: seq<nat>, f: nat, ram': Ram, p: nat,
      t: seq<nat>)
    requires StackAt(ram, size, top, s) && f in s && p !in s && f in ram && SameExcept(ram, ram', {f, p}) &&
      ram'[f][0] == top
    ensures !StackAt(ram', size + 1, Ptr(f), t)
  {
    if StackAt(ram', size + 1, Ptr(f), t) {
      var k := IndexOf(s, f);
      FirstIs(t, f);
      RingStep(ram, ram', size, top, s, f, p, t, k);
    }
  }

  lemma FirstIs(t: seq<nat>, f: nat)
    requires t != [] && Ptr(f) == Ptr(t[0])
    ensures t[0] == f
  {
  }

  lemma {:induction false} RingStep(ram: Ram, ram': Ram, size: nat, top: Word, s: seq<nat>, f: nat, p: nat,
      t: seq<nat>, k: nat)
    requires StackAt(ram, size, top, s) && SameExcept(ram, ram', {f, p}) && f in ram && ram'[f][0] == top && p !in s
    requires StackAt(ram', size + 1, Ptr(f), t) && t[0] == f && k < |s|
    requires forall i :: 0 <= i < k ==> s[i] != f
    ensures t[k + 1] == s[k]
  {
    if k == 0 {
      assert ram'[t[0]][0] == Link(t, 1);
    } else {
      RingStep(ram, ram', size, top, s, f, p, t, k - 1);
      assert t[k] == s[k - 1] && ram'[t[k]][0] == Link(t, k + 1) && ram[s[k - 1]][0] == Link(s, k);
    }
  }

  // pool_free of a frame that is on the free stack of its pool: afterwards memory agrees with no book in which the
  // pool is still a pool.
  lemma FreedTwiceBreaks(ram: Ram, size: nat, top: Word, head: Word, b: Book, f: nat,
                         ram': Ram, size': nat, top': Word, head': Word, b': Book)
    requires Core(ram, size, top, head, b) && ChunkOf(f) in b.pools && f in b.pools[ChunkOf(f)].free
    requires ChunkOf(f) in ram && f in ram
    requires var p := ChunkOf(f); var ram1 := ram[f := ram[f][0 := if ram[p][SIZE] == 0 then 0 else ram[p][TOP]]];
      ram' == ram1[p := ram1[p][SIZE := ram[p][SIZE] + 1][TOP := Ptr(f)]]
    ensures ChunkOf(f) in b'.pools ==> !Core(ram', size', top', head', b')
  {
    hide *;
    if ChunkOf(f) in b'.pools && Core(ram', size', top', head', b') {
      var p := ChunkOf(f);
      OnePool(ram, size, top, head, b, p);
      OnePool(ram', size', top', head', b', p);
      TwiceStack(ram, p, b.pools[p], p in b.list, f, ram', b'.pools[p], p in b'.list);
    }
  }

  lemma OnePool(ram: Ram, size: nat, top: Word, head: Word, b: Book, p: nat)
    requires Core(ram, size, top, head, b) && p in b.pools
    ensures PoolAt(ram, p, b.pools[p], p in b.list)
  {
    hide PoolAt, StackAt, ListAt;
  }

  lemma TwiceStack(ram: Ram, p: nat, q: Pool, listed: bool, f: nat, ram': Ram, q': Pool, listed': bool)
    requires PoolAt(ram, p, q, listed) && f in q.free && f in ram
    requires var ram1 := ram[f := ram[f][0 := if ram[p][SIZE] == 0 then 0 else ram[p][TOP]]];
      ram' == ram1[p := ram1[p][SIZE := ram[p][SIZE] + 1][TOP := Ptr(f)]]
    ensures !PoolAt(ram', p, q', listed')
  {
    hide Ptr, FrameOf;
    FreedAgain(ram, ram[p][SIZE], ram[p][TOP], q.free, f, ram', p, q'.free);
    hide StackAt;
  }
}
