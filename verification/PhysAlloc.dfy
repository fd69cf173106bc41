// phys_alloc.c: the allocator's operations, as methods on the memory and its globals.
module PhysAlloc {
  import opened Lists
  import opened Words
  import opened PhysBook

  class PhysMem {
    var ram: Ram
    var size2M: nat      // stack_2MIB.size
    var top2M: Word      // stack_2MIB.top
    var pool4K: Word     // pool_4KIB
    const repaired: bool // which phys_free_4KIB runs
    ghost var book: Book

    ghost predicate Valid()
      reads this
    {
      Core(ram, size2M, top2M, pool4K, book) && Steady(book) && book.repaired == repaired
    }

    // stack_init and an empty pool list: nothing is managed yet.
    constructor (memory: Ram, fixed: bool)
      requires forall f :: f in memory ==> f < MAX_FRAMES
      ensures Valid() && ram == memory && book == Book([], map[], [], {}, {}, fixed)
    {
      ram := memory;
      size2M := 0;
      top2M := 0;
      pool4K := 0;
      repaired := fixed;
      book := Book([], map[], [], {}, {}, fixed);
      new;
      hide Ptr, FrameOf;
    }

    // setup_physical_allocator pushes one more chunk.
    method AddChunk(c: nat)
      requires Valid() && c > 0 && c % 512 == 0 && c !in book.managed
      requires forall f :: c <= f < c + 512 ==> f in ram
      modifies this`ram, this`size2M, this`top2M, this`book
      ensures Valid() && Unchanged(old(ram), ram, book.owned) && SameExcept(old(ram), ram, {c})
      ensures book == old(book).(chunks := [c] + old(book).chunks, managed := old(book).managed + {c})
    {
      ghost var b' := book.(chunks := [c] + book.chunks, managed := book.managed + {c});
      assert c in ram;
      hide *;
      ValidParts();
      StackTop(ram, size2M, top2M, pool4K, book);
      var size, top := StackPush(size2M, top2M, c);
      ChunkAdded(old(ram), ram, size2M, top2M, pool4K, book, b', c);
      SteadySame(book, b');
      size2M, top2M := size, top;
      book := b';
      MakeValid();
    }

    method Store(f: nat, i: nat, w: Word)
      requires f in ram && i < 512
      modifies this`ram
      ensures ram == old(ram)[f := old(ram)[f][i := w]]
    {
      ram := ram[f := ram[f][i := w]];
    }

    // The kernel stores a word into a frame that is not the allocator's to manage.
    method KernelStore(f: nat, i: nat, w: Word)
      requires Valid() && f in ram && Outside(book, f) && i < 512
      modifies this`ram
      ensures Valid() && ram == old(ram)[f := old(ram)[f][i := w]]
    {
      hide Core, Steady, Outside;
      Store(f, i, w);
      OutsideWrites(old(ram), ram, size2M, top2M, pool4K, book, f);
    }

    // stack_push
    method StackPush(size: nat, top: Word, node: nat) returns (size': nat, top': Word)
      requires node in ram
      modifies this`ram
      ensures ram == old(ram)[node := old(ram)[node][0 := if size == 0 then 0 else top]]
      ensures size' == size + 1 && top' == Ptr(node)
    {
      if size == 0 {
        Store(node, 0, 0);
        size' := 1;
      } else {
        Store(node, 0, top);
        size' := size + 1;
      }
      top' := Ptr(node);
    }

    // A client stores a word into a frame it holds.
    method ClientStore(f: nat, i: nat, w: Word)
      requires Valid() && f in ram && Held(book.owned, f) && i < 512
      modifies this`ram
      ensures Valid() && ram == old(ram)[f := old(ram)[f][i := w]]
    {
      hide Core, Steady;
      Store(f, i, w);
      ClientWrites(old(ram), ram, size2M, top2M, pool4K, book);
    }

    // memclr or memcpy of a whole frame a client holds
    method ClientFill(f: nat, ws: Frame)
      requires Valid() && f in ram && Held(book.owned, f)
      modifies this`ram
      ensures Valid() && ram == old(ram)[f := ws]
    {
      hide Core, Steady;
      ram := ram[f := ws];
      ClientWrites(old(ram), ram, size2M, top2M, pool4K, book);
    }

    // phys_alloc_2MIB
    method Alloc2Mib() returns (ok: bool, base: nat)
      requires Core(ram, size2M, top2M, pool4K, book)
      modifies this`size2M, this`top2M, this`book
      ensures Core(ram, size2M, top2M, pool4K, book)
      ensures ok <==> old(book).chunks != []
      ensures !ok ==> book == old(book)
      ensures ok ==> base == old(book).chunks[0] && base > 0 && base % 512 == 0
      ensures ok ==> book == old(book).(chunks := old(book).chunks[1..], owned := old(book).owned + {Chunk(base)})
      ensures ok ==> forall f :: base <= f < base + 512 ==> f in ram && ChunkOf(f) == base && !Held(old(book).owned, f)
    {
      if size2M == 0 {
        return false, 0;
      }
      hide Core;
      ghost var b' := book.(chunks := book.chunks[1..], owned := book.owned + {Chunk(book.chunks[0])});
      ChunkTaken(ram, size2M, top2M, pool4K, book, b');
      base := FrameOf(top2M);
      top2M := ram[base][0];
      size2M := size2M - 1;
      book := b';
      ok := true;
    }

    // phys_free_2MIB. The argument should be the physical address of a chunk; it becomes a kernel pointer
    // by adding KERNEL_BASE, whatever it was. A pointer outside the kernel's map faults (ok is false).
    method Free2Mib(ptr: nat, ghost c: nat) returns (ok: bool)
      requires Core(ram, size2M, top2M, pool4K, book)
      requires Mapped(ram, ptr) ==> ptr == c * PAGE_BYTES && Chunk(c) in book.owned
      modifies this`ram, this`size2M, this`top2M, this`book
      ensures ok <==> Mapped(old(ram), ptr)
      ensures ok ==> Core(ram, size2M, top2M, pool4K, book) && Unchanged(old(ram), ram, book.owned)
      ensures ok ==> SameExcept(old(ram), ram, {c})
      ensures ok ==> book == old(book).(chunks := [c] + old(book).chunks, owned := old(book).owned - {Chunk(c)})
    {
      if !Mapped(ram, ptr) {
        return false;
      }
      ghost var b' := book.(chunks := [c] + book.chunks, owned := book.owned - {Chunk(c)});
      ChunkAddress(ram, size2M, top2M, pool4K, book, c);
      hide *;
      var node := ChunkAt(ptr);
      var size, top := StackPush(size2M, top2M, node);
      ChunkGiven(old(ram), ram, size2M, top2M, pool4K, book, b', c);
      size2M, top2M := size, top;
      book := b';
      ok := true;
    }

    // pool_init
    method PoolInit(p: nat)
      requires p in ram
      modifies this`ram
      ensures SameExcept(old(ram), ram, {p})
      ensures PoolAt(ram, p, Pool([], p + 1), false)
      ensures ram[p][NEXT] == 0 && ram[p][PREV] == 0
    {
      hide Ptr, FrameOf;
      ram := ram[p := ram[p][SIZE := 0][TOP := 0][IMPLICIT_NEXT := Ptr(p + 1)][MAX_ADDRESS := Ptr(p + 512)]
                            [NEXT := 0][PREV := 0][ON_LIST := 0]];
    }

    // pool_empty
    method PoolEmpty(p: nat, ghost q: Pool, ghost listed: bool) returns (empty: bool)
      requires PoolAt(ram, p, q, listed)
      ensures empty <==> Exhausted(p, q)
    {
      empty := ram[p][SIZE] == 0 && ram[p][IMPLICIT_NEXT] >= ram[p][MAX_ADDRESS];
    }

    // pool_alloc
    method PoolAlloc(p: nat, ghost q: Pool, ghost listed: bool) returns (f: nat, ghost q': Pool)
      requires PoolAt(ram, p, q, listed) && !Exhausted(p, q) && p + 512 <= MAX_FRAMES
      modifies this`ram
      ensures SameExcept(old(ram), ram, {p})
      ensures p in ram && ram[p][NEXT] == old(ram)[p][NEXT] && ram[p][PREV] == old(ram)[p][PREV]
      ensures PoolAt(ram, p, q', listed) && f == Given(q) && q' == Rest(q)
      ensures !Out(p, q, f) && forall g :: Out(p, q', g) <==> Out(p, q, g) || g == f
    {
      ghost var ram0 := ram;
      PoolPopped(ram, p, q, listed);
      if q.free == [] { PoolBumped(ram, p, q, listed); }
      q' := Rest(q);
      assert Given(q) == FrameOf(if ram[p][SIZE] != 0 then ram[p][TOP] else ram[p][IMPLICIT_NEXT]);
      hide *;
      if ram[p][SIZE] != 0 {
        f := FrameOf(ram[p][TOP]);
        var next := ram[f][0];
        Store(p, TOP, next);
        Store(p, SIZE, ram[p][SIZE] - 1);
        assert ram == ram0[p := ram0[p][TOP := ram0[f][0]][SIZE := ram0[p][SIZE] - 1]];
      } else {
        f := FrameOf(ram[p][IMPLICIT_NEXT]);
        Store(p, IMPLICIT_NEXT, ram[p][IMPLICIT_NEXT] + PAGE_BYTES);
        assert ram == ram0[p := ram0[p][IMPLICIT_NEXT := ram0[p][IMPLICIT_NEXT] + PAGE_BYTES]];
      }
    }

    lemma OutIsBehind(p: nat, q: Pool, f: nat)
      requires Out(p, q, f)
      ensures f != p
    {
    }

    // pool_free
    method PoolFree(p: nat, f: nat, ghost q: Pool, ghost listed: bool)
      requires PoolAt(ram, p, q, listed) && Out(p, q, f) && f in ram
      modifies this`ram
      ensures SameExcept(old(ram), ram, {p, f})
      ensures p in ram && ram[p][NEXT] == old(ram)[p][NEXT] && ram[p][PREV] == old(ram)[p][PREV]
      ensures PoolAt(ram, p, Pool([f] + q.free, q.bump), listed) && f in ram && Remains(old(ram)[f], ram[f])
    {
      TopEven(ram, p, q, listed);
      OutIsBehind(p, q, f);
      hide PoolAt, Out, Ptr;
      PoolHere(ram, p, q, listed);
      var size, top := StackPush(ram[p][SIZE], ram[p][TOP], f);
      PoolPushed(old(ram), ram, p, q, listed, f);
      ghost var ram1 := ram;
      Store(p, SIZE, size);
      Store(p, TOP, top);
      assert ram == ram1[p := ram1[p][SIZE := size][TOP := top]];
    }

    // phys_alloc_4KIB, first part: with no pool to allocate from, split a chunk into a new one.
    method NewPool() returns (ok: bool)
      requires Valid() && book.list == []
      modifies this
      ensures ok <==> old(book).chunks != []
      ensures !ok ==> Valid() && book == old(book) && ram == old(ram)
      ensures ok ==> Valid() && Unchanged(old(ram), ram, book.owned)
      ensures ok ==> var p := old(book).chunks[0];
        && p !in old(book).pools
        && book == old(book).(chunks := old(book).chunks[1..], pools := old(book).pools[p := Pool([], p + 1)],
          list := [p])
    {
      hide Core, Steady, PoolAt, Partition, PagesOut, Unchanged, Held, Ptr, Valid;
      ghost var b0 := book;
      BookOk();
      ValidParts();
      var got, p := Alloc2Mib();
      if !got {
        MakeValid();
        return false;   // ASSERT(pool_4KIB != NULL)
      }
      ghost var b := book;
      ChunkHere(p);
      ghost var b' := b.(pools := b.pools[p := Pool([], p + 1)], list := [p], owned := b.owned - {Chunk(p)});
      NewPoolBook(b0, b, b', p);
      PoolInit(p);
      PoolMarked(ram, p, Pool([], p + 1));
      OneFrame(old(ram), ram, p, ram[p][ON_LIST := 1]);
      Store(p, ON_LIST, 1);
      ChunkSplit(old(ram), ram, size2M, top2M, pool4K, b, b', p);
      pool4K := Ptr(p);
      book := b';
      MakeValid();
      ok := true;
    }

    lemma ChunkHere(p: nat)
      requires Core(ram, size2M, top2M, pool4K, book) && Chunk(p) in book.owned
      ensures p in ram
    {
      OwnedSound(ram, size2M, top2M, pool4K, book);
    }

    lemma ValidParts()
      requires Valid()
      ensures Core(ram, size2M, top2M, pool4K, book) && Steady(book) && book.repaired == repaired
    {
      hide Core, Steady;
    }

    lemma MakeValid()
      requires Core(ram, size2M, top2M, pool4K, book) && Steady(book) && book.repaired == repaired
      ensures Valid()
    {
      hide Core, Steady;
    }

    // phys_alloc_4KIB, last part: the first pool leaves the list. The prev of the new head goes stale.
    method DropHead()
      requires Core(ram, size2M, top2M, pool4K, book) && book.list != []
      modifies this`ram, this`pool4K, this`book
      ensures Core(ram, size2M, top2M, pool4K, book) && Unchanged(old(ram), ram, book.owned)
      ensures book == old(book).(list := old(book).list[1..])
    {
      HeadPool(ram, size2M, top2M, pool4K, book);
      ghost var b := book;
      ghost var b' := b.(list := b.list[1..]);
      hide *;
      var p := FrameOf(pool4K);
      var next := ram[p][NEXT];
      PoolUnmarked(ram, p, b.pools[p]);
      SameFrames(ram);
      OneFrame(ram, ram, p, ram[p][ON_LIST := 0][NEXT := 0][PREV := 0]);
      ram := ram[p := ram[p][ON_LIST := 0][NEXT := 0][PREV := 0]];
      HeadDropped(old(ram), ram, size2M, top2M, pool4K, b, b', p);
      pool4K := next;
      book := b';
    }

    // phys_alloc_4KIB, second part: take a frame from the first pool of the list, and take the pool off
    // the list when that was its last.
    method TakePage() returns (frame: nat)
      requires Valid() && book.list != []
      modifies this`ram, this`pool4K, this`book
      ensures Valid() && Unchanged(old(ram), ram, old(book).owned)
      ensures !Held(old(book).owned, frame) && frame in ram
      ensures old(book).list[0] in old(book).pools && book == AfterTake(old(book))
      ensures frame == Given(old(book).pools[old(book).list[0]])
    {
      HeadPool(ram, size2M, top2M, pool4K, book);
      ghost var b := book;
      ghost var q := b.pools[b.list[0]];
      TakenBook(b, b.list[0], q);
      hide *;
      var p := FrameOf(pool4K);
      ghost var q';
      frame, q' := PoolAlloc(p, q, true);
      ghost var b1 := b.(pools := b.pools[p := q'], owned := b.owned + {Page(frame)});
      PageTaken(old(ram), ram, size2M, top2M, pool4K, b, b1, p, q', frame);
      book := b1;
      ghost var ram1 := ram;
      var empty := PoolEmpty(p, q', true);
      if empty {
        DropHead();
        UnchangedTwice(old(ram), ram1, ram, b.owned, b1.owned);
      }
      SteadyTaken(b, book, p, q', frame);
    }

    lemma TakenBook(b: Book, p: nat, q: Pool)
      requires b.list != [] && p == b.list[0] && p in b.pools && q == b.pools[p]
      ensures var b1 := b.(pools := b.pools[p := Rest(q)], owned := b.owned + {Page(Given(q))});
        AfterTake(b) == if Exhausted(p, Rest(q)) then b1.(list := b1.list[1..]) else b1
    {
      hide Exhausted, Rest, Given;
    }

    // phys_alloc_4KIB. Without a pool or a chunk to split, its ASSERT panics (ok is false).
    method Alloc4Kib() returns (ok: bool, frame: nat)
      requires Valid()
      modifies this
      ensures ok <==> old(book).list != [] || old(book).chunks != []
      ensures Valid() && book.managed == old(book).managed && Unchanged(old(ram), ram, old(book).owned)
      ensures !ok ==> book == old(book)
      ensures ok ==> !Held(old(book).owned, frame) && frame in ram && book.owned == old(book).owned + {Page(frame)}
      ensures ok ==> CanAlloc(old(book)) && book == AfterAlloc(old(book)) && frame == Taken4Kib(old(book))
      ensures ok && old(book).list != [] && old(book).pools[old(book).list[0]].free != [] ==>
        Popped(old(book), book, frame)
    {
      ghost var b := book;
      HeadPool(ram, size2M, top2M, pool4K, book);
      if pool4K == 0 {
        ok := NewPool();
        SameFrames(ram);
        if !ok {
          return false, 0;
        }
        ghost var ram1 := ram;
        ghost var b1 := book;
        frame := TakePage();
        UnchangedTwice(old(ram), ram1, ram, b1.owned, b1.owned);
      } else {
        frame := TakePage();
        ok := true;
      }
      AllocPops(b);
    }

    // phys_free_4KIB: take pool p, element k of the list, off the doubly linked list.
    method Unlink(p: nat, ghost k: nat)
      requires Core(ram, size2M, top2M, pool4K, book) && k < |book.list| && p == book.list[k]
      requires forall x :: x in book.list ==> x in ram
      modifies this`ram, this`pool4K
      ensures ram == UnlinkStores(old(ram), book.list, k) && ram.Keys == old(ram).Keys
      ensures p in old(ram) && pool4K == if k == 0 then old(ram)[p][NEXT] else old(pool4K)
    {
      hide Core, Ptr, FrameOf, UnlinkStores, Distinct, ListAt;
      LinksAt(ram, size2M, top2M, pool4K, book, k);
      UnlinkIs(ram, book.list, k);
      if pool4K == Ptr(p) {
        pool4K := ram[p][NEXT];
        if pool4K != 0 {
          Store(FrameOf(pool4K), PREV, 0);
        }
      } else {
        var next, prev := ram[p][NEXT], ram[p][PREV];
        if next != 0 {
          Store(FrameOf(next), PREV, prev);
        }
        if prev != 0 {
          Store(FrameOf(prev), NEXT, next);
        }
      }
    }

    // phys_free_4KIB, the release of a full pool: unlink it, reset its header, give its chunk back. The
    // pointer handed to phys_free_2MIB is a parameter; line 337 passes the kernel pointer of the pool.
    method ReleasePool(p: nat, ghost k: nat, arg: nat) returns (ok: bool)
      requires Core(ram, size2M, top2M, pool4K, book) && k < |book.list| && p == book.list[k] && p in book.pools
      requires forall f :: !Out(p, book.pools[p], f)
      requires Mapped(ram, arg) ==> arg == p * PAGE_BYTES
      modifies this
      ensures ok <==> Mapped(old(ram), arg)
      ensures ok ==> Core(ram, size2M, top2M, pool4K, book) && Unchanged(old(ram), ram, book.owned)
      ensures ok ==> book == old(book).(pools := old(book).pools - {p}, list := Without(old(book).list, k),
                                        chunks := [p] + old(book).chunks)
    {
      hide *;
      ghost var b := book;
      ghost var head := pool4K;
      ghost var b1 := b.(pools := b.pools - {p}, list := Without(b.list, k), owned := b.owned + {Chunk(p)});
      LinksAt(ram, size2M, top2M, head, b, k);
      AddRemove(b.owned, Chunk(p));
      MappedKeys();
      Unlink(p, k);
      PoolInit(p);
      UnlinkDone(old(ram), ram, b, k);
      ListCut(old(ram), ram, head, b.list, k);
      PoolReleased(old(ram), ram, size2M, top2M, head, pool4K, b, b1, p, k);
      book := b1;
      ghost var ram1 := ram;
      ok := Free2Mib(arg, p);
      if ok {
        UnchangedTwice(old(ram), ram1, ram, b.owned, b.owned);
      }
    }

    method PoolListed(p: nat, ghost q: Pool, ghost listed: bool) returns (onList: bool)
      requires PoolAt(ram, p, q, listed)
      ensures onList == listed
    {
      onList := ram[p][ON_LIST] != 0;
    }

    // pool_full; its ASSERT holds by PoolCount
    method PoolFull(p: nat, ghost q: Pool, ghost listed: bool) returns (full: bool)
      requires PoolAt(ram, p, q, listed)
      ensures full <==> |q.free| == 511
    {
      var entriesFree := ram[p][SIZE];
      if entriesFree == 511 {
        PoolCount(p, q);
        assert ram[p][IMPLICIT_NEXT] >= ram[p][MAX_ADDRESS];
      }
      full := entriesFree == 511;
    }

    // phys_free_4KIB: put pool p, which is not on the list, in front.
    method AddHead(p: nat)
      requires Core(ram, size2M, top2M, pool4K, book) && p in book.pools && p !in book.list
      modifies this`ram, this`pool4K, this`book
      ensures Core(ram, size2M, top2M, pool4K, book) && Unchanged(old(ram), ram, book.owned)
      ensures book == old(book).(list := [p] + old(book).list) && SameFramesOutside(old(ram), ram, book.pools.Keys)
    {
      ghost var b := book;
      ghost var b' := b.(list := [p] + b.list);
      HeadPool(ram, size2M, top2M, pool4K, b);
      assert PoolAt(ram, p, b.pools[p], false) && ListAt(ram, pool4K, b.list);
      assert p in b.managed && (b.list != [] ==> b.list[0] in b.managed);
      hide Core, ListAt, PoolAt, PoolsAt, StackAt, Ptr, FrameOf;
      if pool4K != 0 {
        var head := FrameOf(pool4K);
        ram := ram[head := ram[head][PREV := Ptr(p)]];
        ram := ram[p := ram[p][NEXT := pool4K][PREV := 0][ON_LIST := 1]];
        HeadLinked(old(ram), ram, old(pool4K), b, p, head);
      } else {
        ram := ram[p := ram[p][NEXT := pool4K][PREV := 0][ON_LIST := 1]];
        HeadAlone(old(ram), ram, old(pool4K), b, p);
      }
      HeadAdded(old(ram), ram, size2M, top2M, pool4K, b, b', p);
      pool4K := Ptr(p);
      book := b';
    }

    // phys_free_4KIB. As written it panics when the pool list is empty, and faults in ReleasePool when the frame was
    // the last one out of its pool. Repaired, it takes an empty list for what it is, and releases the pool under its
    // physical address.
    method Free4Kib(f: nat) returns (ok: bool)
      requires Valid() && Page(f) in book.owned
      modifies this
      ensures ok <==> !Blocked(old(book), {Page(f)})
      ensures ok ==> Valid() && Unchanged(old(ram), ram, book.owned)
      ensures ok ==> ChunkOf(f) in old(book).pools && book == AfterFree(old(book), f)
      ensures ok && !repaired ==> Pushed(old(ram), ram, old(book), f)
    {
      var p := ChunkOf(f);
      var arg := if repaired then p * PAGE_BYTES else Ptr(p);
      PointerCases(p, arg, repaired);
      hide *;
      ValidParts();
      ghost var b := book;
      PushReady(ram, size2M, top2M, pool4K, b, f);
      OutIsNoPool(ram, size2M, top2M, pool4K, b, f);
      ghost var q := b.pools[p];
      ghost var b1 := b.(pools := b.pools[p := Pool([f] + q.free, q.bump)], owned := b.owned - {Page(f)});
      PoolFree(p, f, q, p in b.list);
      ghost var ram1 := ram;
      PageGiven(old(ram), ram, size2M, top2M, pool4K, b, b1, f);
      PushIsDone(old(ram), size2M, top2M, pool4K, b, f, ram, b1);
      if pool4K == 0 && !repaired {
        return false;   // panic: bad free
      }
      book := b1;
      ok := Relist(p, f, b, arg);
      if ok {
        UnchangedTwice(old(ram), ram1, ram, book.owned, b1.owned);
        if !repaired { PushedThen(old(ram), ram1, ram, b, f); }
      }
    }

    // phys_free_4KIB, after the push: release the pool when it is full, or put it on the list when it is not there.
    method Relist(p: nat, f: nat, ghost b: Book, arg: nat) returns (ok: bool)
      requires Core(ram, size2M, top2M, pool4K, book) && PushDone(ram, b, book, f) && p == ChunkOf(f)
      requires b.repaired == repaired && PointerIs(p, arg, repaired)
      modifies this
      ensures ok <==> repaired || !Drained(p, b.pools[p], {Page(f)})
      ensures ok ==> Valid() && Unchanged(old(ram), ram, book.owned) && book == AfterFree(b, f)
      ensures ok ==> book.owned == old(book).owned
      ensures ok && !repaired ==> SameFramesOutside(old(ram), ram, old(book).pools.Keys)
    {
      hide *;
      NoneChanged(ram, book.pools.Keys);
      PushParts(ram, b, book, f);
      AfterFreeIs(b, book, f);
      SameFrames(ram);
      ghost var q' := book.pools[p];
      var onList := PoolListed(p, q', p in b.list);
      var full := PoolFull(p, q', p in b.list);
      if onList && full {
        ghost var k := IndexOf(book.list, p);
        PoolPointers(ram, p, arg, repaired);
        ok := ReleasePool(p, k, arg);
      } else {
        if !onList { AddHead(p); }
        ok := true;
      }
      if ok { MakeValid(); }
    }

    // phys_alloc_2MIB_safe: the same, with a panic (ok is false) instead of NULL
    method Alloc2MibSafe() returns (ok: bool, base: nat)
      requires Valid()
      modifies this
      ensures Valid() && ram == old(ram)
      ensures ok <==> old(book).chunks != []
      ensures !ok ==> book == old(book)
      ensures ok ==> base == old(book).chunks[0] && base % 512 == 0 && Chunk(base) !in old(book).owned
      ensures ok ==> book == old(book).(chunks := old(book).chunks[1..], owned := old(book).owned + {Chunk(base)})
      ensures ok ==> book.owned == old(book).owned + {Chunk(base)} && book.managed == old(book).managed
      ensures ok ==> forall f :: base <= f < base + 512 ==> f in ram && !Held(old(book).owned, f)
    {
      ghost var b := book;
      ok, base := Alloc2Mib();
      SteadySame(b, book);
      assert ok ==> base in ram && ChunkOf(base) == base;
    }

    // phys_free_2MIB of a chunk a client holds
    method FreeChunk(c: nat)
      requires Valid() && Chunk(c) in book.owned
      modifies this
      ensures Valid() && Unchanged(old(ram), ram, book.owned) && SameExcept(old(ram), ram, {c})
      ensures book == old(book).(chunks := [c] + old(book).chunks, owned := old(book).owned - {Chunk(c)})
    {
      ghost var b := book;
      ChunkAddress(ram, size2M, top2M, pool4K, book, c);
      var ok := Free2Mib(c * PAGE_BYTES, c);
      SteadySame(b, book);
    }

    lemma OwnedInRam()
      requires Valid()
      ensures Sound(ram, book.owned)
    {
      OwnedSound(ram, size2M, top2M, pool4K, book);
    }

    lemma BookOk()
      requires Valid()
      ensures Partition(book) && PagesOut(book) && forall c :: c in book.managed ==> c % 512 == 0
      ensures Steady(book)
    {
    }
  }
}
