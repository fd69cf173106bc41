// phys_alloc.c: what any sequence of allocations and frees makes of the allocator's book.
//
// A pool starts with frames it has never given out, and takes one of them only when no frame it has given out before
// is free. So its implicit_next counts the most frames of the pool that have ever been out together.
module PhysRuns {
  import opened Lists
  import opened Words
  import opened PhysBook

  // A request the allocator meets; Add is setup_physical_allocator pushing a chunk.
  datatype Request = Alloc4 | Free4(frame: nat) | Alloc2 | Free2(base: nat) | Add(chunk: nat)

  // Requests that neither panic nor fault
  ghost predicate Met(b: Book, r: Request) {
    match r
    case Alloc4 => CanAlloc(b)
    case Free4(f) => Page(f) in b.owned && ChunkOf(f) in b.pools && !Blocked(b, {Page(f)})
    case Alloc2 => b.chunks != []
    case Free2(c) => Chunk(c) in b.owned
    case Add(c) => c % 512 == 0 && c !in b.managed
  }

  ghost function Served(b: Book, r: Request): Book
    requires Met(b, r)
  {
    match r
    case Alloc4 => AfterAlloc(b)
    case Free4(f) => AfterFree(b, f)
    case Alloc2 => b.(chunks := b.chunks[1..], owned := b.owned + {Chunk(b.chunks[0])})
    case Free2(c) => b.(chunks := [c] + b.chunks, owned := b.owned - {Chunk(c)})
    case Add(c) => b.(chunks := [c] + b.chunks, managed := b.managed + {c})
  }

  ghost predicate AllMet(b: Book, rs: seq<Request>)
    decreases |rs|
  {
    rs == [] || (Met(b, rs[0]) && AllMet(Served(b, rs[0]), rs[1..]))
  }

  ghost function After(b: Book, rs: seq<Request>): Book
    requires AllMet(b, rs)
    decreases |rs|
  {
    if rs == [] then b else After(Served(b, rs[0]), rs[1..])
  }

  // ---------------------------------------------------------------------------------------------
  // The books the allocator can have

  ghost predicate PoolFit(p: nat, q: Pool) {
    p < q.bump <= p + 512 && Distinct(q.free) && forall f :: f in q.free ==> p < f < q.bump
  }

  ghost predicate PoolsFit(b: Book) {
    forall p :: p in b.pools ==> p % 512 == 0 && PoolFit(p, b.pools[p])
  }

  ghost predicate Fit(b: Book) {
    && Partition(b) && PagesOut(b) && Steady(b) && PoolsFit(b)
    && (forall c :: c in b.managed ==> c % 512 == 0)
    && Distinct(b.list) && Distinct(b.chunks)
  }

  // The allocator's own state always has one.
  lemma CoreFit(ram: Ram, size: nat, top: Word, head: Word, b: Book)
    requires Core(ram, size, top, head, b) && Steady(b)
    ensures Fit(b)
  {
    hide Ptr, FrameOf, Link;
    forall p | p in b.pools ensures p % 512 == 0 && PoolFit(p, b.pools[p]) {
      assert p in b.managed && PoolAt(ram, p, b.pools[p], p in b.list);
    }
  }

  lemma ServedFit(b: Book, r: Request)
    requires Fit(b) && Met(b, r)
    ensures Fit(Served(b, r))
  {
    match r
    case Alloc4 => ReadiedFit(b); TakenFit(Readied(b));
    case Free4(f) => FreedFit(b, f);
    case Alloc2 => ChunkOutFit(b);
    case Free2(c) => ChunkInFit(b, c);
    case Add(c) => AddedFit(b, c);
  }

  lemma ReadiedFit(b: Book)
    requires Fit(b) && CanAlloc(b)
    ensures Fit(Readied(b))
  {
    if b.list == [] {
      var p := b.chunks[0];
      var b' := Readied(b);
      assert forall x :: x in b.chunks <==> x == p || x in b'.chunks;
      assert p in b.chunks && p in b.managed && p !in b.pools;
      SteadyNew(b, b', p);
      hide Steady;
      forall g ensures Page(g) in b'.owned <==> ChunkOf(g) in b'.pools && Out(ChunkOf(g), b'.pools[ChunkOf(g)], g) {
      }
    }
  }

  // Giving a frame out makes it, and no other, one that is out.
  lemma GivenOut(p: nat, q: Pool)
    requires PoolFit(p, q) && !Exhausted(p, q)
    ensures PoolFit(p, Rest(q)) && !Out(p, q, Given(q))
    ensures forall g :: Out(p, Rest(q), g) <==> Out(p, q, g) || g == Given(q)
  {
    if q.free != [] {
      assert q.free[0] in q.free;
      assert forall g :: g in q.free <==> g == q.free[0] || g in q.free[1..];
    }
  }

  lemma TakenFit(b: Book)
    requires Fit(b) && b.list != [] && b.list[0] in b.pools
    ensures Fit(AfterTake(b))
  {
    var p := b.list[0];
    var q, q', f := b.pools[p], Rest(b.pools[p]), Given(b.pools[p]);
    var b1 := b.(pools := b.pools[p := q'], owned := b.owned + {Page(f)});
    assert p in b.list;
    GivenOut(p, q);
    PageOut(b, b1, p, q', f);
    assert Out(p, q', f);
    SteadyTaken(b, AfterTake(b), p, q', f);
    hide Partition, PagesOut, Steady, Rest, Given, Exhausted, PoolFit, Out;
  }

  lemma FreedFit(b: Book, f: nat)
    requires Fit(b) && Page(f) in b.owned && ChunkOf(f) in b.pools
    ensures Fit(AfterFree(b, f))
  {
    var p := ChunkOf(f);
    var q := b.pools[p];
    var q' := Pool([f] + q.free, q.bump);
    assert Out(p, q, f);
    FreeOutcome(b, f);
    var b1 := b.(pools := b.pools[p := q'], owned := b.owned - {Page(f)});
    PageIn(b, b1, f);
    if p in b.list && Drained(p, q, {Page(f)}) {
      var b2 := b1.(pools := b1.pools - {p}, list := Without(b.list, IndexOf(b.list, p)),
        owned := b1.owned + {Chunk(p)});
      PoolBecomesChunk(b1, b2, p);
      assert p !in b.chunks && Chunk(p) !in b1.owned;
      ReleasedFit(b, f, b2);
    } else {
      PushedFit(b, f, b1);
    }
  }

  lemma PushedFit(b: Book, f: nat, b1: Book)
    requires Fit(b) && ChunkOf(f) in b.pools && Steady(AfterFree(b, f))
    requires var p := ChunkOf(f); !(p in b.list && Drained(p, b.pools[p], {Page(f)}))
    requires Partition(b1) && PagesOut(b1) && Out(ChunkOf(f), b.pools[ChunkOf(f)], f)
    requires var p := ChunkOf(f); var q := b.pools[p];
      b1 == b.(pools := b.pools[p := Pool([f] + q.free, q.bump)], owned := b.owned - {Page(f)})
    ensures Fit(AfterFree(b, f))
  {
    hide Drained, Steady, Partition, PagesOut;
    var b' := AfterFree(b, f);
    assert b' == b1.(list := b'.list);
    SameParts(b1, b');
  }

  lemma SameParts(b: Book, b': Book)
    requires Partition(b) && PagesOut(b) && b' == b.(list := b'.list)
    ensures Partition(b') && PagesOut(b')
  {
  }

  lemma ReleasedFit(b: Book, f: nat, b2: Book)
    requires Fit(b) && ChunkOf(f) in b.pools && Steady(AfterFree(b, f))
    requires var p := ChunkOf(f);
      && p in b.list && Drained(p, b.pools[p], {Page(f)}) && p !in b.chunks && Chunk(p) !in b.owned
      && Partition(b2) && PagesOut(b2)
      && b2 == b.(pools := b2.pools, list := Without(b.list, IndexOf(b.list, p)),
                  owned := b.owned - {Page(f)} + {Chunk(p)})
      && b2.pools == b.pools - {p}
    ensures Fit(AfterFree(b, f))
  {
    var b' := AfterFree(b, f);
    var p := ChunkOf(f);
    assert b' == b2.(chunks := [p] + b.chunks, owned := b2.owned - {Chunk(p)});
    hide Steady, Drained;
    ChunkParts(b2, b', p);
    hide Partition, PagesOut;
    WithoutAt(b.list, IndexOf(b.list, p));
    hide Without;
  }

  lemma ChunkParts(b: Book, b': Book, c: nat)
    requires Partition(b) && PagesOut(b) && Chunk(c) in b.owned
    requires b' == b.(chunks := [c] + b.chunks, owned := b.owned - {Chunk(c)})
    ensures Partition(b') && PagesOut(b')
  {
    assert forall x :: x in b'.chunks <==> x == c || x in b.chunks;
    forall g ensures Page(g) in b'.owned <==> ChunkOf(g) in b'.pools && Out(ChunkOf(g), b'.pools[ChunkOf(g)], g) {
    }
  }

  lemma ChunkInFit(b: Book, c: nat)
    requires Fit(b) && Chunk(c) in b.owned
    ensures Fit(Served(b, Free2(c)))
  {
    var b' := Served(b, Free2(c));
    ChunkParts(b, b', c);
    SteadySame(b, b');
    assert c !in b.chunks;
    hide Partition, PagesOut, Steady;
  }

  lemma ChunkOutFit(b: Book)
    requires Fit(b) && b.chunks != []
    ensures Fit(Served(b, Alloc2))
  {
    var b' := Served(b, Alloc2);
    SteadySame(b, b');
    hide Steady;
    assert forall x :: x in b.chunks <==> x == b.chunks[0] || x in b'.chunks;
    forall g ensures Page(g) in b'.owned <==> ChunkOf(g) in b'.pools && Out(ChunkOf(g), b'.pools[ChunkOf(g)], g) {
    }
  }

  lemma AddedFit(b: Book, c: nat)
    requires Fit(b) && c % 512 == 0 && c !in b.managed
    ensures Fit(Served(b, Add(c)))
  {
    var b' := Served(b, Add(c));
    SteadySame(b, b');
    hide Steady;
    assert forall x :: x in b'.chunks <==> x == c || x in b.chunks;
  }

  // ---------------------------------------------------------------------------------------------
  // A pool takes a new frame only when all it has given out are out

  ghost function OutCount(b: Book, p: nat): nat {
    if p in b.pools then |OutSet(p, b.pools[p])| else 0
  }

  // The most frames of pool p out together at any time of a run since the pool was made, or `most` if that is more
  ghost function MostOut(b: Book, rs: seq<Request>, p: nat, most: nat): nat
    requires AllMet(b, rs)
    decreases |rs|
  {
    if rs == [] then most else
      var b' := Served(b, rs[0]);
      MostOut(b', rs[1..], p, if p !in b'.pools then 0 else if OutCount(b', p) > most then OutCount(b', p) else most)
  }

  // implicit_next has passed `most` frames of pool p.
  ghost predicate Grown(b: Book, p: nat, most: nat) {
    if p in b.pools then b.pools[p].bump == p + 1 + most else most == 0
  }

  lemma CountBound(b: Book, p: nat)
    requires PoolsFit(b) && p in b.pools
    ensures OutCount(b, p) + |b.pools[p].free| == b.pools[p].bump - p - 1
  {
    assert PoolFit(p, b.pools[p]);
    PoolCount(p, b.pools[p]);
  }

  // What a request does to the bump of a pool
  lemma BumpStep(b: Book, r: Request, p: nat)
    requires Fit(b) && Met(b, r)
    ensures var b' := Served(b, r);
      p in b'.pools ==>
        || (p in b.pools && b'.pools[p].bump == b.pools[p].bump)
        || (b'.pools[p].free == [] && b'.pools[p].bump == if p in b.pools then b.pools[p].bump + 1 else p + 2)
  {
    hide PagesOut, Steady, PoolsFit, Blocked, Drained, Exhausted, Without, Distinct;
    if r == Alloc4 && b.list == [] {
      assert b.chunks[0] in b.chunks;
    }
    hide Partition;
  }

  // implicit_next - pool - 1 frames is the most of a pool that have been out together, after any run.
  lemma {:induction false} BumpIsMost(b: Book, rs: seq<Request>, p: nat, most: nat)
    requires Fit(b) && AllMet(b, rs) && Grown(b, p, most)
    ensures Grown(After(b, rs), p, MostOut(b, rs, p, most)) && Fit(After(b, rs))
    decreases |rs|
  {
    if rs != [] {
      var b' := Served(b, rs[0]);
      ServedFit(b, rs[0]);
      BumpStep(b, rs[0], p);
      if p in b'.pools { CountBound(b', p); }
      if p in b.pools { CountBound(b, p); }
      hide Fit, Met, Served, OutCount;
      var most' := if p !in b'.pools then 0 else if OutCount(b', p) > most then OutCount(b', p) else most;
      BumpIsMost(b', rs[1..], p, most');
    }
  }

  // ---------------------------------------------------------------------------------------------
  // Freed frames come back first

  // The next frame to be given out is the one just freed, exactly when its pool was at the head of the list or not on
  // the list at all; then the book is as it was before both.
  lemma FreeThenAlloc(b: Book, f: nat)
    requires Fit(b) && Page(f) in b.owned && ChunkOf(f) in b.pools
    requires !Drained(ChunkOf(f), b.pools[ChunkOf(f)], {Page(f)})
    ensures var b' := AfterFree(b, f); var p := ChunkOf(f);
      && CanAlloc(b')
      && (Taken4Kib(b') == f <==> p !in b.list || p == b.list[0])
      && (Taken4Kib(b') == f ==> AfterAlloc(b') == b)
  {
    var p := ChunkOf(f);
    var b' := AfterFree(b, f);
    ListedPools(b, p);
    hide Fit, Drained;
    if p in b.list && p != b.list[0] {
      GivenChunk(b, b.list[0]);
    } else {
      TakenBack(b, b', p, f);
    }
  }

  lemma ListedPools(b: Book, p: nat)
    requires Fit(b) && p in b.pools
    ensures b.list != [] ==> b.list[0] in b.list && b.list[0] in b.pools
    ensures p in b.list <==> !Exhausted(p, b.pools[p])
  {
    hide Partition, PagesOut, NoneFull, PoolsFit, Exhausted, Distinct;
  }

  // What a pool gives out is a frame of its chunk.
  lemma GivenChunk(b: Book, p: nat)
    requires Fit(b) && p in b.list
    ensures p in b.pools && ChunkOf(Given(b.pools[p])) == p
  {
    hide Partition, PagesOut, NoneFull, Distinct;
    var q := b.pools[p];
    assert PoolFit(p, q) && p % 512 == 0 && !Exhausted(p, q);
    if q.free != [] { assert q.free[0] in q.free; }
    ChunkOfUnique(p, Given(q));
  }

  lemma TakenBack(b: Book, b': Book, p: nat, f: nat)
    requires p in b.pools && Page(f) in b.owned && (p in b.list <==> !Exhausted(p, b.pools[p]))
    requires p in b.list ==> p == b.list[0]
    requires b' == b.(pools := b.pools[p := Pool([f] + b.pools[p].free, b.pools[p].bump)],
                      list := if p in b.list then b.list else [p] + b.list, owned := b.owned - {Page(f)})
    ensures CanAlloc(b') && Taken4Kib(b') == f && AfterAlloc(b') == b
  {
    hide Exhausted;
    var q := b.pools[p];
    assert b'.list[0] == p && Rest(b'.pools[p]) == q;
    assert b'.pools[p := q] == b.pools;
    RemoveAdd(b.owned, Page(f));
  }

  // A frame just given out is taken back as if nothing had happened, exactly when a freed one was there to be given;
  // otherwise the pool has grown for good.
  lemma AllocThenFree(b: Book)
    requires Fit(b) && CanAlloc(b)
    ensures var b' := AfterAlloc(b); var f := Taken4Kib(b);
      && ChunkOf(f) in b'.pools
      && (AfterFree(b', f) == b <==> b.list != [] && b.pools[b.list[0]].free != [])
  {
    var r := Readied(b);
    var p := r.list[0];
    var q, f := r.pools[p], Given(r.pools[p]);
    ReadiedFit(b);
    assert p in r.list;
    GivenChunk(r, p);
    NewHead(b);
    if b.list != [] && q.free != [] {
      NotDrained(b, p, q, f);
      ListedPools(b, p);
      assert Distinct(b.list) && Page(f) !in b.owned by { NotOwned(b, p, q, f); }
      hide Fit, Drained;
      GivenBack(b, AfterAlloc(b), p, f);
    } else {
      hide Fit;
      assert q.free == [] && AfterAlloc(b).pools[p].bump == q.bump + 1;
    }
  }

  lemma NewHead(b: Book)
    requires Fit(b) && CanAlloc(b)
    ensures b.list == [] ==> b.chunks[0] !in b.pools
  {
    hide Steady, PagesOut, PoolsFit;
    if b.list == [] { assert b.chunks[0] in b.chunks; }
  }

  lemma NotOwned(b: Book, p: nat, q: Pool, f: nat)
    requires Fit(b) && p in b.pools && q == b.pools[p] && q.free != [] && f == q.free[0] && ChunkOf(f) == p
    ensures Page(f) !in b.owned && Distinct(b.list)
  {
    hide Partition, Steady, PoolsFit;
    assert f in q.free;
  }

  lemma NotDrained(b: Book, p: nat, q: Pool, f: nat)
    requires Fit(b) && p in b.pools && q == b.pools[p] && q.free != [] && f == q.free[0]
    ensures !Drained(p, Rest(q), {Page(f)})
  {
    hide Partition, PagesOut, Listed, PoolsFit;
    if q.bump == p + 512 {
      var g :| Out(p, q, g);
      assert f in q.free && Out(p, Rest(q), g);
    }
  }

  lemma GivenBack(b: Book, b': Book, p: nat, f: nat)
    requires b.list != [] && p == b.list[0] && p in b.pools && b.pools[p].free != [] && f == b.pools[p].free[0]
    requires b' == AfterTake(b) && ChunkOf(f) == p && !Drained(p, Rest(b.pools[p]), {Page(f)})
    requires Distinct(b.list) && Page(f) !in b.owned
    ensures AfterFree(b', f) == b
  {
    hide Drained, Exhausted, ChunkOf;
    var q := b.pools[p];
    assert b'.pools[p] == Rest(q) && Pool([f] + Rest(q).free, q.bump) == q;
    assert b'.pools[p := q] == b.pools;
    AddRemove(b.owned, Page(f));
    assert p !in b.list[1..] && [p] + b.list[1..] == b.list;
  }
}
