// block.c: the fixed-size block allocator behind the scheduler's queue nodes and process control blocks, with the
// intrusive free list of stack.c.
module Blocks {
  import opened Lists

  // What a block holds: the first word is QueueNode.next while the block is in use, StackNode.next while it is free.
  datatype Cell = Cell(next: nat, data: nat)

  type Cells = map<nat, Cell>

  const HEADER_BYTES: nat := 48   // sizeof(BlockAllocator)
  const NODE_BYTES: nat := 8      // sizeof(StackNode)

  // Element i of s, or NULL past its end
  function Link(s: seq<nat>, i: nat): nat {
    if i < |s| then s[i] else 0
  }

  ghost predicate FreeAt(cells: Cells, size: nat, top: nat, s: seq<nat>) {
    && Distinct(s) && size == |s| && top == Link(s, 0)
    && forall i :: 0 <= i < |s| ==> s[i] in cells && cells[s[i]].next == Link(s, i + 1)
  }

  function Block(base: nat, size: nat, k: nat): nat {
    base + k * size
  }

  lemma BlockOrder(base: nat, size: nat, j: nat, k: nat)
    requires size > 0
    ensures Block(base, size, j) < Block(base, size, k) <==> j < k
    ensures Block(base, size, k + 1) == Block(base, size, k) + size
  {
    if j < k { Apart(size, j, k); }
    if k < j { Apart(size, k, j); }
  }

  lemma {:induction false} Apart(size: nat, j: nat, k: nat)
    requires j < k
    ensures j * size + size <= k * size
  {
    if j + 1 < k { Apart(size, j, k - 1); }
  }

  // The first n blocks
  ghost function BlockSet(base: nat, size: nat, n: nat): (s: set<nat>)
    requires size > 0
    ensures |s| == n && forall a :: a in s ==> base <= a < Block(base, size, n)
  {
    BlockOrder(base, size, if n > 0 then n - 1 else 0, n);
    if n == 0 then {} else BlockSet(base, size, n - 1) + {Block(base, size, n - 1)}
  }

  // The blocks handed out so far are in use or free, never both.
  ghost predicate BlocksAt(cells: Cells, base: nat, size: nat, n: nat, free: seq<nat>, used: set<nat>) {
    && size > 0 && base > 0
    && (forall a :: a in BlockSet(base, size, n) <==> a in used || a in free)
    && (forall a :: a in free ==> a !in used)
    && (forall a :: a in used ==> a in cells)
  }

  // Blocks in use + blocks free = blocks handed out so far
  lemma BlockCount(cells: Cells, base: nat, size: nat, n: nat, free: seq<nat>, used: set<nat>)
    requires BlocksAt(cells, base, size, n, free, used) && Distinct(free)
    ensures |used| + |free| == n
    ensures 0 !in used && 0 !in free
  {
    var all := BlockSet(base, size, n);
    var rest := all - used;
    assert used <= all && rest + used == all && rest !! used;
    DistinctSize(free, rest);
  }

  class BlockAllocator {
    const base: nat
    const maxBlocks: nat
    const blockSize: nat
    var implicitNext: nat
    var freeSize: nat
    var freeTop: nat
    var cells: Cells
    ghost var given: nat
    ghost var free: seq<nat>
    ghost var used: set<nat>

    ghost predicate Valid()
      reads this
    {
      && BlocksAt(cells, base, blockSize, given, free, used) && FreeAt(cells, freeSize, freeTop, free)
      && given <= maxBlocks && implicitNext == Block(base, blockSize, given)
    }

    // block_init's stores, once the region is known not to be too small
    constructor (address: nat, length: nat, size: nat)
      requires address > 0 && length >= HEADER_BYTES && size >= NODE_BYTES
      ensures Valid() && used == {} && free == [] && implicitNext == base && blockSize == size
      ensures maxBlocks == (length - HEADER_BYTES) / size
      ensures base == address + HEADER_BYTES && Block(base, size, maxBlocks) <= address + length
    {
      base := address + HEADER_BYTES;
      maxBlocks := (length - HEADER_BYTES) / size;
      blockSize := size;
      implicitNext := address + HEADER_BYTES;
      freeSize := 0;
      freeTop := 0;
      cells := map[];
      given := 0;
      free := [];
      used := {};
      new;
      assert BlockSet(base, size, 0) == {};
      Division(length - HEADER_BYTES, size);
    }

    // Blocks in use + blocks free = blocks handed out so far <= maxBlocks
    lemma Counted()
      requires Valid()
      ensures |used| + freeSize == given <= maxBlocks && (freeSize == 0 <==> free == [])
      ensures 0 !in used && 0 !in free && forall a :: a in used ==> a in cells
    {
      hide BlockSet, Block, Link;
      BlockCount(cells, base, blockSize, given, free, used);
      InCells(cells, base, blockSize, given, free, used);
    }

    // The first branch of block_alloc: stack_pop
    method Pop() returns (block: nat)
      requires Valid() && freeSize != 0
      modifies this`freeTop, this`freeSize, this`free, this`used
      ensures Valid() && block !in old(used) && used == old(used) + {block} && block in cells
      ensures old(free) != [] && block == old(free)[0] && free == old(free)[1..]
    {
      hide BlockSet, Block;
      block := freeTop;
      FreePopped(cells, freeSize, block, free);
      BlockTaken(cells, base, blockSize, given, free, used);
      freeTop := cells[block].next;
      freeSize := freeSize - 1;
      used := used + {block};
      free := free[1..];
    }

    // The second branch
    method Bump() returns (block: nat)
      requires Valid() && freeSize == 0 && free == []
      modifies this
      ensures Valid() && (block == 0 <==> old(given) == maxBlocks)
      ensures block == 0 ==> used == old(used) && cells == old(cells)
      ensures block != 0 ==>
        block !in old(used) && used == old(used) + {block} && cells == old(cells)[block := Cell(0, 0)]
      ensures block != 0 ==> block == old(implicitNext) && implicitNext == block + blockSize && free == []
    {
      BlockOrder(base, blockSize, given, maxBlocks);
      BlockOrder(base, blockSize, given, given);
      BlockBumped(cells, base, blockSize, given, used);
      hide Block, BlockSet, BlocksAt;
      if implicitNext < Block(base, blockSize, maxBlocks) {
        block := implicitNext;
        implicitNext := implicitNext + blockSize;
        cells := cells[block := Cell(0, 0)];
        used := used + {block};
        given := given + 1;
      } else {
        block := 0;
      }
    }

    // block_alloc: NULL exactly when every block is in use; the block freed last comes first.
    method Alloc() returns (block: nat)
      requires Valid()
      modifies this
      ensures Valid() && (block == 0 <==> |old(used)| == maxBlocks)
      ensures block == 0 ==> used == old(used) && cells == old(cells)
      ensures block != 0 && old(free) != [] ==>
        block == old(free)[0] && free == old(free)[1..] && implicitNext == old(implicitNext)
      ensures block != 0 && old(free) == [] ==>
        block == old(implicitNext) && free == [] && implicitNext == block + blockSize
      ensures old(cells).Keys <= cells.Keys
      ensures block != 0 ==> block !in old(used) && used == old(used) + {block} && block in cells
      ensures forall a :: a in old(used) ==> a in old(cells) && a in cells && cells[a] == old(cells)[a]
    {
      hide *;
      Counted();
      if freeSize != 0 {
        block := Pop();
      } else {
        block := Bump();
      }
    }

    // block_free
    method Free(block: nat)
      requires Valid() && block in used
      modifies this
      ensures Valid() && used == old(used) - {block} && cells.Keys == old(cells).Keys
      ensures free == [block] + old(free) && implicitNext == old(implicitNext)
      ensures forall a :: a in used ==> a in old(cells) && a in cells && cells[a] == old(cells)[a]
    {
      BlockInside(cells, base, blockSize, given, maxBlocks, free, used, block);   // its ASSERT
      InCells(cells, base, blockSize, given, free, used);
      NotFree(cells, base, blockSize, given, free, used, block);
      hide BlockSet, Block, BlocksAt, FreeAt, Link;
      ghost var cells0 := cells;
      if freeSize == 0 {
        cells := cells[block := cells[block].(next := 0)];
        freeSize := 1;
      } else {
        cells := cells[block := cells[block].(next := freeTop)];
        freeSize := freeSize + 1;
      }
      FreePushed(cells0, cells, freeSize - 1, freeTop, free, block);
      freeTop := block;
      free := [block] + free;
      used := used - {block};
      BlockReturned(cells0, cells, base, blockSize, given, free, used, block);
    }

    // A store through a pointer that may lead to any block, also to a free one
    method Store(block: nat, c: Cell)
      requires block in cells
      modifies this`cells
      ensures cells == old(cells)[block := c] && (old(Valid()) && block in used ==> Valid())
    {
      hide BlockSet, Block;
      cells := cells[block := c];
    }

    // A store into a block in use
    method Write(block: nat, c: Cell)
      requires Valid() && block in used
      modifies this`cells
      ensures Valid() && cells == old(cells)[block := c]
    {
      hide *;
      Counted();
      Store(block, c);
    }
  }

  // block_init as a whole: a panic (null) when the region or the block size is too small
  method BlockInit(address: nat, length: nat, size: nat) returns (ba: BlockAllocator?)
    requires address > 0
    ensures ba == null <==> length < HEADER_BYTES || size < NODE_BYTES
    ensures ba != null ==> fresh(ba) && ba.Valid() && ba.used == {} && ba.free == [] && ba.blockSize == size
    ensures ba != null ==> ba.maxBlocks == (length - HEADER_BYTES) / size && ba.base == address + HEADER_BYTES
  {
    if length < HEADER_BYTES || size < NODE_BYTES {
      return null;
    }
    ba := new BlockAllocator(address, length, size);
  }

  lemma InCells(cells: Cells, base: nat, size: nat, n: nat, free: seq<nat>, used: set<nat>)
    requires BlocksAt(cells, base, size, n, free, used)
    ensures forall a :: a in used ==> a in cells
  {
  }

  lemma NotFree(cells: Cells, base: nat, size: nat, n: nat, free: seq<nat>, used: set<nat>, b: nat)
    requires BlocksAt(cells, base, size, n, free, used) && b in used
    ensures b !in free && BlocksAt(cells, base, size, n, free, used - {b} + {b})
  {
    assert used - {b} + {b} == used;
  }

  lemma Division(bytes: nat, size: nat)
    requires size > 0
    ensures bytes / size * size <= bytes
  {
  }

  lemma FreePopped(cells: Cells, size: nat, top: nat, s: seq<nat>)
    requires FreeAt(cells, size, top, s) && size > 0
    ensures top == s[0] && top in cells && FreeAt(cells, size - 1, cells[top].next, s[1..]) && top !in s[1..]
  {
    var t := s[1..];
    forall i | 0 <= i < |t| ensures t[i] in cells && cells[t[i]].next == Link(t, i + 1) {
      assert t[i] == s[i + 1];
    }
  }

  lemma FreePushed(cells: Cells, cells': Cells, size: nat, top: nat, s: seq<nat>, b: nat)
    requires FreeAt(cells, size, top, s) && b !in s && b in cells
    requires cells' == cells[b := cells[b].(next := if size == 0 then 0 else top)]
    ensures FreeAt(cells', size + 1, b, [b] + s)
  {
    var t := [b] + s;
    forall i | 0 <= i < |t| ensures t[i] in cells' && cells'[t[i]].next == Link(t, i + 1) {
      if i > 0 { assert t[i] == s[i - 1]; }
    }
  }

  lemma BlockTaken(cells: Cells, base: nat, size: nat, n: nat, free: seq<nat>, used: set<nat>)
    requires BlocksAt(cells, base, size, n, free, used) && free != [] && Distinct(free) && free[0] in cells
    ensures BlocksAt(cells, base, size, n, free[1..], used + {free[0]}) && free[0] !in used
  {
    hide BlockSet;
    assert forall a :: a in free <==> a == free[0] || a in free[1..];
  }

  lemma BlockBumped(cells: Cells, base: nat, size: nat, n: nat, used: set<nat>)
    requires BlocksAt(cells, base, size, n, [], used)
    ensures var b := Block(base, size, n);
      b > 0 && b !in used && BlocksAt(cells[b := Cell(0, 0)], base, size, n + 1, [], used + {b})
  {
    var b := Block(base, size, n);
    assert BlockSet(base, size, n + 1) == BlockSet(base, size, n) + {b};
    assert b !in BlockSet(base, size, n);
    hide BlockSet, Block;
  }

  lemma BlockReturned(cells: Cells, cells': Cells, base: nat, size: nat, n: nat, free: seq<nat>, used: set<nat>, b: nat)
    requires free != [] && free[0] == b && b !in used && b !in free[1..]
    requires BlocksAt(cells, base, size, n, free[1..], used + {b})
    requires forall a :: a in cells ==> a in cells'
    ensures BlocksAt(cells', base, size, n, free, used)
  {
    hide BlockSet;
    assert forall a :: a in free <==> a == b || a in free[1..];
  }

  lemma BlockInside(cells: Cells, base: nat, size: nat, n: nat, max: nat, free: seq<nat>, used: set<nat>, b: nat)
    requires BlocksAt(cells, base, size, n, free, used) && b in used && n <= max
    ensures base <= b < Block(base, size, max)
  {
    assert b in BlockSet(base, size, n);
    BlockOrder(base, size, max, n);
  }
}
