// queue.c: singly linked queues with a tail pointer, over nodes from the block allocator.
module Queues {
  import opened Blocks
  import opened Lists
  import opened Processes
  import opened Sleepers

  // The nodes s, from the head on: linked, and the last one ends the list.
  ghost predicate ChainAt(cells: Cells, size: nat, head: nat, s: seq<nat>) {
    && Distinct(s) && size == |s| && head == Link(s, 0)
    && forall i :: 0 <= i < |s| ==> s[i] != 0 && s[i] in cells && cells[s[i]].next == Link(s, i + 1)
  }

  // tail points to the last node.
  ghost predicate TailAt(s: seq<nat>, tail: nat) {
    s != [] ==> tail == s[|s| - 1]
  }

  ghost predicate QueueAt(cells: Cells, size: nat, head: nat, tail: nat, s: seq<nat>) {
    ChainAt(cells, size, head, s) && TailAt(s, tail)
  }

  // The processes in a queue, in order
  ghost function Data(cells: Cells, s: seq<nat>): (r: seq<nat>)
    ensures |r| == |s| && forall i {:trigger r[i]} :: 0 <= i < |s| && s[i] in cells ==> r[i] == cells[s[i]].data
  {
    seq(|s|, i requires 0 <= i < |s| => if s[i] in cells then cells[s[i]].data else 0)
  }

  lemma Appended(cells: Cells, cells': Cells, size: nat, head: nat, tail: nat, s: seq<nat>, node: nat)
    requires QueueAt(cells, size, head, tail, s) && node !in s && node != 0 && node in cells
    requires cells' == if s == [] then cells[node := cells[node].(next := 0)]
                       else cells[node := cells[node].(next := 0)][tail := Cell(node, cells[tail].data)]
    ensures QueueAt(cells', size + 1, if s == [] then node else head, node, s + [node])
    ensures Data(cells', s + [node]) == Data(cells, s) + [cells[node].data]
    ensures forall a :: a in cells && a !in s && a != node ==> a in cells' && cells'[a] == cells[a]
  {
    var t := s + [node];
    forall i | 0 <= i < |t| ensures t[i] != 0 && t[i] in cells' && cells'[t[i]].next == Link(t, i + 1) {
      if i < |s| { assert t[i] == s[i] && cells[s[i]].next == Link(s, i + 1); }
    }
    assert forall i :: 0 <= i < |t| ==> cells'[t[i]].data == cells[t[i]].data;
  }

  lemma HeadTaken(cells: Cells, size: nat, head: nat, tail: nat, s: seq<nat>)
    requires QueueAt(cells, size, head, tail, s) && s != []
    ensures head == s[0] && head in cells && head !in s[1..]
    ensures QueueAt(cells, size - 1, cells[head].next, tail, s[1..])
    ensures Data(cells, s) == [cells[head].data] + Data(cells, s[1..])
  {
    var t := s[1..];
    forall i | 0 <= i < |t| ensures t[i] in cells && t[i] != 0 && cells[t[i]].next == Link(t, i + 1) {
      assert t[i] == s[i + 1];
    }
  }

  // A node is linked in after node pos - 1 of the list, or in front.
  lemma LinkedIn(cells: Cells, cells': Cells, size: nat, head: nat, s: seq<nat>, pos: nat, node: nat)
    requires ChainAt(cells, size, head, s) && pos <= |s| && node !in s && node != 0 && node in cells
    requires cells' == if pos == 0 then cells[node := cells[node].(next := head)]
                       else cells[node := cells[node].(next := Link(s, pos))][s[pos - 1] := Cell(node,
                         cells[s[pos - 1]].data)]
    ensures ChainAt(cells', size + 1, if pos == 0 then node else head, Inserted(s, pos, node))
    ensures Data(cells', Inserted(s, pos, node)) == Inserted(Data(cells, s), pos, cells[node].data)
    ensures forall a :: a in Inserted(s, pos, node) ==> a in cells'
    ensures forall a :: a in cells && a !in s && a != node ==> a in cells' && cells'[a] == cells[a]
  {
    var t := Inserted(s, pos, node);
    InsertedAt(s, pos, node);
    hide Inserted;
    LinkedLinks(cells, cells', s, pos, node, t);
    hide Link;
    assert Distinct(t);
    assert forall i :: 0 <= i < |t| ==> t[i] != 0;
    DataInserted(cells, cells', s, pos, node);
  }

  lemma DataInserted(cells: Cells, cells': Cells, s: seq<nat>, pos: nat, node: nat)
    requires pos <= |s| && node in cells && node in cells' && cells'[node].data == cells[node].data
    requires forall a :: a in s ==> a in cells && a in cells' && cells'[a].data == cells[a].data
    ensures (forall a :: a in Inserted(s, pos, node) ==> a in cells')
    ensures Data(cells', Inserted(s, pos, node)) == Inserted(Data(cells, s), pos, cells[node].data)
  {
    InsertedAt(s, pos, node);
    InsertedAt(Data(cells, s), pos, cells[node].data);
  }

  lemma LinkedLinks(cells: Cells, cells': Cells, s: seq<nat>, pos: nat, node: nat, t: seq<nat>)
    requires Distinct(s) && pos <= |s| && node !in s && node in cells && |t| == |s| + 1
    requires forall i :: 0 <= i < |s| ==> s[i] in cells && cells[s[i]].next == Link(s, i + 1)
    requires cells' == if pos == 0 then cells[node := cells[node].(next := Link(s, 0))]
                       else cells[node := cells[node].(next := Link(s, pos))][s[pos - 1] := Cell(node,
                         cells[s[pos - 1]].data)]
    requires forall i {:trigger t[i]} :: 0 <= i <= |s| ==>
      t[i] == if i < pos then s[i] else if i == pos then node else s[i - 1]
    ensures forall i :: 0 <= i < |t| ==> t[i] in cells' && cells'[t[i]].next == Link(t, i + 1)
  {
    forall i | 0 <= i < |t| ensures t[i] in cells' && cells'[t[i]].next == Link(t, i + 1) {
      LinkInserted(s, pos, node, t, i);
      hide Link;
      var x := t[i];
      if i < pos {
        assert x == s[i] && x != node && (i + 1 < pos ==> x != s[pos - 1]);
      } else if i > pos {
        assert x == s[i - 1] && x != node && (pos > 0 ==> s[pos - 1] != x);
      }
    }
  }

  lemma LinkInserted(s: seq<nat>, pos: nat, node: nat, t: seq<nat>, i: nat)
    requires pos <= |s| && |t| == |s| + 1 && i < |t|
    requires forall i {:trigger t[i]} :: 0 <= i <= |s| ==>
      t[i] == if i < pos then s[i] else if i == pos then node else s[i - 1]
    ensures Link(t, i + 1) == if i + 1 < pos then Link(s, i + 1) else if i + 1 == pos then node else Link(s, i)
  {
  }

  // ---------------------------------------------------------------------------------------------
  // The scan for a place in the sleep queue

  // The scan has passed the first k sleepers.
  ghost predicate Scanning(ds: seq<nat>, t: nat, pcbs: Pcbs, p: nat, pcbs': Pcbs, k: nat) {
    && k <= |ds| && p in pcbs && p in pcbs'
    && pcbs' == WithTime(pcbs, p, pcbs'[p].sleepTime)
    && Place(ds, t) == k + Place(ds[k..], pcbs'[p].sleepTime) && Rest(ds, t) == Rest(ds[k..], pcbs'[p].sleepTime)
  }

  lemma ScanStart(ds: seq<nat>, t: nat, pcbs: Pcbs, p: nat)
    requires p in pcbs && t == pcbs[p].sleepTime
    ensures Scanning(ds, t, pcbs, p, pcbs, 0)
  {
    assert ds[0..] == ds;
  }

  lemma ChainLink(cells: Cells, size: nat, head: nat, s: seq<nat>, k: nat)
    requires ChainAt(cells, size, head, s) && k <= |s|
    ensures head == Link(s, 0) && (Link(s, k) == 0 <==> k == |s|) && size == |s|
    ensures k < |s| ==> s[k] in cells && Link(s, k) == s[k] && cells[s[k]].next == Link(s, k + 1)
  {
  }

  lemma ScanAt(ds: seq<nat>, t: nat, pcbs: Pcbs, p: nat, pcbs1: Pcbs, ps: seq<nat>, k: nat)
    requires Scanning(ds, t, pcbs, p, pcbs1, k) && k < |ps| && p !in ps && (forall x :: x in ps ==> x in pcbs)
    requires ds == Deltas(pcbs, ps) && t == pcbs[p].sleepTime
    ensures var q := ps[k];
      && p in pcbs1 && q in pcbs1 && q != p
      && var t1, t2 := pcbs1[p].sleepTime, pcbs1[q].sleepTime;
      if t1 <= t2 then k == Place(ds, t) && WithTime(pcbs1, q, t2 - t1) == ScannedPcbs(pcbs, ps, p)
      else Scanning(ds, t, pcbs, p, WithTime(pcbs1, p, t1 - t2), k + 1)
  {
    assert ds[k..][0] == ds[k] == pcbs[ps[k]].sleepTime;
    assert ds[k..][1..] == ds[k + 1..];
  }

  lemma ScanEnd(ds: seq<nat>, t: nat, pcbs: Pcbs, p: nat, pcbs1: Pcbs, ps: seq<nat>)
    requires Scanning(ds, t, pcbs, p, pcbs1, |ds|) && p !in ps && (forall x :: x in ps ==> x in pcbs)
    requires ds == Deltas(pcbs, ps) && t == pcbs[p].sleepTime
    ensures Place(ds, t) == |ds| && pcbs1 == ScannedPcbs(pcbs, ps, p)
  {
    assert ds[|ds|..] == [];
  }

  lemma EmptyScan(pcbs: Pcbs, p: nat)
    requires p in pcbs
    ensures Place(Deltas(pcbs, []), pcbs[p].sleepTime) == 0 && ScannedPcbs(pcbs, [], p) == pcbs
  {
  }

  lemma EmptyPlaces(cells: Cells, size: nat, head: nat, tail: nat, repaired: bool)
    requires ChainAt(cells, size, head, [])
    ensures QueueAt(cells, size, head, tail, []) && Position(repaired, 0, 0) == 0 && !Loses([], 0, tail)
  {
  }

  lemma LosesIs(s: seq<nat>, k: nat, tail: nat)
    ensures Loses(s, k, tail) <==> s != [] && k == |s| && tail != s[|s| - 1]
  {
  }

  lemma OnlyNode(cells: Cells, cells': Cells, size: nat, head: nat, tail: nat, node: nat)
    requires QueueAt(cells', size, head, tail, [] + [node]) && node in cells &&
      Data(cells', [] + [node]) == Data(cells, []) + [cells[node].data]
    ensures PutIn(cells, cells', size, head, [], 0, node) && tail == node
  {
    assert Inserted([], 0, node) == [] + [node];
  }

  // Where the branches link the node in
  lemma NodePlaces(cells: Cells, size: nat, head: nat, s: seq<nat>, k: nat)
    requires ChainAt(cells, size, head, s) && s != [] && k <= |s|
    ensures head == s[0] && head != 0 && (forall a :: a in s ==> a in cells && a != 0) && Link(s, |s|) == 0
    ensures k < |s| ==> s[k] in s && (s[k] == head <==> k == 0) && Link(s, k) == s[k]
  {
  }

  lemma PlaceIn(s: seq<nat>, k: nat, repaired: bool, tail: nat)
    requires s != [] && k <= |s| && !Loses(s, k, tail)
    ensures var pos := Position(repaired, |s|, k);
      && pos <= |s| && (k == |s| ==> pos == k && s[pos - 1] == tail && tail in s)
      && (k == 0 ==> pos == 0) && (0 < k < |s| ==> pos == if repaired then k else k + 1)
  {
  }

  // ---------------------------------------------------------------------------------------------
  // The append behind a tail that is not the last node

  // The two stores of the append
  function Appending(cells: Cells, tail: nat, node: nat): Cells
    requires node in cells && tail in cells
  {
    var cells1 := cells[node := cells[node].(next := 0)];
    cells1[tail := Cell(node, cells1[tail].data)]
  }

  lemma AppendingIs(cells: Cells, tail: nat, node: nat)
    requires node in cells && tail in cells
    ensures Appending(cells, tail, node).Keys == cells.Keys
    ensures node != tail ==>
      Appending(cells, tail, node) == cells[node := cells[node].(next := 0)][tail := Cell(node, cells[tail].data)]
  {
  }

  // tail may be an earlier node of the queue, a free block, or a node of another queue: afterwards no list of size + 1
  // nodes is left.
  lemma StaleTailLoses(cells: Cells, size: nat, head: nat, s: seq<nat>, tail: nat, node: nat, t: seq<nat>)
    requires ChainAt(cells, size, head, s) && s != [] && tail != s[|s| - 1] && tail in cells
    requires node !in s && node in cells && node != 0
    ensures !ChainAt(Appending(cells, tail, node), size + 1, head, t)
  {
    if tail in s {
      var j: nat :| j < |s| && s[j] == tail;
      EarlierTailLoses(cells, size, head, s, j, node, t);
    } else {
      StrayTailLoses(cells, size, head, s, tail, node, t);
    }
  }

  lemma EarlierTailLoses(cells: Cells, size: nat, head: nat, s: seq<nat>, j: nat, node: nat, t: seq<nat>)
    requires ChainAt(cells, size, head, s) && j + 1 < |s| && node !in s && node in cells && node != 0
    ensures !ChainAt(Appending(cells, s[j], node), size + 1, head, t)
  {
    var cells' := Appending(cells, s[j], node);
    if ChainAt(cells', size + 1, head, t) {
      SameStart(cells, size, head, s, j, cells', t, j);
      assert false;
    }
  }

  lemma StrayTailLoses(cells: Cells, size: nat, head: nat, s: seq<nat>, tail: nat, node: nat, t: seq<nat>)
    requires ChainAt(cells, size, head, s) && s != [] && tail !in s && tail in cells
    requires node !in s && node in cells && node != 0
    ensures !ChainAt(Appending(cells, tail, node), size + 1, head, t)
  {
    var cells' := Appending(cells, tail, node);
    var n := |s| - 1;
    if ChainAt(cells', size + 1, head, t) {
      SameStart(cells, size, head, s, n, cells', t, n);
      assert false;
    }
  }

  lemma {:induction false} SameStart(cells: Cells, size: nat, head: nat, s: seq<nat>, j: nat, cells': Cells,
      t: seq<nat>, i: nat)
    requires ChainAt(cells, size, head, s) && ChainAt(cells', size + 1, head, t) && i <= j < |s|
    requires forall k :: 0 <= k < j ==> s[k] in cells' && cells'[s[k]].next == cells[s[k]].next
    ensures t[i] == s[i]
  {
    if i > 0 {
      SameStart(cells, size, head, s, j, cells', t, i - 1);
      assert cells'[t[i - 1]].next == Link(t, i) && cells[s[i - 1]].next == Link(s, i);
    }
  }

  // What is reached from head in at most n steps
  function Walk(cells: Cells, head: nat, n: nat): seq<nat>
    decreases n
  {
    if n == 0 || head == 0 || head !in cells then [] else [head] + Walk(cells, cells[head].next, n - 1)
  }

  lemma {:induction false} WalkChain(cells: Cells, s: seq<nat>, head: nat, n: nat)
    requires head == Link(s, 0)
    requires forall i :: 0 <= i < |s| ==> s[i] != 0 && s[i] in cells && cells[s[i]].next == Link(s, i + 1)
    ensures Walk(cells, head, n) == if n < |s| then s[..n] else s
  {
    if n > 0 && s != [] {
      var t := s[1..];
      assert cells[s[0]].next == Link(t, 0);
      forall i | 0 <= i < |t| ensures t[i] != 0 && t[i] in cells && cells[t[i]].next == Link(t, i + 1) {
        assert t[i] == s[i + 1];
      }
      WalkChain(cells, t, cells[head].next, n - 1);
      assert s == [s[0]] + t && (n < |s| ==> s[..n] == [s[0]] + t[..n - 1]);
    }
  }

  // What is left of a queue after those stores, as dequeuing n times would find it
  lemma AppendingReached(cells: Cells, size: nat, head: nat, s: seq<nat>, tail: nat, node: nat, n: nat)
    requires ChainAt(cells, size, head, s) && node !in s && node in cells && node != 0 && tail in cells
    ensures var cells' := Appending(cells, tail, node);
      && Walk(cells', head, n) == AtMost(Cut(s, tail, s, node), n)
      && Data(cells', Walk(cells', head, n)) == AtMost(Cut(s, tail, Data(cells, s), cells[node].data), n)
  {
    var cells' := Appending(cells, tail, node);
    var t := Cut(s, tail, s, node);
    if tail in s {
      CutShort(cells, cells', size, head, s, IndexOf(s, tail) + 1, node);
    }
    assert head == Link(t, 0);
    hide Cut;
    WalkChain(cells', t, head, n);
    CutData(cells, cells', s, tail, node);
    assert Data(cells', AtMost(t, n)) == AtMost(Data(cells', t), n);
  }

  lemma CutData(cells: Cells, cells': Cells, s: seq<nat>, tail: nat, node: nat)
    requires node in cells && (forall a :: a in s ==> a in cells)
    requires forall a :: a in cells ==> a in cells' && cells'[a].data == cells[a].data
    ensures Data(cells', Cut(s, tail, s, node)) == Cut(s, tail, Data(cells, s), cells[node].data)
  {
  }

  // The list s with node put behind the first n nodes, all others cut off
  lemma CutShort(cells: Cells, cells': Cells, size: nat, head: nat, s: seq<nat>, n: nat, node: nat)
    requires ChainAt(cells, size, head, s) && 0 < n <= |s| && node !in s && node != 0 && node in cells
    requires cells' == Appending(cells, s[n - 1], node)
    ensures ChainAt(cells', n + 1, head, s[..n] + [node])
  {
    var t := s[..n] + [node];
    forall i | 0 <= i < |t| ensures t[i] != 0 && t[i] in cells' && cells'[t[i]].next == Link(t, i + 1) {
      if i < n { assert t[i] == s[i] && cells[s[i]].next == Link(s, i + 1); }
    }
  }

  // The node stands at place pos of the queue.
  ghost predicate PutIn(cells: Cells, cells': Cells, size: nat, head: nat, s: seq<nat>, pos: nat, node: nat)
    requires pos <= |s|
  {
    && node in cells && ChainAt(cells', size, head, Inserted(s, pos, node))
    && (forall a :: a in Inserted(s, pos, node) ==> a in cells')
    && Data(cells', Inserted(s, pos, node)) == Inserted(Data(cells, s), pos, cells[node].data)
  }

  lemma PutInMade(cells: Cells, cells': Cells, size: nat, head: nat, s: seq<nat>, pos: nat, node: nat)
    requires pos <= |s| && node in cells && ChainAt(cells', size, head, Inserted(s, pos, node))
    requires forall a :: a in Inserted(s, pos, node) ==> a in cells'
    requires Data(cells', Inserted(s, pos, node)) == Inserted(Data(cells, s), pos, cells[node].data)
    ensures PutIn(cells, cells', size, head, s, pos, node)
  {
  }

  // What the repaired insertion achieves in memory: tail is last again, the new sleeper gets its time and all others
  // keep theirs, and the last one wakes at the old end or at the new sleeper's time, whichever is later.
  lemma RepairedInsertion(cells: Cells, cells': Cells, size: nat, head: nat, tail: nat, s: seq<nat>, node: nat,
      pcbs: Pcbs)
    requires node in cells && (forall x :: x in Data(cells, s) ==> x in pcbs) && Distinct(Data(cells, s))
    requires cells[node].data in pcbs && cells[node].data !in Data(cells, s) && TailAt(s, tail)
    requires var k := Place(Deltas(pcbs, Data(cells, s)), pcbs[cells[node].data].sleepTime);
      PutIn(cells, cells', size, head, s, Position(true, |s|, k), node)
    ensures var p := cells[node].data;
      var ds := Deltas(pcbs, Data(cells, s)); var t := pcbs[p].sleepTime; var k := Place(ds, t);
      var pcbs' := ScannedPcbs(pcbs, Data(cells, s), p);
      && QueueAt(cells', size, head, if k == |s| then node else tail, Inserted(s, k, node))
      && (forall x :: x in Data(cells', Inserted(s, k, node)) ==> x in pcbs')
      && var ds' := Deltas(pcbs', Data(cells', Inserted(s, k, node)));
      TimesKept(ds, t, ds', k) && Sum(ds') == if Sum(ds) >= t then Sum(ds) else t
  {
    var p := cells[node].data;
    var ds, t := Deltas(pcbs, Data(cells, s)), pcbs[p].sleepTime;
    var k := Place(ds, t);
    InsertedAt(s, k, node);
    hide ChainAt, Place, Rest, Scanned, Inserted, ScannedPcbs, Deltas, Data, TimesKept;
    InsertBefore(ds, t);
    ScannedDeltas(pcbs, Data(cells, s), p, k);
  }

  class Queue {
    var size: nat
    var head: nat
    var tail: nat

    // queue_init
    constructor ()
      ensures size == 0 && head == 0 && tail == 0
    {
      size := 0;
      head := 0;
      tail := 0;
    }

    // queue_enqueue
    method Enqueue(mem: BlockAllocator, node: nat, ghost s: seq<nat>)
      requires mem.Valid() && QueueAt(mem.cells, size, head, tail, s) && node in mem.used && node !in s
      requires forall a :: a in s ==> a in mem.used
      modifies this, mem`cells
      ensures mem.Valid() && node in old(mem.cells) && QueueAt(mem.cells, size, head, tail, s + [node])
      ensures tail == node && size == |s| + 1 && mem.cells.Keys == old(mem.cells).Keys
      ensures forall a :: a in s ==> a in old(mem.cells)
      ensures Data(mem.cells, s + [node]) == Data(old(mem.cells), s) + [old(mem.cells)[node].data]
      ensures forall a :: a in old(mem.cells) && a !in s && a != node ==>
        a in mem.cells && mem.cells[a] == old(mem.cells)[a]
    {
      mem.Counted();
      ghost var cells := mem.cells;
      hide BlockAllocator.Valid, Data, ChainAt;
      ChainLink(cells, size, head, s, 0);
      mem.Write(node, mem.cells[node].(next := 0));
      if size == 0 {
        head := node;
        tail := node;
      } else {
        assert tail in s;
        mem.Write(tail, mem.cells[tail].(next := node));
        tail := node;
      }
      Appended(cells, mem.cells, size, old(head), old(tail), s, node);
      size := size + 1;
    }

    // queue_dequeue. The tail is left alone, also when it is the node that goes.
    method Dequeue(mem: BlockAllocator, ghost s: seq<nat>) returns (node: nat)
      requires ChainAt(mem.cells, size, head, s)
      modifies this`head, this`size
      ensures s == [] ==> node == 0 && head == old(head) && size == old(size)
      ensures s != [] ==> node == s[0] && node in mem.cells && head == mem.cells[node].next && size == old(size) - 1
    {
      if size == 0 {
        return 0;
      }
      node := head;
      head := mem.cells[head].next;
      size := size - 1;
    }

    // queue_enqueue_prio with the comparator sleep_insert. As written, a node that belongs before another one is
    // linked in after it (only in front is it linked in before), and tail is left alone; repaired, it is linked in
    // before. An append stores through tail, wherever that leads: unless it is the last node, the queue is lost.
    method EnqueuePrio(mem: BlockAllocator, procs: ProcessTable, node: nat, repaired: bool,
        ghost s: seq<nat>) returns (lost: bool)
      requires mem.Valid() && ChainAt(mem.cells, size, head, s) && node in mem.used && node !in s
      requires node != 0 && (forall a :: a in s ==> a in mem.used) && (s != [] ==> tail in mem.cells)
      requires node in mem.cells && var ps := Data(mem.cells, s); var p := mem.cells[node].data;
        p in procs.pcbs && p !in ps && forall x :: x in ps ==> x in procs.pcbs
      modifies this, mem`cells, procs
      ensures var ps := Data(old(mem.cells), s); var p := old(mem.cells)[node].data;
        var k := Place(Deltas(old(procs.pcbs), ps), old(procs.pcbs)[p].sleepTime);
        && procs.pcbs == ScannedPcbs(old(procs.pcbs), ps, p) && mem.cells.Keys == old(mem.cells).Keys
        && lost == Loses(s, k, old(tail)) && size == |s| + 1
        && tail == (if k == |s| then node else old(tail))
        && (lost ==>
          old(tail) in old(mem.cells) && head == old(head) &&
          mem.cells == Appending(old(mem.cells), old(tail), node))
        && (!lost ==> mem.Valid() && PutIn(old(mem.cells), mem.cells, size, head, s, Position(repaired, |s|, k), node))
      ensures !lost ==> forall a :: a in old(mem.cells) && a !in s && a != node ==>
        a in mem.cells && mem.cells[a] == old(mem.cells)[a]
    {
      hide *;
      ghost var cells := mem.cells;
      ChainLink(mem.cells, size, head, s, 0);
      if size == 0 {
        EmptyScan(procs.pcbs, mem.cells[node].data);
        EmptyPlaces(mem.cells, size, head, tail, repaired);
        Enqueue(mem, node, s);
        OnlyNode(cells, mem.cells, size, head, tail, node);
        lost := false;
      } else {
        var k, before, other := Scan(mem, procs, node, s);
        lost := LinkNode(mem, other, before, node, repaired, s, k);
      }
    }

    // Its last part: before and other are the nodes around the place the scan found.
    method LinkNode(mem: BlockAllocator, other: nat, before: nat, node: nat, repaired: bool, ghost s: seq<nat>,
        ghost k: nat) returns (lost: bool)
      requires mem.Valid() && ChainAt(mem.cells, size, head, s) && s != [] && node in mem.used && node !in s
      requires node != 0 && (forall a :: a in s ==> a in mem.used) && tail in mem.cells
      requires k <= |s| && other == Link(s, k) && (k > 0 ==> before == s[k - 1])
      modifies this, mem`cells
      ensures node in old(mem.cells) && lost == Loses(s, k, old(tail)) && size == |s| + 1
      ensures tail == (if k == |s| then node else old(tail)) && mem.cells.Keys == old(mem.cells).Keys
      ensures lost ==> head == old(head) && mem.cells == Appending(old(mem.cells), old(tail), node)
      ensures !lost ==>
        mem.Valid() && PutIn(old(mem.cells), mem.cells, size, head, s, Position(repaired, |s|, k), node)
      ensures !lost ==> forall a :: a in old(mem.cells) && a !in s && a != node ==>
        a in mem.cells && mem.cells[a] == old(mem.cells)[a]
    {
      hide *;
      mem.Counted();
      ChainLink(mem.cells, size, head, s, k);
      NodePlaces(mem.cells, size, head, s, k);
      LosesIs(s, k, tail);
      lost := other == 0 && before != tail;   // of no concern to the code
      if !lost { PlaceIn(s, k, repaired, tail); }
      ghost var cells := mem.cells;
      if other == 0 {
        AppendingIs(cells, tail, node);
        StoreBehind(mem, node);
      } else if other == head {
        mem.Write(node, mem.cells[node].(next := head));
        head := node;
      } else if repaired {
        LinkBetween(mem, node, before, other);
      } else {
        LinkBetween(mem, node, other, mem.cells[other].next);
      }
      size := size + 1;
      if !lost {
        LinkedIn(cells, mem.cells, size - 1, old(head), s, Position(repaired, |s|, k), node);
        PutInMade(cells, mem.cells, size, head, s, Position(repaired, |s|, k), node);
      }
    }

    // node becomes the tail: the two stores of the append
    method StoreBehind(mem: BlockAllocator, node: nat)
      requires mem.Valid() && node in mem.used && node in mem.cells && tail in mem.cells
      modifies this`tail, mem`cells
      ensures tail == node && mem.cells == Appending(old(mem.cells), old(tail), node)
      ensures old(tail) in mem.used ==> mem.Valid()
    {
      hide BlocksAt, FreeAt, BlockAllocator.Valid;
      mem.Write(node, mem.cells[node].(next := 0));
      mem.Store(tail, Cell(node, mem.cells[tail].data));
      tail := node;
    }

    // The node is stored between two others.
    method LinkBetween(mem: BlockAllocator, node: nat, before: nat, next: nat)
      requires mem.Valid() && node in mem.used && before in mem.used && node != before && node in mem.cells &&
        before in mem.cells
      modifies mem`cells
      ensures mem.Valid()
      ensures mem.cells == old(mem.cells)[node := old(mem.cells)[node].(next := next)][before := Cell(node,
        old(mem.cells)[before].data)]
    {
      hide *;
      mem.Write(node, mem.cells[node].(next := next));
      mem.Write(before, mem.cells[before].(next := node));
    }

    // Its loop
    method Scan(mem: BlockAllocator, procs: ProcessTable, node: nat, ghost s: seq<nat>) returns (ghost k: nat,
        before: nat, other: nat)
      requires ChainAt(mem.cells, size, head, s) && s != [] && node in mem.cells
      requires var ps := Data(mem.cells, s); var p := mem.cells[node].data;
        p in procs.pcbs && p !in ps && forall x :: x in ps ==> x in procs.pcbs
      modifies procs
      ensures var ps := Data(mem.cells, s); var p := mem.cells[node].data;
        && k == Place(Deltas(old(procs.pcbs), ps), old(procs.pcbs)[p].sleepTime) && k <= |s|
        && other == Link(s, k) && (k > 0 ==> before == s[k - 1]) && procs.pcbs == ScannedPcbs(old(procs.pcbs), ps, p)
    {
      hide *;
      ChainLink(mem.cells, size, head, s, 0);
      var p := mem.cells[node].data;
      ghost var ps := Data(mem.cells, s);
      ghost var pcbs := procs.pcbs;
      ghost var ds, t := Deltas(pcbs, ps), pcbs[p].sleepTime;
      ScanStart(ds, t, pcbs, p);
      other := head;
      before := 0;
      k := 0;
      while other != 0
        invariant k <= |s| && other == Link(s, k) && (k > 0 ==> before == s[k - 1]) &&
          Scanning(ds, t, pcbs, p, procs.pcbs, k)
        decreases |s| - k
      {
        ChainLink(mem.cells, size, head, s, k);
        ScanAt(ds, t, pcbs, p, procs.pcbs, ps, k);
        var q := mem.cells[other].data;
        var cmp := procs.SleepInsert(p, q);
        if cmp <= 0 {
          return;
        }
        before := other;
        other := mem.cells[other].next;
        k := k + 1;
      }
      ChainLink(mem.cells, size, head, s, k);
      ScanEnd(ds, t, pcbs, p, procs.pcbs, ps);
    }
  }
}
