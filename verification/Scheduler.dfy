// scheduler.c: the scheduler itself, on linked queues whose nodes come from the block allocator. Every method is
// proved against the step of module SchedulerModel of the same name.
module Scheduler {
  import opened Blocks
  import opened Lists
  import opened Processes
  import opened Queues
  import opened SchedulerModel
  import opened Sleepers

  const MAX_NODES: nat := 2046
  const MAX_PCBS: nat := 1024

  datatype Rec = Rec(size: nat, head: nat, tail: nat)

  ghost predicate ListAt(cells: Cells, r: Rec, s: seq<nat>) {
    ChainAt(cells, r.size, r.head, s) && (s != [] ==> r.tail in cells)
  }

  // The lists are disjoint and together hold all nodes in use.
  ghost predicate NodesAt(cells: Cells, used: set<nat>, ns: seq<seq<nat>>) {
    && |ns| == 5
    && (forall i, a :: 0 <= i < 5 && a in ns[i] ==> a in used)
    && (forall i, j, a :: 0 <= i < j < 5 && a in ns[i] ==> a !in ns[j])
    && (forall a :: a in used ==> a in cells && exists i :: 0 <= i < 5 && a in ns[i])
  }

  // The queues in memory: 0 to 3 are the ready queues, 4 is the sleep queue. Its tail, and only its, may lead to any
  // block that was ever taken.
  ghost predicate QueuesAt(cells: Cells, used: set<nat>, recs: seq<Rec>, ns: seq<seq<nat>>) {
    && |recs| == 5 && NodesAt(cells, used, ns)
    && forall i :: 0 <= i < 5 ==> ListAt(cells, recs[i], ns[i]) && (i < 4 ==> TailAt(ns[i], recs[i].tail))
  }

  ghost function Queued4(cells: Cells, ns: seq<seq<nat>>): (r: seq<seq<nat>>)
    requires |ns| == 5
    ensures |r| == 4
  {
    [Data(cells, ns[0]), Data(cells, ns[1]), Data(cells, ns[2]), Data(cells, ns[3])]
  }

  // ---------------------------------------------------------------------------------------------
  // Steps on the queues

  lemma OneQueue(cells: Cells, used: set<nat>, recs: seq<Rec>, ns: seq<seq<nat>>, k: nat)
    requires QueuesAt(cells, used, recs, ns) && k < 5
    ensures |recs| == 5 && |ns| == 5 && (forall a :: a in ns[k] ==> a in used && a in cells)
    ensures ListAt(cells, recs[k], ns[k]) && (k < 4 ==> TailAt(ns[k], recs[k].tail))
    ensures forall i, a :: 0 <= i < 5 && i != k && a in ns[i] ==> a !in ns[k]
    ensures forall a :: a in used ==> a in cells
  {
    hide ListAt, TailAt;
  }

  lemma ListFrame(cells: Cells, cells': Cells, r: Rec, s: seq<nat>)
    requires ListAt(cells, r, s) && cells.Keys <= cells'.Keys
    requires forall a :: a in s ==> a in cells && a in cells' && cells'[a] == cells[a]
    ensures ListAt(cells', r, s) && Data(cells', s) == Data(cells, s)
  {
  }

  // A change in queue k leaves the others alone.
  lemma OtherQueues(cells: Cells, used: set<nat>, recs: seq<Rec>, ns: seq<seq<nat>>, cells': Cells, k: nat)
    requires QueuesAt(cells, used, recs, ns) && k < 5 && cells.Keys <= cells'.Keys
    requires forall a :: a in used && a !in ns[k] ==> a in cells' && cells'[a] == cells[a]
    ensures |recs| == 5 && |ns| == 5
    ensures forall i :: 0 <= i < 5 && i != k ==>
      ListAt(cells', recs[i], ns[i]) && Data(cells', ns[i]) == Data(cells, ns[i])
  {
    hide ListAt, Data, QueuesAt, TailAt;
    OneQueue(cells, used, recs, ns, 0);
    forall i | 0 <= i < 5 && i != k
      ensures ListAt(cells', recs[i], ns[i]) && Data(cells', ns[i]) == Data(cells, ns[i])
    {
      OneQueue(cells, used, recs, ns, i);
      OneQueue(cells, used, recs, ns, k);
      ListFrame(cells, cells', recs[i], ns[i]);
    }
  }

  // Queue k takes a new node in; the others are as they were.
  lemma NodeAdded(cells: Cells, used: set<nat>, recs: seq<Rec>, ns: seq<seq<nat>>,
                  cells': Cells, k: nat, r: Rec, s: seq<nat>, node: nat)
    requires QueuesAt(cells, used, recs, ns) && k < 5 && node !in used && node in cells' && cells.Keys <= cells'.Keys
    requires forall a :: a in used && a !in ns[k] ==> a in cells' && cells'[a] == cells[a]
    requires forall a :: a in ns[k] ==> a in cells'
    requires ListAt(cells', r, s) && (k < 4 ==> TailAt(s, r.tail))
    requires forall a :: a in s <==> a == node || a in ns[k]
    ensures QueuesAt(cells', used + {node}, recs[k := r], ns[k := s])
    ensures forall i :: 0 <= i < 5 && i != k ==> Data(cells', ns[i]) == Data(cells, ns[i])
  {
    OtherQueues(cells, used, recs, ns, cells', k);
    NodesMore(cells, used, ns, cells', k, s, node);
    hide ListAt, Data, NodesAt, TailAt;
  }

  lemma NodesMore(cells: Cells, used: set<nat>, ns: seq<seq<nat>>, cells': Cells, k: nat, s: seq<nat>, node: nat)
    requires NodesAt(cells, used, ns) && k < 5 && node !in used && node in cells'
    requires forall a :: a in used ==> a in cells'
    requires forall a :: a in s <==> a == node || a in ns[k]
    ensures NodesAt(cells', used + {node}, ns[k := s])
  {
    var ns' := ns[k := s];
    forall a | a in used + {node} ensures a in cells' && exists i :: 0 <= i < 5 && a in ns'[i] {
      if a == node { assert a in ns'[k]; } else {
        var i :| 0 <= i < 5 && a in ns[i];
        assert a in ns'[i];
      }
    }
  }

  // The first node of queue k is taken out and freed.
  lemma NodeRemoved(cells: Cells, used: set<nat>, recs: seq<Rec>, ns: seq<seq<nat>>,
                    cells': Cells, k: nat, r: Rec)
    requires QueuesAt(cells, used, recs, ns) && k < 5 && ns[k] != [] && ns[k][0] in cells && recs[k].size > 0
    requires cells.Keys <= cells'.Keys && forall a :: a in used && a != ns[k][0] ==>
      a in cells' && cells'[a] == cells[a]
    requires r == Rec(recs[k].size - 1, cells[ns[k][0]].next, recs[k].tail)
    ensures QueuesAt(cells', used - {ns[k][0]}, recs[k := r], ns[k := ns[k][1..]])
    ensures forall i :: 0 <= i < 5 && i != k ==> Data(cells', ns[i]) == Data(cells, ns[i])
    ensures Data(cells, ns[k]) == [cells[ns[k][0]].data] + Data(cells', ns[k][1..])
  {
    hide *;
    OneQueue(cells, used, recs, ns, k);
    assert ns[k][0] in ns[k];
    OtherQueues(cells, used, recs, ns, cells', k);
    RestOf(cells, cells', recs[k], ns[k], r, used);
    NodesOf(cells, used, recs, ns);
    NodesFewer(cells, used, ns, cells', k);
    QueuesMade(cells, cells', used, used - {ns[k][0]}, recs, ns, k, r, ns[k][1..]);
  }

  lemma NodesOf(cells: Cells, used: set<nat>, recs: seq<Rec>, ns: seq<seq<nat>>)
    requires QueuesAt(cells, used, recs, ns)
    ensures NodesAt(cells, used, ns)
  {
    hide NodesAt, ListAt, TailAt;
  }

  // One queue has changed.
  lemma QueuesMade(cells: Cells, cells': Cells, used: set<nat>, used': set<nat>, recs: seq<Rec>, ns: seq<seq<nat>>,
      k: nat, r: Rec, s: seq<nat>)
    requires QueuesAt(cells, used, recs, ns) && k < 5 && |recs| == 5 && |ns| == 5
    requires NodesAt(cells', used', ns[k := s]) && ListAt(cells', r, s)
    requires forall i :: 0 <= i < 5 && i != k ==> ListAt(cells', recs[i], ns[i])
    requires k < 4 ==> TailAt(ns[k], recs[k].tail) ==> TailAt(s, r.tail)
    ensures QueuesAt(cells', used', recs[k := r], ns[k := s])
  {
    hide NodesAt, ListAt, TailAt;
  }

  lemma NodesFewer(cells: Cells, used: set<nat>, ns: seq<seq<nat>>, cells': Cells, k: nat)
    requires NodesAt(cells, used, ns) && k < 5 && ns[k] != [] && ns[k][0] !in ns[k][1..]
    requires forall a :: a in used && a != ns[k][0] ==> a in cells'
    ensures NodesAt(cells', used - {ns[k][0]}, ns[k := ns[k][1..]])
  {
    var node, ns' := ns[k][0], ns[k := ns[k][1..]];
    assert ns[k] == [node] + ns[k][1..];
    assert node in ns[k];
    forall a | a in used - {node} ensures a in cells' && exists i :: 0 <= i < 5 && a in ns'[i] {
      var i :| 0 <= i < 5 && a in ns[i];
      assert a in ns'[i];
    }
  }

  lemma RestOf(cells: Cells, cells': Cells, r0: Rec, s: seq<nat>, r: Rec, used: set<nat>)
    requires ListAt(cells, r0, s) && s != [] && s[0] in cells && r0.size > 0 && cells.Keys <= cells'.Keys
    requires forall a :: a in s ==> a in used
    requires forall a :: a in used && a != s[0] ==> a in cells' && a in cells && cells'[a] == cells[a]
    requires r == Rec(r0.size - 1, cells[s[0]].next, r0.tail)
    ensures s[0] !in s[1..] && ListAt(cells', r, s[1..]) && (TailAt(s, r0.tail) ==> TailAt(s[1..], r.tail))
    ensures Data(cells, s) == [cells[s[0]].data] + Data(cells', s[1..])
  {
    hide *;
    var t := s[1..];
    ListIsChain(cells, r0, s);
    LastIsTail(cells, r0.size, r0.head, s);
    HeadTaken(cells, r0.size, r0.head, s[|s| - 1], s);
    TailShorter(cells, r, r0, s);
    assert s == [s[0]] + t;
    assert forall a :: a in t ==> a in s && a != s[0];
    ListFrame(cells, cells', r, t);
  }

  lemma LastIsTail(cells: Cells, size: nat, head: nat, s: seq<nat>)
    requires ChainAt(cells, size, head, s) && s != []
    ensures QueueAt(cells, size, head, s[|s| - 1], s)
  {
    hide ChainAt;
  }

  lemma TailShorter(cells: Cells, r: Rec, r0: Rec, s: seq<nat>)
    requires s != [] && r0.tail in cells && r.tail == r0.tail
    requires QueueAt(cells, r.size, r.head, s[|s| - 1], s[1..])
    ensures ListAt(cells, r, s[1..]) && (TailAt(s, r0.tail) ==> TailAt(s[1..], r.tail))
  {
    hide ChainAt;
  }

  // ---------------------------------------------------------------------------------------------
  // Counting nodes

  lemma {:induction false} InjectiveSize(a: set<nat>, cells: Cells, b: set<nat>)
    requires forall x :: x in a ==> x in cells && cells[x].data in b
    requires forall x, y :: x in a && y in a && x != y ==> cells[x].data != cells[y].data
    ensures |a| <= |b|
  {
    if a != {} {
      var x :| x in a;
      InjectiveSize(a - {x}, cells, b - {cells[x].data});
    }
  }

  // Every node in use carries another process than the one that runs.
  lemma NodesInUse(cells: Cells, used: set<nat>, recs: seq<Rec>, ns: seq<seq<nat>>, w: Sched)
    requires QueuesAt(cells, used, recs, ns) && Good(w)
    requires w.ready == Queued4(cells, ns) && w.asleep == Data(cells, ns[4])
    ensures |used| <= |w.pcbs.Keys - {w.current}|
  {
    hide ListAt, TailAt;
    forall x | x in used ensures x in cells && cells[x].data in w.pcbs.Keys - {w.current} {
      var i :| 0 <= i < 5 && x in ns[i];
      NodeProcess(cells, used, recs, ns, w, x, i);
    }
    forall x, y | x in used && y in used && x != y ensures cells[x].data != cells[y].data {
      var i :| 0 <= i < 5 && x in ns[i];
      var j :| 0 <= j < 5 && y in ns[j];
      NodeProcess(cells, used, recs, ns, w, x, i);
      NodeProcess(cells, used, recs, ns, w, y, j);
      if i == j {
        SameQueueApart(cells, ns[i], x, y);
      }
    }
    InjectiveSize(used, cells, w.pcbs.Keys - {w.current});
  }

  // The queue a process stands in follows from its state and priority.
  lemma NodeProcess(cells: Cells, used: set<nat>, recs: seq<Rec>, ns: seq<seq<nat>>, w: Sched, x: nat, i: nat)
    requires QueuesAt(cells, used, recs, ns) && Good(w)
    requires w.ready == Queued4(cells, ns) && w.asleep == Data(cells, ns[4]) && i < 5 && x in ns[i]
    ensures x in cells && cells[x].data in w.pcbs && cells[x].data != w.current && Distinct(Data(cells, ns[i]))
    ensures (forall a :: a in ns[i] ==> a in cells)
    ensures var pcb := w.pcbs[cells[x].data];
      if i == 4 then pcb.state == Sleeping else pcb.state == Ready && pcb.priority == i
  {
    OneQueue(cells, used, recs, ns, i);
    hide QueuesAt, ListAt;
    var j :| 0 <= j < |ns[i]| && ns[i][j] == x;
    assert Data(cells, ns[i])[j] == cells[x].data;
    assert cells[x].data in Data(cells, ns[i]);
    if i < 4 {
      assert Queued4(cells, ns)[i] == Data(cells, ns[i]);
      assert ReadyQueue(w, i);
    }
  }

  lemma SameQueueApart(cells: Cells, s: seq<nat>, x: nat, y: nat)
    requires x in s && y in s && x != y && Distinct(Data(cells, s)) && forall a :: a in s ==> a in cells
    ensures cells[x].data != cells[y].data
  {
    var i :| 0 <= i < |s| && s[i] == x;
    var j :| 0 <= j < |s| && s[j] == y;
    assert Data(cells, s)[i] == cells[x].data && Data(cells, s)[j] == cells[y].data;
    assert i < j || j < i;
  }

  // ---------------------------------------------------------------------------------------------
  // The scheduler

  // NothingToRun and BadState are panics. SleeperLost is not: it tells that from here on a process is missing.
  datatype DispatchResult = Runs | NothingToRun | SleeperLost
  datatype ScheduleResult = Scheduled | BadState | SleeperLost

  // queue_init for the four ready queues
  method NewQueues() returns (qs: seq<Queue>)
    ensures |qs| == 4 && (forall i, j :: 0 <= i < j < 4 ==> qs[i] != qs[j])
    ensures forall q :: q in qs ==> fresh(q) && q.size == 0 && q.head == 0 && q.tail == 0
  {
    var q0 := new Queue();
    var q1 := new Queue();
    var q2 := new Queue();
    var q3 := new Queue();
    qs := [q0, q1, q2, q3];
  }

  class Scheduler {
    const nodes: BlockAllocator       // ba_qnodes
    const pcbBlocks: BlockAllocator   // ba_pcbs
    const procs: ProcessTable
    const ready: seq<Queue>           // queues
    const sleepQueue: Queue
    const repaired: bool              // which queue_enqueue_prio runs
    var current: nat                  // current_pcb
    var quantumLeft: nat
    var prevTicks: nat
    ghost var ns: seq<seq<nat>>

    ghost predicate Shape() {
      && |ready| == 4 && nodes != pcbBlocks && sleepQueue !in ready
      && forall i, j :: 0 <= i < j < 4 ==> ready[i] != ready[j]
    }

    ghost function Recs(): (r: seq<Rec>)
      requires Shape()
      reads ready, sleepQueue
      ensures |r| == 5
    {
      [Rec(ready[0].size, ready[0].head, ready[0].tail), Rec(ready[1].size, ready[1].head, ready[1].tail),
       Rec(ready[2].size, ready[2].head, ready[2].tail), Rec(ready[3].size, ready[3].head, ready[3].tail),
       Rec(sleepQueue.size, sleepQueue.head, sleepQueue.tail)]
    }

    // The queues are in order.
    ghost predicate Linked()
      reads this, nodes, ready, sleepQueue
    {
      && Shape() && nodes.Valid() && nodes.maxBlocks == MAX_NODES && nodes.blockSize == NODE_SIZE
      && QueuesAt(nodes.cells, nodes.used, Recs(), ns)
    }

    ghost function Abs(): Sched
      reads this, nodes, procs, sleepQueue
    {
      Sched(procs.pcbs, current, if |ns| == 5 then Queued4(nodes.cells, ns) else [],
            if |ns| == 5 then Data(nodes.cells, ns[4]) else [], quantumLeft, prevTicks, NodesNow(), repaired)
    }

    ghost function NodesNow(): Nodes
      reads this`ns, nodes`free, nodes`implicitNext, sleepQueue`tail
    {
      Nodes(ns, nodes.free, nodes.implicitNext, sleepQueue.tail)
    }

    // The processes that dequeuing as often as a queue counts would find in it
    ghost function Seen(q: Queue): seq<nat>
      reads nodes, q
    {
      Data(nodes.cells, Walk(nodes.cells, q.head, q.size))
    }

    // What is in memory, whether the queues are in order or not
    ghost predicate Sees(w: Sched)
      reads this, nodes, procs, ready, sleepQueue
    {
      && procs.pcbs == w.pcbs && current == w.current && |ready| == |w.ready| && Seen(sleepQueue) == w.asleep
      && forall i :: 0 <= i < |ready| ==> Seen(ready[i]) == w.ready[i]
    }

    ghost predicate Pcbs()
      reads this, procs, pcbBlocks
    {
      pcbBlocks.Valid() && pcbBlocks.maxBlocks == MAX_PCBS && procs.pcbs.Keys == pcbBlocks.used
    }

    // What holds between system calls
    ghost predicate Valid()
      reads this, nodes, procs, ready, sleepQueue, pcbBlocks
    {
      Linked() && Pcbs() && Settled(Abs()) && Matched(Abs())
    }

    // scheduler_init, and the process create_init_process starts with
    constructor (nodeRegion: nat, pcbRegion: nat, fixed: bool)
      requires nodeRegion > 0 && pcbRegion > 0
      ensures Valid() && fresh({nodes, pcbBlocks, procs, sleepQueue}) && forall q :: q in ready ==> fresh(q)
      ensures procs.pcbs == map[current := Pcb(Ready, 1, 0)] && current != 0 && quantumLeft == 10 && repaired == fixed
    {
      Regions();
      hide BlocksAt, FreeAt, Block, BlockSet, QueuesAt, Settled, Data, BlockAllocator.Valid, Valid, Linked, Pcbs, Abs,
        Good, QueueAt, Matched, NodesNow;
      var ba := new BlockAllocator(nodeRegion, 16 * 2048 + 16, 16);
      var pcbs := new BlockAllocator(pcbRegion, 40 * 1024 + 48, 40);
      var table := new ProcessTable();
      var qs := NewQueues();
      var asleep := new Queue();
      var init := pcbs.Alloc();
      table.Write(init, Pcb(Ready, 1, 0));
      nodes, pcbBlocks, procs := ba, pcbs, table;
      ready, sleepQueue := qs, asleep;
      current, quantumLeft, prevTicks := init, 10, 10;
      repaired := fixed;
      ns := [[], [], [], [], []];
      new;
      assert Recs() == [Rec(0, 0, 0), Rec(0, 0, 0), Rec(0, 0, 0), Rec(0, 0, 0), Rec(0, 0, 0)];
      hide Recs, Shape;
      StartQueues(nodes.cells, Recs());
      StartGood(init, repaired, nodes.implicitNext);
      Starts(init);
    }

    lemma Starts(init: nat)
      requires Shape() && nodes.Valid() && nodes.maxBlocks == MAX_NODES && nodes.blockSize == 16 && nodes.used == {}
      requires pcbBlocks.Valid() && pcbBlocks.maxBlocks == MAX_PCBS && pcbBlocks.used == {init}
      requires procs.pcbs == map[init := Pcb(Ready, 1, 0)] && current == init
      requires quantumLeft == 10 && prevTicks == 10 && nodes.free == [] && sleepQueue.tail == 0
      requires ns == [[], [], [], [], []] && QueuesAt(nodes.cells, {}, Recs(), ns)
      requires Settled(StartState(init, repaired, nodes.implicitNext)) &&
        Matched(StartState(init, repaired, nodes.implicitNext))
      ensures Valid()
    {
      hide QueuesAt, Settled, Matched, BlocksAt, FreeAt;
      assert forall cells :: Data(cells, []) == [];
      assert Abs() == StartState(init, repaired, nodes.implicitNext);
    }

    lemma LinkedParts()
      requires Linked()
      ensures |ready| == 4 && |ns| == 5 && sleepQueue !in ready && nodes.Valid() && nodes.maxBlocks == MAX_NODES
      ensures nodes.blockSize == NODE_SIZE && Paired(Abs()) && Shape() && QueuesAt(nodes.cells, nodes.used, Recs(), ns)
    {
      hide ListAt, BlocksAt, FreeAt;
    }

    // schedule: a node from the allocator, for process p. The ASSERT on it holds because a node is free.
    method NewNode(p: nat) returns (node: nat)
      requires Linked() && |nodes.used| < MAX_NODES
      modifies nodes
      ensures nodes.Valid() && node != 0 && node !in old(nodes.used) && nodes.used == old(nodes.used) + {node}
      ensures node in nodes.cells && nodes.cells[node].data == p && node == NextNode(old(Abs()).nodes)
      ensures QueuesAt(nodes.cells, old(nodes.used), Recs(), ns)
      ensures Abs() == old(Abs()).(nodes := Taken(old(Abs()).nodes))
    {
      hide *;
      LinkedParts();
      AbsIs();
      InQueues(nodes.cells, nodes.used, Recs(), ns);
      label before:
      node := NodeFor(p);
      NodeTaken@before();
    }

    // The queues' own nodes are as they were.
    twostate lemma NodeTaken()
      requires old(Linked()) && unchanged(this) && unchanged(ready) && unchanged(sleepQueue) && unchanged(procs)
      requires old(nodes.cells).Keys <= nodes.cells.Keys
      requires forall a :: a in old(nodes.used) ==> a in old(nodes.cells) && nodes.cells[a] == old(nodes.cells)[a]
      ensures QueuesAt(nodes.cells, old(nodes.used), Recs(), ns) && Abs() == old(Abs()).(nodes := NodesNow())
    {
      QueuesFrame(old(nodes.cells), nodes.cells, old(nodes.used), old(Recs()), ns);
      hide QueuesAt, Data, BlockAllocator.Valid;
    }

    method NodeFor(p: nat) returns (node: nat)
      requires nodes.Valid() && |nodes.used| < nodes.maxBlocks && nodes.blockSize == NODE_SIZE
      modifies nodes
      ensures nodes.Valid() && node != 0 && node !in old(nodes.used) && nodes.used == old(nodes.used) + {node}
      ensures node in nodes.cells && nodes.cells[node].data == p && old(nodes.cells).Keys <= nodes.cells.Keys
      ensures forall a :: a in old(nodes.used) ==> a in old(nodes.cells) && nodes.cells[a] == old(nodes.cells)[a]
      ensures node == NextNode(old(NodesNow())) && NodesNow() == Taken(old(NodesNow()))
    {
      hide *;
      node := NewBlock();
      Fill(node, p);
    }

    // block_alloc(ba_qnodes)
    method NewBlock() returns (node: nat)
      requires nodes.Valid() && |nodes.used| < nodes.maxBlocks && nodes.blockSize == NODE_SIZE
      modifies nodes
      ensures nodes.Valid() && node != 0 && node !in old(nodes.used) && nodes.used == old(nodes.used) + {node}
      ensures node in nodes.cells && old(nodes.cells).Keys <= nodes.cells.Keys
      ensures forall a :: a in old(nodes.used) ==> a in old(nodes.cells) && nodes.cells[a] == old(nodes.cells)[a]
      ensures node == NextNode(old(NodesNow())) && NodesNow() == Taken(old(NodesNow()))
    {
      hide *;
      TakenIs(Nodes(ns, nodes.free, nodes.implicitNext, sleepQueue.tail));
      NodesAre();
      node := nodes.Alloc();
      NodesAre();
    }

    lemma NodesAre()
      ensures NodesNow() == Nodes(ns, nodes.free, nodes.implicitNext, sleepQueue.tail)
    {
    }

    // node->data = pcb
    method Fill(node: nat, p: nat)
      requires nodes.Valid() && node in nodes.used
      modifies nodes`cells
      ensures nodes.Valid() && node in old(nodes.cells) && nodes.cells.Keys == old(nodes.cells).Keys
      ensures nodes.cells == old(nodes.cells)[node := old(nodes.cells)[node].(data := p)]
    {
      hide *;
      InUse();
      nodes.Write(node, nodes.cells[node].(data := p));
    }

    // Its first case: the node goes to the end of ready queue k.
    method AppendReady(k: nat, node: nat)
      requires Shape() && nodes.Valid() && nodes.maxBlocks == MAX_NODES && nodes.blockSize == NODE_SIZE
      requires k < 4 && node in nodes.used && node != 0
      requires QueuesAt(nodes.cells, nodes.used - {node}, Recs(), ns)
      modifies ready[k], nodes`cells, this`ns
      ensures Linked() && node in old(nodes.cells) &&
        Abs() == PutReady(old(Abs()), k, old(nodes.cells)[node].data, node)
      ensures |ns| == 5 && ns[4] == old(ns)[4]
    {
      hide QueuesAt, QueueAt, Data, Recs, Queued4, BlockAllocator.Valid, TailAt, ListAt;
      ghost var cells, used, recs := nodes.cells, nodes.used - {node}, Recs();
      OneQueue(cells, used, recs, ns, k);
      InUse();
      RecAt(k);
      ReadyIsQueue(cells, recs[k], ns[k]);
      label before:
      ready[k].Enqueue(nodes, node, ns[k]);
      RecsChange@before(k);
      InUse();
      Enqueued(cells, used, recs, ns, nodes.cells, k, Rec(ready[k].size, ready[k].head, ready[k].tail), node,
        cells[node].data);
      RemoveAdd(nodes.used, node);
      ns := ns[k := ns[k] + [node]];
    }

    // Its second case. A sleeper may get lost, the new one or some that were there, or processes of a ready queue.
    method InsertSleeper(node: nat) returns (lost: bool)
      requires Shape() && nodes.Valid() && nodes.maxBlocks == MAX_NODES && nodes.blockSize == NODE_SIZE
      requires node in nodes.used && node != 0
      requires QueuesAt(nodes.cells, nodes.used - {node}, Recs(), ns) && Paired(Abs())
      requires node in nodes.cells && nodes.cells[node].data in procs.pcbs && nodes.cells[node].data !in Abs().asleep
      requires forall x :: x in Abs().asleep ==> x in procs.pcbs
      modifies sleepQueue, nodes`cells, this`ns, procs
      ensures node in old(nodes.cells)
      ensures var w := old(Abs()); var p := old(nodes.cells)[node].data;
        lost == Loses(SleepNodes(w.nodes), SleepPlace(w, p), w.nodes.tail)
      ensures lost ==> Sees(Severed(old(Abs()), old(nodes.cells)[node].data))
      ensures !lost ==> Linked() && Abs() == PutSleeper(old(Abs()), old(nodes.cells)[node].data, node)
    {
      hide QueuesAt, QueueAt, ChainAt, TailAt, Data, Recs, Queued4, BlockAllocator.Valid, ScannedPcbs, Inserted,
        Deltas, Place, Position, Loses, PutIn, Severed, Sees, Appending, ListAt;
      ghost var cells, used, recs := nodes.cells, nodes.used - {node}, Recs();
      ghost var w := Abs();
      AbsIs();
      OneQueue(cells, used, recs, ns, 4);
      InUse();
      SleepRec();
      ListIsChain(cells, recs[4], ns[4]);
      ghost var k := SleepPlace(Abs(), cells[node].data);
      label before:
      lost := sleepQueue.EnqueuePrio(nodes, procs, node, repaired, ns[4]);
      SleepRecChange@before();
      if !lost {
        InUse();
        SleeperIn(cells, used, recs, ns, nodes.cells, Rec(sleepQueue.size, sleepQueue.head, sleepQueue.tail), node,
          Position(repaired, |ns[4]|, k));
        RemoveAdd(nodes.used, node);
        ns := ns[4 := Inserted(ns[4], Position(repaired, |ns[4]|, k), node)];
      } else {
        LostSeen(cells, used, recs, w, node);
      }
    }

    // After the append behind a tail that is not last
    lemma LostSeen(cells: Cells, used: set<nat>, recs: seq<Rec>, w: Sched, node: nat)
      requires Shape() && QueuesAt(cells, used, recs, ns) && Paired(w) && |ns| == 5 && w.nodes.ns == ns
      requires |recs| == 5 && w.ready == Queued4(cells, ns) && w.asleep == Data(cells, ns[4]) && w.current == current
      requires node in cells && node !in used && node != 0 && w.nodes.tail in cells
      requires nodes.cells == Appending(cells, w.nodes.tail, node)
      requires forall i :: 0 <= i < 4 ==> Recs()[i] == recs[i]
      requires sleepQueue.head == recs[4].head && sleepQueue.size == |ns[4]| + 1
      requires var p := cells[node].data;
        && p in w.pcbs && p !in w.asleep && (forall x :: x in w.asleep ==> x in w.pcbs)
        && procs.pcbs == ScannedPcbs(w.pcbs, w.asleep, p)
      ensures Sees(Severed(w, cells[node].data))
    {
      var p, tail := cells[node].data, w.nodes.tail;
      SleepRec();
      RecAt(0);
      RecAt(1);
      RecAt(2);
      RecAt(3);
      QueueSizes(cells, used, recs, ns);
      Queued4At(cells, ns, 0);
      Queued4At(cells, ns, 1);
      Queued4At(cells, ns, 2);
      Queued4At(cells, ns, 3);
      hide QueuesAt, ChainAt, Data, ScannedPcbs, Appending, Walk, Cut, AtMost, TailAt, ListAt, Recs, Queued4, Severed,
        Sees;
      SeverReached(cells, used, recs, ns, tail, node, 0);
      SeverReached(cells, used, recs, ns, tail, node, 1);
      SeverReached(cells, used, recs, ns, tail, node, 2);
      SeverReached(cells, used, recs, ns, tail, node, 3);
      SeverReached(cells, used, recs, ns, tail, node, 4);
      SeesSevered(w, p);
    }

    lemma SeesSevered(w: Sched, p: nat)
      requires Shape() && Paired(w) && p in w.pcbs && p !in w.asleep && forall x :: x in w.asleep ==> x in w.pcbs
      requires procs.pcbs == ScannedPcbs(w.pcbs, w.asleep, p) && w.current == current
      requires Seen(ready[0]) == CutReady(w, 0, p) && Seen(ready[1]) == CutReady(w, 1, p)
      requires Seen(ready[2]) == CutReady(w, 2, p) && Seen(ready[3]) == CutReady(w, 3, p)
      requires Seen(sleepQueue) == Cut(w.nodes.ns[4], w.nodes.tail, w.asleep, p)
      ensures Sees(Severed(w, p))
    {
      hide Seen, CutReady, ScannedPcbs, Cut;
    }

    // schedule. Any other state is a panic.
    method Schedule(p: nat) returns (r: ScheduleResult)
      requires Linked() && |nodes.used| < MAX_NODES && p in procs.pcbs && procs.pcbs[p].priority < NUM_QUEUES
      requires procs.pcbs[p].state == Sleeping ==>
        p !in Abs().asleep && forall x :: x in Abs().asleep ==> x in procs.pcbs
      modifies ready, sleepQueue, nodes, procs, this`ns
      ensures r.BadState? <==> old(procs.pcbs)[p].state == Running || old(procs.pcbs)[p].state == Killed
      ensures r.Scheduled? ==> Linked()
      ensures old(procs.pcbs)[p].state == Ready ==>
        r.Scheduled? && Abs() == AddReady(old(Abs()), old(procs.pcbs)[p].priority, p) && |ns| == 5 &&
        ns[4] == old(ns)[4]
      ensures old(procs.pcbs)[p].state == Sleeping ==> var w := old(Abs());
        && (r.SleeperLost? <==> Loses(SleepNodes(w.nodes), SleepPlace(w, p), w.nodes.tail))
        && (r.SleeperLost? ==> Paired(w) && Sees(Severed(w, p)))
        && (r.Scheduled? ==> Abs() == AddSleeper(w, p))
    {
      assert procs.pcbs[p].priority < 4;
      hide *;
      match procs.pcbs[p].state
      case Ready =>
        QueueReady(procs.pcbs[p].priority, p);
        r := Scheduled;
      case Sleeping =>
        var lost := QueueSleeper(p);
        r := if lost then ScheduleResult.SleeperLost else Scheduled;
      case _ =>
        r := BadState;
    }

    method QueueReady(k: nat, p: nat)
      requires Linked() && |nodes.used| < MAX_NODES && k < 4
      modifies ready, nodes, this`ns
      ensures Linked() && Abs() == AddReady(old(Abs()), k, p) && |ns| == 5 && ns[4] == old(ns)[4]
    {
      hide *;
      LinkedParts();
      AddReadyIs(Abs(), k, p);
      var node := NewNode(p);
      AddRemove(old(nodes.used), node);
      AppendReady(k, node);
    }

    method QueueSleeper(p: nat) returns (lost: bool)
      requires Linked() && |nodes.used| < MAX_NODES && p in procs.pcbs
      requires p !in Abs().asleep && forall x :: x in Abs().asleep ==> x in procs.pcbs
      modifies sleepQueue, nodes, procs, this`ns
      ensures lost == Loses(SleepNodes(old(Abs()).nodes), SleepPlace(old(Abs()), p), old(Abs()).nodes.tail)
      ensures lost ==> Paired(old(Abs())) && Sees(Severed(old(Abs()), p))
      ensures !lost ==> Linked() && Abs() == AddSleeper(old(Abs()), p)
    {
      hide *;
      LinkedParts();
      PcbsOf();
      AddSleeperIs(Abs(), p);
      ghost var w := Abs();
      var node := NewNode(p);
      AddRemove(old(nodes.used), node);
      lost := InsertSleeper(node);
      if lost { SeesSame(Severed(w, p), Taken(w.nodes)); }
    }

    // The nodes are not seen.
    lemma SeesSame(w: Sched, h: Nodes)
      requires Sees(w.(nodes := h))
      ensures Sees(w)
    {
      hide Seen;
    }

    // get_next_sleep
    method GetNextSleep(span: nat) returns (next: nat)
      requires Linked() && |nodes.used| < MAX_NODES
      requires forall x :: x in Abs().asleep ==> x in Abs().pcbs && Abs().pcbs[x].priority < NUM_QUEUES
      modifies ready, sleepQueue, nodes, procs, this`ns
      ensures Linked() && Abs() == Woken(old(Abs()), span)
      ensures (forall x :: x in Abs().asleep ==> x in Abs().pcbs) && next == NextWakeup(Abs())
    {
      hide *;
      ghost var w := Abs();
      SleepHead();
      if sleepQueue.size == 0 {
        NobodySleeps(w, span);
        return 0;
      }
      var p := nodes.cells[sleepQueue.head].data;
      WokenCases(w, span);
      if procs.pcbs[p].sleepTime <= span {
        WakeHead(p, span);
      } else {
        procs.Write(p, procs.pcbs[p].(sleepTime := procs.pcbs[p].sleepTime - span));
        AbsPcbs();
      }
      SleepHead();
      NextIs(Abs());
      next := if sleepQueue.size == 0 then 0 else procs.pcbs[nodes.cells[sleepQueue.head].data].sleepTime;
    }

    // Its first branch: the head of the sleep queue wakes.
    method WakeHead(p: nat, span: nat)
      requires Linked() && |nodes.used| < MAX_NODES && |ns| == 5 && ns[4] != []
      requires |Abs().asleep| == |ns[4]| && p == Abs().asleep[0]
      requires forall x :: x in Abs().asleep ==> x in Abs().pcbs && Abs().pcbs[x].priority < NUM_QUEUES
      requires p in procs.pcbs && procs.pcbs[p].sleepTime <= span
      modifies ready, sleepQueue, nodes, procs, this`ns
      ensures Linked() && Abs() == Woken(old(Abs()), span)
      ensures forall x :: x in Abs().asleep ==> x in Abs().pcbs
    {
      hide *;
      ghost var w := Abs();
      SleepHead();
      WokenCases(w, span);
      procs.Write(p, procs.pcbs[p].(state := Ready, sleepTime := 0));
      AbsPcbs();
      var r := Schedule(p);
      ReadyAsleep(w, p, span);
      DropSleeper();
    }

    // The head of the sleep queue
    lemma SleepHead()
      requires Linked()
      ensures |ns| == 5 && |Abs().asleep| == |ns[4]| == sleepQueue.size && Abs().pcbs == procs.pcbs &&
        |Abs().ready| == 4
      ensures ns[4] != [] ==> sleepQueue.head in nodes.cells && nodes.cells[sleepQueue.head].data == Abs().asleep[0]
    {
      LinkedParts();
      OneQueue(nodes.cells, nodes.used, Recs(), ns, 4);
      SleepRec();
      ListIsChain(nodes.cells, Recs()[4], ns[4]);
      hide QueuesAt, ChainAt, ListAt, Recs, Queued4;
      if ns[4] != [] {
        assert Data(nodes.cells, ns[4])[0] == nodes.cells[ns[4][0]].data;
      }
    }

    // Only process control blocks changed.
    twostate lemma AbsPcbs()
      requires unchanged(nodes) && unchanged(this) && |ns| == 5 && old(Linked()) && unchanged(ready) &&
        unchanged(sleepQueue)
      ensures Linked() && Abs() == old(Abs()).(pcbs := procs.pcbs)
    {
    }

    // block_free(ba_qnodes, queue_dequeue(&sleep_queue))
    method DropSleeper()
      requires Linked() && |ns| == 5 && ns[4] != []
      modifies sleepQueue, nodes, this`ns
      ensures Linked() && Abs() == Unslept(old(Abs())) && |ns| == 5 && ns[4] == old(ns)[4][1..]
    {
      hide *;
      LinkedParts();
      AbsIs();
      ghost var w := Abs();
      ghost var cells, used, recs := nodes.cells, nodes.used, Recs();
      OneQueue(cells, used, recs, ns, 4);
      SleepRec();
      ListIsChain(cells, recs[4], ns[4]);
      label before:
      var node := sleepQueue.Dequeue(nodes, ns[4]);
      nodes.Free(node);
      SleepRecChange@before();
      InUse();
      Dropped(cells, used, recs, ns, nodes.cells, 4, Rec(sleepQueue.size, sleepQueue.head, sleepQueue.tail));
      UnsleptIs(w);
      ns := ns[4 := ns[4][1..]];
      LinkedMade();
      AbsIs();
    }

    // queue_dequeue(&queues[k]), and block_free of the node
    method TakeReady(k: nat) returns (p: nat)
      requires Linked() && k < 4 && |ns| == 5 && ns[k] != []
      modifies ready, nodes, this`ns
      ensures Linked() && |old(Abs()).ready| == 4 && old(Abs()).ready[k] != [] && p == old(Abs()).ready[k][0]
      ensures Abs() == Dequeued(old(Abs()), k)
    {
      hide *;
      LinkedParts();
      AbsIs();
      ghost var w := Abs();
      ghost var cells, used, recs := nodes.cells, nodes.used, Recs();
      OneQueue(cells, used, recs, ns, k);
      RecAt(k);
      ListIsChain(cells, recs[k], ns[k]);
      label before:
      var node := ready[k].Dequeue(nodes, ns[k]);
      p := nodes.cells[node].data;
      nodes.Free(node);
      OtherReady(k);
      RecsChange@before(k);
      InUse();
      Dropped(cells, used, recs, ns, nodes.cells, k, Rec(ready[k].size, ready[k].head, ready[k].tail));
      Queued4At(cells, ns, k);
      DequeuedIs(w, k);
      ns := ns[k := ns[k][1..]];
      LinkedMade();
      AbsIs();
    }

    lemma OtherReady(k: nat)
      requires Shape() && k < 4
      ensures sleepQueue != ready[k] && forall i :: 0 <= i < 4 && i != k ==> ready[i] != ready[k]
    {
    }

    // dispatch, last part. Its KILLED case is not reached: a killed process is never queued. Nor is its default panic.
    method PickNext() returns (found: bool)
      requires Linked() && Good(Abs()) && current == 0
      modifies ready, nodes, this`ns, this`current
      ensures Linked() && Abs() == Picked(old(Abs())) && (found <==> !Stuck(old(Abs())))
    {
      hide *;
      ghost var w := Abs();
      SleepHead();
      AbsIs();
      var i := 0;
      while i < 4
        invariant Linked() && Abs() == w && i <= FirstReady(w.ready) <= 4 == |w.ready| && current == 0
        invariant i == 4 ==> Stuck(w) && Picked(w) == w
      {
        ReadyHead(i);
        if ready[i].size != 0 {
          PickedIs(w, i);
          var p := TakeReady(i);
          match procs.pcbs[p].state
          case Ready =>
            SetCurrent(p);
            return true;
          case _ =>
            assert false;
        }
        NotHere(w, i);
        i := i + 1;
      }
      found := false;
    }

    // dispatch, first part: charge the quantum, and put the process that ran away unless it goes on. (cleanup_pcb of
    // a killed one concerns memory only.)
    method PutBack(span: nat) returns (lost: bool)
      requires Linked() && Good(Abs()) && current != 0 && |nodes.used| < MAX_NODES
      modifies ready, sleepQueue, nodes, procs, this
      ensures lost == LosesCurrent(old(Abs()))
      ensures lost ==> CanSever(old(Abs())) && Sees(Gone(old(Abs())))
      ensures !lost ==> Linked() && Abs() == PutAway(old(Abs()), span)
    {
      hide *;
      ghost var w := Abs();
      AbsIs();
      SleepHead();
      PutAwayCases(w, span);
      var q := if span > quantumLeft then 0 else quantumLeft - span;
      SetQuantum(q);
      lost := false;
      if procs.pcbs[current].state == Killed {
        SetCurrent(0);
        SetQuantum(10);
      } else if procs.pcbs[current].state == Sleeping || quantumLeft == 0 {
        var r := Schedule(current);
        if r.SleeperLost? {
          Leave(Severed(w.(quantum := q), w.current));
          SeesGone(w, q);
          return true;
        }
        SetCurrent(0);
        SetQuantum(10);
      }
    }

    // The model stops at a loss; the code goes on, as far as it gets.
    method Leave(ghost w: Sched)
      requires Sees(w)
      modifies this`current
      ensures Sees(w.(current := 0))
    {
      hide Data, Walk;
      current := 0;
    }

    // The quantum is not seen.
    lemma SeesGone(w: Sched, q: nat)
      requires Paired(w.(quantum := q)) && w.current in w.pcbs && w.current !in w.asleep
      requires forall x :: x in w.asleep ==> x in w.pcbs
      requires Sees(Severed(w.(quantum := q), w.current).(current := 0))
      ensures CanSever(w) && Sees(Gone(w))
    {
      hide Data, Walk, ScannedPcbs, Cut, AtMost;
    }

    // Every node in use carries a process that is not running, so the ASSERTs on new nodes hold.
    lemma Room()
      requires Linked() && Pcbs() && Good(Abs())
      ensures |nodes.used| <= |procs.pcbs.Keys - {current}| <= MAX_PCBS < MAX_NODES
    {
      LinkedParts();
      AbsIs();
      pcbBlocks.Counted();
      hide QueuesAt, Queued4, Data, Good, Recs, BlocksAt, FreeAt;
      NodesInUse(nodes.cells, nodes.used, Recs(), ns, Abs());
      SmallerSet(procs.pcbs.Keys, current);
    }

    // The process control blocks are where they were.
    twostate lemma PcbsStill()
      requires old(Pcbs()) && unchanged(pcbBlocks) && procs.pcbs.Keys == old(procs.pcbs).Keys
      ensures Pcbs()
    {
    }

    lemma Apart()
      requires Linked()
      ensures nodes != pcbBlocks
    {
    }

    lemma PcbsOf()
      ensures Abs().pcbs == procs.pcbs && Abs().current == current && Abs().quantum == quantumLeft &&
        Abs().prevTicks == prevTicks
    {
    }

    // dispatch, after the elapsed time has been read
    method Dispatch(span: nat) returns (r: DispatchResult)
      requires Linked() && Pcbs() && Good(Abs()) && current != 0
      modifies ready, sleepQueue, nodes, procs, this
      ensures r.SleeperLost? <==> LosesCurrent(old(Abs()))
      ensures r.SleeperLost? ==> CanSever(old(Abs())) && Sees(Gone(old(Abs())))
      ensures !r.SleeperLost? ==>
        Linked() && Pcbs() && Abs() == Dispatched(old(Abs()), span) && (r.NothingToRun? <==> current == 0)
    {
      hide *;
      ghost var w := Abs();
      Apart();
      PcbsOf();
      Room();
      var lost := PutBack(span);
      if lost {
        return DispatchResult.SleeperLost;
      }
      PcbsOf();
      AfterPutAway(w, span);
      PcbsStill();
      Room();
      var next := GetNextSleep(span);
      PcbsOf();
      PcbsStill();
      SetPrevTicks(if next > 0 && next < quantumLeft then next else quantumLeft);
      PcbsOf();
      PcbsStill();
      if current != 0 {
        assert quantumLeft != 0;
        return Runs;
      }
      assert prevTicks > 0;
      var found := PickNext();
      PcbsOf();
      PcbsStill();
      r := if found then Runs else NothingToRun;
    }

    lemma ValidParts()
      requires Valid()
      ensures Linked() && Pcbs() && Settled(Abs()) && Good(Abs()) && current != 0 && current in procs.pcbs
      ensures Matched(Abs())
      ensures procs.pcbs[current].state == Ready && procs.pcbs[current].priority < NUM_QUEUES &&
        Abs().pcbs == procs.pcbs
      ensures Abs().current == current && |ns| == 5
    {
      hide QueuesAt, Data, Queued4, BlockAllocator.Valid;
      LinkedParts();
    }

    // A dispatch that finds somebody to run leaves the scheduler in order.
    lemma Done(w: Sched, span: nat)
      requires Linked() && Pcbs() && Good(w) && w.current != 0 && Abs() == Dispatched(w, span) && Matched(Abs())
      ensures current != 0 ==> Valid()
    {
      hide QueuesAt, Data, Queued4, BlockAllocator.Valid, Dispatched;
      DispatchedGood(w, span);
    }

    // timer_interrupt
    method TimerInterrupt(span: nat) returns (r: DispatchResult)
      requires Valid()
      modifies ready, sleepQueue, nodes, procs, this
      ensures Settled(old(Abs())) && Abs() == Happens(old(Abs()), Timer(span))
      ensures (r.Runs? <==> current != 0) && (r.Runs? ==> Valid())
    {
      hide *;
      ValidParts();
      ghost var w := Abs();
      AwakeIsFresh(w);
      r := Dispatch(span);
      HappensIs(w, Timer(span));
      HappensMatched(w, Timer(span));
      Done(w, span);
    }

    // sleep_pcb
    method SleepPcb(time: nat, span: nat) returns (r: DispatchResult)
      requires Valid()
      modifies ready, sleepQueue, nodes, procs, this
      ensures Settled(old(Abs())) && Matched(old(Abs()))
      ensures r.SleeperLost? <==> LosesBy(old(Abs()), Sleep(time, span))
      ensures r.SleeperLost? ==> Sees(Lost(old(Abs()), time))
      ensures !r.SleeperLost? ==> Abs() == Happens(old(Abs()), Sleep(time, span))
      ensures !r.SleeperLost? ==> (r.Runs? <==> current != 0) && (r.Runs? ==> Valid())
    {
      hide *;
      ValidParts();
      AbsIs();
      ghost var w := Abs();
      label before:
      if time != 0 {
        procs.Write(current, procs.pcbs[current].(state := Sleeping, sleepTime := time));
      }
      AbsPcbs@before();
      PcbsStill@before();
      SleptIs(w, time, span);
      AwakeIsFresh(w);
      ghost var w1 := Abs();
      r := Dispatch(span);
      if time != 0 { LostIsGone(w, time); }
      if !r.SleeperLost? {
        HappensIs(w, Sleep(time, span));
        HappensMatched(w, Sleep(time, span));
        Done(w1, span);
      }
    }

    // msleep: rdi becomes a time_t of 32 bits.
    method MSleep(rdi: nat, span: nat) returns (r: DispatchResult)
      requires Valid()
      modifies ready, sleepQueue, nodes, procs, this
      ensures Settled(old(Abs())) && Matched(old(Abs()))
      ensures r.SleeperLost? <==> LosesBy(old(Abs()), Sleep(rdi % 0x1_0000_0000, span))
      ensures r.SleeperLost? ==> Sees(Lost(old(Abs()), rdi % 0x1_0000_0000))
      ensures !r.SleeperLost? ==> Abs() == Happens(old(Abs()), Sleep(rdi % 0x1_0000_0000, span))
      ensures !r.SleeperLost? ==> (r.Runs? <==> current != 0) && (r.Runs? ==> Valid())
    {
      hide *;
      r := SleepPcb(rdi % 0x1_0000_0000, span);
    }

    // exit
    method Exit(span: nat) returns (r: DispatchResult)
      requires Valid()
      modifies ready, sleepQueue, nodes, procs, this
      ensures Settled(old(Abs())) && Abs() == Happens(old(Abs()), Event.Exit(span))
      ensures (r.Runs? <==> current != 0) && (r.Runs? ==> Valid())
    {
      hide *;
      ValidParts();
      ghost var w := Abs();
      label before:
      procs.Write(current, procs.pcbs[current].(state := Killed));
      AbsPcbs@before();
      PcbsStill@before();
      ExitedIs(w);
      ghost var w1 := Abs();
      r := Dispatch(span);
      HappensIs(w, Event.Exit(span));
      HappensMatched(w, Event.Exit(span));
      Done(w1, span);
    }

    // fork, the scheduler's part. Without a free block alloc_pcb panics (ok is false): process control blocks are
    // never given back, so that happens exactly when 1024 processes have been created since boot.
    method Fork(span: nat) returns (ok: bool, child: nat, r: DispatchResult)
      requires Valid()
      modifies ready, sleepQueue, nodes, procs, pcbBlocks, this
      ensures ok <==> |old(procs.pcbs).Keys| < MAX_PCBS
      ensures !ok ==> Abs() == old(Abs())
      ensures ok ==> Settled(old(Abs())) && child != 0 && child !in old(procs.pcbs)
      ensures ok ==>
        Allowed(old(Abs()), Event.Fork(child, span)) && Abs() == Happens(old(Abs()), Event.Fork(child, span))
      ensures ok ==> (r.Runs? <==> current != 0) && (r.Runs? ==> Valid())
    {
      hide *;
      ValidParts();
      Room();
      Apart();
      ghost var w := Abs();
      PcbKeys();
      pcbBlocks.Counted();
      label before:
      child := pcbBlocks.Alloc();
      if child == 0 {
        AbsPcbs@before();
        return false, 0, NothingToRun;
      }
      procs.Write(child, procs.pcbs[current]);
      AbsPcbs@before();
      WithChildIs(w, child);
      var scheduled := Schedule(child);
      ok := true;
      PcbsOf();
      PcbsMade();
      ghost var w1 := Abs();
      r := Dispatch(span);
      HappensIs(w, Event.Fork(child, span));
      HappensMatched(w, Event.Fork(child, span));
      Done(w1, span);
    }

    // set_priority. Its ASSERT on the priority is a panic (ok is false).
    method SetPriority(priority: nat) returns (ok: bool)
      requires Valid()
      modifies procs
      ensures ok <==> priority <= 3   // IDLE
      ensures ok ==> Valid() && Settled(old(Abs())) && Abs() == Happens(old(Abs()), Event.SetPriority(priority))
    {
      if priority > 3 {
        return false;
      }
      hide *;
      ValidParts();
      ghost var w := Abs();
      label before:
      procs.Write(current, procs.pcbs[current].(priority := priority));
      AbsPcbs@before();
      PcbsStill@before();
      PrioritizedIs(w, priority);
      HappensIs(w, Event.SetPriority(priority));
      HappensMatched(w, Event.SetPriority(priority));
      AllDone();
      ok := true;
    }

    lemma AllDone()
      requires Linked() && Pcbs() && Settled(Abs()) && Matched(Abs())
      ensures Valid()
    {
    }

    lemma PcbKeys()
      requires Pcbs()
      ensures pcbBlocks.Valid() && pcbBlocks.maxBlocks == MAX_PCBS && procs.pcbs.Keys == pcbBlocks.used
    {
    }

    lemma PcbsMade()
      requires pcbBlocks.Valid() && pcbBlocks.maxBlocks == MAX_PCBS && procs.pcbs.Keys == pcbBlocks.used
      ensures Pcbs()
    {
    }

    lemma ReadyHead(k: nat)
      requires Linked() && k < 4
      ensures |ns| == 5 && |ready| == 4 && |Abs().ready| == 4 && |Abs().ready[k]| == |ns[k]| == ready[k].size &&
        Abs().pcbs == procs.pcbs
    {
      LinkedParts();
      OneQueue(nodes.cells, nodes.used, Recs(), ns, k);
      RecAt(k);
      ListIsChain(nodes.cells, Recs()[k], ns[k]);
      hide QueuesAt, ChainAt, ListAt, Recs, Data;
    }

    method SetCurrent(p: nat)
      requires Linked()
      modifies this`current
      ensures Linked() && Abs() == old(Abs()).(current := p) && current == p
    {
      hide QueuesAt, Data, Queued4, BlockAllocator.Valid;
      current := p;
    }

    method SetQuantum(q: nat)
      requires Linked()
      modifies this`quantumLeft
      ensures Linked() && Abs() == old(Abs()).(quantum := q) && quantumLeft == q
    {
      hide QueuesAt, Data, Queued4, BlockAllocator.Valid;
      quantumLeft := q;
    }

    method SetPrevTicks(t: nat)
      requires Linked()
      modifies this`prevTicks
      ensures Linked() && Abs() == old(Abs()).(prevTicks := t) && prevTicks == t
    {
      hide QueuesAt, Data, Queued4, BlockAllocator.Valid;
      prevTicks := t;
    }

    lemma LinkedMade()
      requires Shape() && nodes.Valid() && nodes.maxBlocks == MAX_NODES && nodes.blockSize == NODE_SIZE
      requires QueuesAt(nodes.cells, nodes.used, Recs(), ns)
      ensures Linked()
    {
    }

    lemma AbsIs()
      ensures |ns| == 5 ==>
        Abs() == Sched(procs.pcbs, current, Queued4(nodes.cells, ns), Data(nodes.cells, ns[4]), quantumLeft, prevTicks,
          NodesNow(), repaired)
      ensures NodesNow() == Nodes(ns, nodes.free, nodes.implicitNext, sleepQueue.tail)
    {
    }

    lemma SleepRec()
      requires Shape()
      ensures Recs()[4] == Rec(sleepQueue.size, sleepQueue.head, sleepQueue.tail)
    {
    }

    twostate lemma SleepRecChange()
      requires Shape() && forall i :: 0 <= i < 4 ==> unchanged(ready[i])
      ensures Recs() == old(Recs())[4 := Rec(sleepQueue.size, sleepQueue.head, sleepQueue.tail)]
    {
    }

    // One queue object changes.
    twostate lemma RecsChange(k: nat)
      requires Shape() && k < 4 && unchanged(sleepQueue) && forall i :: 0 <= i < 4 && i != k ==> unchanged(ready[i])
      ensures Recs() == old(Recs())[k := Rec(ready[k].size, ready[k].head, ready[k].tail)]
    {
    }

    lemma InUse()
      requires nodes.Valid()
      ensures forall a :: a in nodes.used ==> a in nodes.cells
    {
      nodes.Counted();
    }

    lemma RecAt(k: nat)
      requires Shape() && k < 4
      ensures Recs()[k] == Rec(ready[k].size, ready[k].head, ready[k].tail)
    {
    }
  }

  lemma ReadyIsQueue(cells: Cells, r: Rec, s: seq<nat>)
    requires ListAt(cells, r, s) && TailAt(s, r.tail)
    ensures QueueAt(cells, r.size, r.head, r.tail, s)
  {
  }

  lemma Queued4At(cells: Cells, ns: seq<seq<nat>>, k: nat)
    requires |ns| == 5 && k < 4
    ensures Queued4(cells, ns)[k] == Data(cells, ns[k]) && |Data(cells, ns[k])| == |ns[k]|
  {
    hide Data;
  }

  lemma PickedIs(w: Sched, i: nat)
    requires Good(w) && w.current == 0 && i <= FirstReady(w.ready) && i < |w.ready| && w.ready[i] != []
    ensures !Stuck(w) && Picked(w) == Dequeued(w, i).(current := w.ready[i][0])
    ensures Dequeued(w, i).pcbs == w.pcbs && Dequeued(w, i).current == w.current
    ensures w.ready[i][0] in w.pcbs && w.pcbs[w.ready[i][0]].state == Ready
  {
    assert ReadyQueue(w, i) && w.ready[i][0] in w.ready[i];
  }

  lemma AwakeIsFresh(w: Sched)
    requires Settled(w)
    ensures Good(w) && !LosesCurrent(w) && forall x :: x in w.asleep ==> x in w.pcbs
  {
  }

  lemma SleptIs(w: Sched, time: nat, span: nat)
    requires Settled(w)
    ensures var w1 := Slept(w, time);
      && Good(w1) && w1.current != 0
      && w1 == (if time == 0 then w else w.(pcbs := w.pcbs[w.current := w.pcbs[w.current].(state := Sleeping,
        sleepTime := time)]))
      && (forall x :: x in w.asleep ==> x in w.pcbs)
      && (LosesCurrent(w1) <==> LosesBy(w, Sleep(time, span)))
  {
    WithStateGood(w, Sleeping, time);
    if time != 0 {
      SameDeltas(w.pcbs, Slept(w, time).pcbs, w.asleep, w.current);
    }
  }

  lemma SameDeltas(pcbs: Pcbs, pcbs': Pcbs, ps: seq<nat>, p: nat)
    requires (forall x :: x in ps ==> x in pcbs && x in pcbs' && pcbs'[x] == pcbs[x])
    ensures Deltas(pcbs', ps) == Deltas(pcbs, ps)
  {
  }

  lemma ExitedIs(w: Sched)
    requires Settled(w)
    ensures var w1 := Exited(w);
      && Good(w1) && w1.current != 0 && (forall x :: x in w1.asleep ==> x in w1.pcbs)
      && w1 == w.(pcbs := w.pcbs[w.current := w.pcbs[w.current].(state := Killed)]) && !LosesCurrent(w1)
  {
    WithStateGood(w, Killed, w.pcbs[w.current].sleepTime);
  }

  lemma WithChildIs(w: Sched, child: nat)
    requires Settled(w) && child != 0 && child !in w.pcbs
    ensures var w1 := WithChild(w, child);
      && Good(w1) && w1.current != 0 && (forall x :: x in w1.asleep ==> x in w1.pcbs) && !LosesCurrent(w1)
      && w1 == AddReady(w.(pcbs := w.pcbs[child := w.pcbs[w.current]]), w.pcbs[w.current].priority, child)
      && w1.current == w.current && w1.pcbs == w.pcbs[child := w.pcbs[w.current]]
  {
    WithChildGood(w, child);
  }

  lemma PrioritizedIs(w: Sched, priority: nat)
    requires Settled(w) && priority <= 3
    ensures Settled(Prioritized(w, priority))
    ensures Prioritized(w, priority) == w.(pcbs := w.pcbs[w.current := w.pcbs[w.current].(priority := priority)])
  {
    PrioritizedGood(w, priority);
  }

  // What happens, as a dispatch
  lemma HappensIs(w: Sched, e: Event)
    requires Settled(w) && (e.Fork? ==> e.child != 0 && e.child !in w.pcbs) && (e.SetPriority? ==> e.priority <= 3)
    ensures Allowed(w, e) && (forall x :: x in w.asleep ==> x in w.pcbs) && (!e.Sleep? ==> !LosesBy(w, e))
    ensures match e
      case Timer(span) => Happens(w, e) == Dispatched(w, span)
      case Sleep(time, span) => Good(Slept(w, time)) && Happens(w, e) == Dispatched(Slept(w, time), span)
      case Exit(span) => Good(Exited(w)) && Happens(w, e) == Dispatched(Exited(w), span)
      case Fork(child, span) => Good(WithChild(w, child)) && Happens(w, e) == Dispatched(WithChild(w, child), span)
      case SetPriority(priority) => Happens(w, e) == Prioritized(w, priority)
  {
    hide Dispatched;
    match e
    case Sleep(time, _) => SleptIs(w, time, 0);
    case Exit(_) => ExitedIs(w);
    case Fork(child, _) => WithChildIs(w, child);
    case _ =>
  }

  lemma SmallerSet(s: set<nat>, x: nat)
    ensures |s - {x}| <= |s|
  {
    if x in s { assert s == s - {x} + {x}; } else { assert s - {x} == s; }
  }

  // What the later parts of dispatch find
  lemma AfterPutAway(w: Sched, span: nat)
    requires Good(w) && w.current != 0
    ensures var w0 := PutAway(w, span);
      && Good(w0) && w0.pcbs.Keys == w.pcbs.Keys && |w0.ready| == NUM_QUEUES && w0.quantum > 0
      && (forall x :: x in w0.asleep ==> x in w0.pcbs && w0.pcbs[x].priority < NUM_QUEUES)
    ensures var w1 := Woken(PutAway(w, span), span);
      && Good(w1) && w1.pcbs.Keys == w.pcbs.Keys && w1.current == PutAway(w, span).current &&
        w1.quantum == PutAway(w, span).quantum
      && (forall x :: x in w1.asleep ==> x in w1.pcbs)
      && Timed(w1) == w1.(prevTicks := if NextWakeup(w1) > 0 && NextWakeup(w1) < w1.quantum then NextWakeup(w1)
        else w1.quantum)
      && Good(Timed(w1)) && Timed(w1).prevTicks > 0
      && Dispatched(w, span) == Picked(Timed(w1))
      && (w1.current != 0 ==> Picked(Timed(w1)) == Timed(w1))
      && (w1.current == 0 ==>
        (Picked(Timed(w1)).current == 0 <==> Stuck(Timed(w1))) && Picked(Timed(w1)).pcbs == w1.pcbs)
  {
    PutAwayGood(w, span);
    var w0 := PutAway(w, span);
    WokenGood(w0, span);
    var w1 := Woken(w0, span);
    hide PutAway, Woken;
    TimedGood(w1);
    if w1.current == 0 { PickedGood(Timed(w1)); }
  }

  // What PutAway does, case by case
  lemma PutAwayCases(w: Sched, span: nat)
    requires Good(w) && w.current != 0
    ensures w.current in w.pcbs && w.pcbs[w.current].priority < NUM_QUEUES && w.pcbs[w.current].state != Running
    ensures w.current !in w.asleep && forall x :: x in w.asleep ==> x in w.pcbs
    ensures var q := if span > w.quantum then 0 else w.quantum - span; var w1 := w.(quantum := q); var p := w.current;
      && w1.current in w1.pcbs && (forall x :: x in w1.asleep ==> x in w1.pcbs)
      && (w.pcbs[p].state == Killed ==> PutAway(w, span) == w1.(current := 0).(quantum := 10) && !LosesCurrent(w))
      && (w.pcbs[p].state == Sleeping ==> (
            && PutAway(w, span) == AddSleeper(w1, p).(current := 0).(quantum := 10)
            && LosesCurrent(w) == Loses(SleepNodes(w1.nodes), SleepPlace(w1, p), w1.nodes.tail)))
      && (w.pcbs[p].state == Ready ==> (
            && !LosesCurrent(w)
            && PutAway(w, span) == if q == 0 then
              AddReady(w1, w.pcbs[p].priority, p).(current := 0).(quantum := 10) else w1))
  {
    hide ScannedPcbs, Inserted, Place, Deltas, Loses, Position;
  }

  lemma NotHere(w: Sched, i: nat)
    requires w.current == 0 && i <= FirstReady(w.ready) <= |w.ready| && i < |w.ready| && w.ready[i] == []
    ensures i + 1 <= FirstReady(w.ready)
    ensures i + 1 == |w.ready| ==> Stuck(w) && Picked(w) == w
  {
  }

  lemma NobodySleeps(w: Sched, span: nat)
    requires w.asleep == [] && |w.ready| == 4
    ensures Woken(w, span) == w && NextWakeup(w) == 0
  {
  }

  lemma WokenCases(w: Sched, span: nat)
    requires w.asleep != [] && |w.ready| == 4
    requires forall x :: x in w.asleep ==> x in w.pcbs && w.pcbs[x].priority < NUM_QUEUES
    ensures var p := w.asleep[0]; p in w.asleep && p in w.pcbs && w.pcbs[p].priority < NUM_QUEUES
    ensures forall x :: x in w.asleep ==> x in w.pcbs
    ensures var p := w.asleep[0]; w.pcbs[p].sleepTime > span ==>
      Woken(w, span) == w.(pcbs := w.pcbs[p := w.pcbs[p].(sleepTime := w.pcbs[p].sleepTime - span)])
  {
  }

  lemma ReadyAsleep(w: Sched, p: nat, span: nat)
    requires w.asleep != [] && p == w.asleep[0] && |w.ready| == 4
    requires forall x :: x in w.asleep ==> x in w.pcbs && w.pcbs[x].priority < NUM_QUEUES
    requires w.pcbs[p].sleepTime <= span
    ensures var w1 := AddReady(w.(pcbs := w.pcbs[p := w.pcbs[p].(state := Ready, sleepTime := 0)]), w.pcbs[p].priority,
      p);
      && w1.asleep == w.asleep && Woken(w, span) == Unslept(w1) && Unslept(w1).asleep == w1.asleep[1..]
      && Unslept(w1).pcbs == w1.pcbs
      && forall x :: x in w1.asleep[1..] ==> x in w1.pcbs
  {
  }

  lemma NextIs(w: Sched)
    requires forall x :: x in w.asleep ==> x in w.pcbs
    ensures NextWakeup(w) == if w.asleep == [] then 0 else w.pcbs[w.asleep[0]].sleepTime
  {
  }

  lemma Queued4Cut(cells: Cells, cells': Cells, ns: seq<seq<nat>>, k: nat)
    requires |ns| == 5 && k < 5 && ns[k] != [] && Data(cells', ns[k][1..]) == Data(cells, ns[k])[1..]
    requires forall i :: 0 <= i < 5 && i != k ==> Data(cells', ns[i]) == Data(cells, ns[i])
    ensures k == 4 ==> Queued4(cells', ns[4 := ns[4][1..]]) == Queued4(cells, ns)
    ensures k < 4 ==> Data(cells', ns[4]) == Data(cells, ns[4])
    ensures k < 4 ==> Queued4(cells', ns[k := ns[k][1..]]) == Queued4(cells, ns)[k := Data(cells, ns[k])[1..]]
  {
    hide Data;
  }

  lemma ListIsChain(cells: Cells, r: Rec, s: seq<nat>)
    requires ListAt(cells, r, s)
    ensures ChainAt(cells, r.size, r.head, s) && (s != [] ==> r.tail in cells) && r.size == |s| &&
      r.head == Link(s, 0) &&
      (s != [] ==> s[0] in cells)
  {
  }

  lemma Dropped(cells: Cells, used: set<nat>, recs: seq<Rec>, ns: seq<seq<nat>>, cells': Cells, k: nat, r: Rec)
    requires QueuesAt(cells, used, recs, ns) && |recs| == 5 && |ns| == 5 && k < 5 && ns[k] != []
    requires ns[k][0] in cells && recs[k].size > 0
    requires cells.Keys <= cells'.Keys
    requires forall a :: a in used - {ns[k][0]} ==> a in cells && a in cells' && cells'[a] == cells[a]
    requires r == Rec(recs[k].size - 1, cells[ns[k][0]].next, recs[k].tail)
    ensures QueuesAt(cells', used - {ns[k][0]}, recs[k := r], ns[k := ns[k][1..]])
    ensures k == 4 ==>
      Data(cells', ns[4][1..]) == Data(cells, ns[4])[1..] && Queued4(cells', ns[4 := ns[4][1..]]) == Queued4(cells, ns)
    ensures k < 4 ==> Data(cells', ns[4]) == Data(cells, ns[4])
    ensures k < 4 ==> Queued4(cells', ns[k := ns[k][1..]]) == Queued4(cells, ns)[k := Data(cells, ns[k])[1..]]
    ensures Data(cells, ns[k])[0] == cells[ns[k][0]].data
  {
    hide *;
    NodeRemoved(cells, used, recs, ns, cells', k, r);
    assert Data(cells, ns[k])[1..] == Data(cells', ns[k][1..]);
    Queued4Cut(cells, cells', ns, k);
  }

  lemma SleeperIn(cells: Cells, used: set<nat>, recs: seq<Rec>, ns: seq<seq<nat>>, cells': Cells, r: Rec, node: nat,
      pos: nat)
    requires QueuesAt(cells, used, recs, ns) && node !in used && |ns| == 5 && pos <= |ns[4]|
    requires PutIn(cells, cells', r.size, r.head, ns[4], pos, node) && r.tail in cells' && cells.Keys <= cells'.Keys
    requires forall a :: a in cells && a !in ns[4] && a != node ==> a in cells' && cells'[a] == cells[a]
    ensures QueuesAt(cells', used + {node}, recs[4 := r], ns[4 := Inserted(ns[4], pos, node)])
    ensures Queued4(cells', ns[4 := Inserted(ns[4], pos, node)]) == Queued4(cells, ns)
    ensures node in cells && Data(cells', Inserted(ns[4], pos, node)) ==
      Inserted(Data(cells, ns[4]), pos, cells[node].data)
  {
    var s := Inserted(ns[4], pos, node);
    InsertedIn(ns[4], pos, node);
    OneQueue(cells, used, recs, ns, 4);
    hide QueuesAt, ChainAt, Data, Inserted;
    assert ListAt(cells', r, s);
    NodeAdded(cells, used, recs, ns, cells', 4, r, s, node);
  }

  lemma Enqueued(cells: Cells, used: set<nat>, recs: seq<Rec>, ns: seq<seq<nat>>,
                 cells': Cells, k: nat, r: Rec, node: nat, p: nat)
    requires QueuesAt(cells, used, recs, ns) && k < 4 && node !in used
    requires |ns| == 5 && QueueAt(cells', r.size, r.head, r.tail, ns[k] + [node]) && cells.Keys <= cells'.Keys
    requires forall a :: a in cells && a !in ns[k] && a != node ==> a in cells' && cells'[a] == cells[a]
    requires Data(cells', ns[k] + [node]) == Data(cells, ns[k]) + [p]
    ensures QueuesAt(cells', used + {node}, recs[k := r], ns[k := ns[k] + [node]])
    ensures Queued4(cells', ns[k := ns[k] + [node]]) == Queued4(cells, ns)[k := Queued4(cells, ns)[k] + [p]]
    ensures Data(cells', ns[4]) == Data(cells, ns[4])
  {
    var s := ns[k] + [node];
    OneQueue(cells, used, recs, ns, k);
    assert s[|ns[k]|] == node && forall i :: 0 <= i < |ns[k]| ==> s[i] == ns[k][i];
    assert forall a :: a in s <==> a == node || a in ns[k];
    assert forall a :: a in s ==> a in cells';
    assert r.tail == node && ListAt(cells', r, s) && TailAt(s, r.tail);
    hide QueuesAt, ListAt, QueueAt, Data, TailAt;
    NodeAdded(cells, used, recs, ns, cells', k, r, s, node);
    Queued4Added(cells, cells', ns, k, s, p);
  }

  lemma Queued4Added(cells: Cells, cells': Cells, ns: seq<seq<nat>>, k: nat, s: seq<nat>, p: nat)
    requires |ns| == 5 && k < 4 && Data(cells', s) == Data(cells, ns[k]) + [p]
    requires forall i :: 0 <= i < 5 && i != k ==> Data(cells', ns[i]) == Data(cells, ns[i])
    ensures Queued4(cells', ns[k := s]) == Queued4(cells, ns)[k := Queued4(cells, ns)[k] + [p]]
    ensures Data(cells', ns[4]) == Data(cells, ns[4])
  {
    hide Data;
  }

  lemma Regions()
    ensures 16 * 2048 + 16 >= HEADER_BYTES && 40 * 1024 + 48 >= HEADER_BYTES && 16 >= NODE_BYTES && 40 >= NODE_BYTES
    ensures (16 * 2048 + 16 - HEADER_BYTES) / 16 == MAX_NODES && (40 * 1024 + 48 - HEADER_BYTES) / 40 == MAX_PCBS
  {
  }

  lemma StartQueues(cells: Cells, recs: seq<Rec>)
    requires |recs| == 5 && forall i :: 0 <= i < 5 ==> recs[i] == Rec(0, 0, 0)
    ensures QueuesAt(cells, {}, recs, [[], [], [], [], []])
  {
  }

  function StartState(init: nat, repaired: bool, bump: nat): Sched {
    Sched(map[init := Pcb(Ready, 1, 0)], init, [[], [], [], []], [], 10, 10, Nodes([[], [], [], [], []], [], bump, 0),
          repaired)
  }

  lemma StartGood(init: nat, repaired: bool, bump: nat)
    requires init != 0
    ensures Settled(StartState(init, repaired, bump)) && Matched(StartState(init, repaired, bump))
  {
    var w := StartState(init, repaired, bump);
    assert forall i :: 0 <= i < 4 ==> ReadyQueue(w, i);
  }

  lemma TakenIs(h: Nodes)
    ensures h.free != [] ==> NextNode(h) == h.free[0] && Taken(h) == Nodes(h.ns, h.free[1..], h.bump, h.tail)
    ensures h.free == [] ==> NextNode(h) == h.bump && Taken(h) == Nodes(h.ns, [], h.bump + 16, h.tail)
    ensures NODE_SIZE == 16
  {
  }

  lemma InQueues(cells: Cells, used: set<nat>, recs: seq<Rec>, ns: seq<seq<nat>>)
    requires QueuesAt(cells, used, recs, ns)
    ensures forall a :: a in used ==> a in cells
  {
    OneQueue(cells, used, recs, ns, 0);
  }

  lemma AddReadyIs(w: Sched, k: nat, p: nat)
    ensures AddReady(w, k, p) == PutReady(w.(nodes := Taken(w.nodes)), k, p, NextNode(w.nodes))
  {
  }

  lemma AddSleeperIs(w: Sched, p: nat)
    requires Paired(w) && p in w.pcbs && p !in w.asleep && forall x :: x in w.asleep ==> x in w.pcbs
    ensures var w1 := w.(nodes := Taken(w.nodes));
      && AddSleeper(w, p) == PutSleeper(w1, p, NextNode(w.nodes)) && Paired(w1)
      && SleepPlace(w1, p) == SleepPlace(w, p) && SleepNodes(w1.nodes) == SleepNodes(w.nodes)
      && w1.nodes.tail == w.nodes.tail
      && Severed(w1, p) == Severed(w, p).(nodes := w1.nodes)
  {
    hide ScannedPcbs, Cut, AtMost, Place, Deltas, Inserted, Position;
  }

  lemma UnsleptIs(w: Sched)
    requires |w.nodes.ns| == 5 && |w.asleep| == |w.nodes.ns[4]| && w.asleep != []
    ensures var s := w.nodes.ns[4]; Unslept(w) == w.(asleep := w.asleep[1..],
      nodes := Nodes(w.nodes.ns[4 := s[1..]], [s[0]] + w.nodes.free, w.nodes.bump, w.nodes.tail))
  {
  }

  lemma DequeuedIs(w: Sched, k: nat)
    requires |w.nodes.ns| == 5 && |w.ready| == 4 && k < 4 && |w.ready[k]| == |w.nodes.ns[k]| && w.ready[k] != []
    ensures var s := w.nodes.ns[k]; Dequeued(w, k) == w.(ready := w.ready[k := w.ready[k][1..]],
      nodes := Nodes(w.nodes.ns[k := s[1..]], [s[0]] + w.nodes.free, w.nodes.bump, w.nodes.tail))
  {
  }

  lemma QueueSizes(cells: Cells, used: set<nat>, recs: seq<Rec>, ns: seq<seq<nat>>)
    requires QueuesAt(cells, used, recs, ns)
    ensures |ns| == 5 && |recs| == 5 && forall i :: 0 <= i < 5 ==> recs[i].size == |ns[i]|
  {
    OneQueue(cells, used, recs, ns, 0);
    hide NodesAt, TailAt;
  }

  // What queue k holds after an append behind a stale tail of the sleep queue
  lemma SeverReached(cells: Cells, used: set<nat>, recs: seq<Rec>, ns: seq<seq<nat>>, tail: nat, node: nat, k: nat)
    requires QueuesAt(cells, used, recs, ns) && |ns| == 5 && k < 5 && node !in used && node in cells && node != 0
    requires tail in cells
    ensures |recs| == 5
    ensures var cells' := Appending(cells, tail, node);
      var xs := Cut(ns[k], tail, Data(cells, ns[k]), cells[node].data);
      && Data(cells', Walk(cells', recs[k].head, recs[k].size)) == AtMost(xs, |ns[k]|)
      && Data(cells', Walk(cells', recs[k].head, |ns[k]| + 1)) == xs
  {
    OneQueue(cells, used, recs, ns, k);
    hide QueuesAt, Appending, Walk, Data;
    ListIsChain(cells, recs[k], ns[k]);
    AppendingReached(cells, recs[k].size, recs[k].head, ns[k], tail, node, |ns[k]|);
    AppendingReached(cells, recs[k].size, recs[k].head, ns[k], tail, node, |ns[k]| + 1);
    hide ChainAt;
  }

  ghost predicate CanSever(w: Sched) {
    Paired(w) && w.current in w.pcbs && w.current !in w.asleep && forall x :: x in w.asleep ==> x in w.pcbs
  }

  // The current process was lost, or others were, when it was put to sleep.
  ghost function Gone(w: Sched): Sched
    requires CanSever(w)
  {
    Severed(w, w.current).(current := 0)
  }

  lemma LostIsGone(w: Sched, time: nat)
    requires Settled(w) && Matched(w) && time != 0
    ensures CanSever(Slept(w, time)) && Lost(w, time) == Gone(Slept(w, time))
  {
    SettledParts(w);
    hide Good, ScannedPcbs, Cut, AtMost;
  }

  // A node outside the lists changes nothing in them.
  lemma QueuesFrame(cells: Cells, cells': Cells, used: set<nat>, recs: seq<Rec>, ns: seq<seq<nat>>)
    requires QueuesAt(cells, used, recs, ns) && cells.Keys <= cells'.Keys
    requires forall a :: a in used ==> a in cells' && cells'[a] == cells[a]
    ensures QueuesAt(cells', used, recs, ns)
    ensures |ns| == 5 && Queued4(cells', ns) == Queued4(cells, ns) && Data(cells', ns[4]) == Data(cells, ns[4])
  {
    assert NodesAt(cells', used, ns);
    hide ListAt, Data, NodesAt;
    forall i | 0 <= i < 5
      ensures ListAt(cells', recs[i], ns[i]) && Data(cells', ns[i]) == Data(cells, ns[i])
    {
      OneQueue(cells, used, recs, ns, i);
      ListFrame(cells, cells', recs[i], ns[i]);
    }
  }
}
