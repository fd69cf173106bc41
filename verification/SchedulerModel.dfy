// scheduler.c: what the scheduler does, on queues of processes.
module SchedulerModel {
  import opened Blocks
  import opened Lists
  import opened Processes
  import opened Sleepers

  const QUANTUM: nat := 10

  // The nodes of the queues: those of the ready queues (0 to 3) and of the sleep queue (4), by address; the free
  // blocks, the one freed last in front; the block after all that were ever taken; and the tail of the sleep queue.
  datatype Nodes = Nodes(ns: seq<seq<nat>>, free: seq<nat>, bump: nat, tail: nat)

  // The scheduler's globals. current is NULL (0) only inside dispatch. `repaired` tells which queue_enqueue_prio runs.
  datatype Sched = Sched(pcbs: Pcbs, current: nat, ready: seq<seq<nat>>, asleep: seq<nat>, quantum: nat, prevTicks: nat,
                         nodes: Nodes, repaired: bool)

  const NODE_SIZE: nat := 16   // sizeof(QueueNode)

  // block_alloc
  function NextNode(h: Nodes): nat {
    if h.free != [] then h.free[0] else h.bump
  }

  function Taken(h: Nodes): Nodes {
    if h.free != [] then h.(free := h.free[1..]) else h.(bump := h.bump + NODE_SIZE)
  }

  // A node goes to the end of queue k, or to place pos of the sleep queue; the first node of queue k is freed.
  function NodeAppended(h: Nodes, k: nat, node: nat): Nodes {
    if k < |h.ns| then h.(ns := h.ns[k := h.ns[k] + [node]]) else h
  }

  function NodeAsleep(h: Nodes, pos: nat, last: bool, node: nat): Nodes {
    if |h.ns| == 5 && pos <= |h.ns[4]| then
      h.(ns := h.ns[4 := Inserted(h.ns[4], pos, node)], tail := if last then node else h.tail)
    else h
  }

  function NodeFreed(h: Nodes, k: nat): Nodes {
    if k < |h.ns| && h.ns[k] != [] then h.(ns := h.ns[k := h.ns[k][1..]], free := [h.ns[k][0]] + h.free) else h
  }

  function SleepNodes(h: Nodes): seq<nat> {
    if |h.ns| == 5 then h.ns[4] else []
  }

  // tail points to the last node of the sleep queue.
  predicate TailLast(h: Nodes) {
    SleepNodes(h) != [] ==> h.tail == SleepNodes(h)[|SleepNodes(h)| - 1]
  }

  // Every queued process has its node.
  predicate Paired(w: Sched) {
    && |w.nodes.ns| == 5 && |w.ready| == NUM_QUEUES && |w.nodes.ns[4]| == |w.asleep|
    && forall i :: 0 <= i < NUM_QUEUES ==> |w.nodes.ns[i]| == |w.ready[i]|
  }

  // The repaired insertion also keeps tail last.
  predicate Matched(w: Sched) {
    Paired(w) && (w.repaired ==> TailLast(w.nodes))
  }

  // Queue i holds READY processes of priority i, the sleep queue SLEEPING ones; every process is current, queued or
  // killed.
  ghost predicate Good(w: Sched) {
    && |w.ready| == NUM_QUEUES && 0 !in w.pcbs
    && (forall i :: 0 <= i < NUM_QUEUES ==> ReadyQueue(w, i))
    && SleepQueue(w)
    && (w.current != 0 ==> (
          w.current in w.pcbs && w.pcbs[w.current].priority < NUM_QUEUES && w.pcbs[w.current].state != Running))
    && (forall p :: p in w.pcbs ==> p == w.current || Placed(w, p))
  }

  ghost predicate ReadyQueue(w: Sched, i: nat)
    requires i < |w.ready|
  {
    && Distinct(w.ready[i])
    && forall p :: p in w.ready[i] ==>
      p != w.current && p in w.pcbs && w.pcbs[p].state == Ready && w.pcbs[p].priority == i
  }

  ghost predicate SleepQueue(w: Sched) {
    && Distinct(w.asleep)
    && forall p :: p in w.asleep ==>
         p != w.current && p in w.pcbs && w.pcbs[p].state == Sleeping && w.pcbs[p].priority < NUM_QUEUES
  }

  ghost predicate Placed(w: Sched, p: nat)
    requires |w.ready| == NUM_QUEUES && p in w.pcbs
  {
    match w.pcbs[p].state
    case Ready => w.pcbs[p].priority < NUM_QUEUES && p in w.ready[w.pcbs[p].priority]
    case Sleeping => p in w.asleep
    case Killed => true
    case Running => false
  }

  // Between system calls somebody runs.
  ghost predicate Settled(w: Sched) {
    Good(w) && w.current != 0 && w.pcbs[w.current].state == Ready
  }

  // How often a process stands in the queues, or runs
  ghost function Places(w: Sched, p: nat): nat
    requires |w.ready| == NUM_QUEUES
  {
    (if p == w.current then 1 else 0) + multiset(w.ready[0])[p] + multiset(w.ready[1])[p] + multiset(w.ready[2])[p]
    + multiset(w.ready[3])[p] + multiset(w.asleep)[p]
  }

  lemma {:induction false} DistinctOnce(s: seq<nat>, p: nat)
    requires Distinct(s)
    ensures multiset(s)[p] == if p in s then 1 else 0
  {
    if s != [] {
      assert s == [s[0]] + s[1..];
      DistinctOnce(s[1..], p);
    }
  }

  // Every process that has not been killed is in exactly one place.
  lemma OnePlace(w: Sched, p: nat)
    requires Good(w) && p in w.pcbs
    ensures Places(w, p) == if p == w.current || w.pcbs[p].state != Killed then 1 else 0
  {
    assert ReadyQueue(w, 0) && ReadyQueue(w, 1) && ReadyQueue(w, 2) && ReadyQueue(w, 3);
    DistinctOnce(w.ready[0], p);
    DistinctOnce(w.ready[1], p);
    DistinctOnce(w.ready[2], p);
    DistinctOnce(w.ready[3], p);
    DistinctOnce(w.asleep, p);
    assert p != w.current ==> Placed(w, p);
  }

  // ---------------------------------------------------------------------------------------------
  // The steps

  function SleepPlace(w: Sched, p: nat): (k: nat)
    requires p in w.pcbs && forall x :: x in w.asleep ==> x in w.pcbs
    ensures k <= |w.asleep|
  {
    Place(Deltas(w.pcbs, w.asleep), w.pcbs[p].sleepTime)
  }

  // A process is put behind the others of queue k, in the node given; or in the one the allocator gives.
  function PutReady(w: Sched, k: nat, p: nat, node: nat): Sched {
    if k < |w.ready| then w.(ready := w.ready[k := w.ready[k] + [p]], nodes := NodeAppended(w.nodes, k, node)) else w
  }

  function AddReady(w: Sched, k: nat, p: nat): Sched {
    PutReady(w.(nodes := Taken(w.nodes)), k, p, NextNode(w.nodes))
  }

  // A process is put to sleep.
  function PutSleeper(w: Sched, p: nat, node: nat): Sched
    requires p in w.pcbs && p !in w.asleep && forall x :: x in w.asleep ==> x in w.pcbs
  {
    var k := SleepPlace(w, p);
    var pos := Position(w.repaired, |w.asleep|, k);
    w.(pcbs := ScannedPcbs(w.pcbs, w.asleep, p), asleep := Inserted(w.asleep, pos, p),
       nodes := NodeAsleep(w.nodes, pos, k == |w.asleep|, node))
  }

  function AddSleeper(w: Sched, p: nat): Sched
    requires p in w.pcbs && p !in w.asleep && forall x :: x in w.asleep ==> x in w.pcbs
  {
    PutSleeper(w.(nodes := Taken(w.nodes)), p, NextNode(w.nodes))
  }

  // schedule
  function Queued(w: Sched, p: nat): Sched
    requires |w.ready| == NUM_QUEUES && p in w.pcbs && w.pcbs[p].priority < NUM_QUEUES
    requires p !in w.asleep && forall x :: x in w.asleep ==> x in w.pcbs
  {
    if w.pcbs[p].state == Sleeping then
      AddSleeper(w, p)
    else
      AddReady(w, w.pcbs[p].priority, p)
  }

  // The head leaves the sleep queue.
  function Unslept(w: Sched): Sched {
    w.(asleep := if w.asleep != [] then w.asleep[1..] else [], nodes := NodeFreed(w.nodes, 4))
  }

  // get_next_sleep
  function Woken(w: Sched, span: nat): Sched
    requires |w.ready| == NUM_QUEUES
    requires forall x :: x in w.asleep ==> x in w.pcbs && w.pcbs[x].priority < NUM_QUEUES
  {
    if w.asleep == [] then w
    else
      var p := w.asleep[0];
      if w.pcbs[p].sleepTime <= span then
        Unslept(AddReady(w.(pcbs := w.pcbs[p := w.pcbs[p].(state := Ready, sleepTime := 0)]), w.pcbs[p].priority, p))
      else w.(pcbs := WithTime(w.pcbs, p, w.pcbs[p].sleepTime - span))
  }

  // and its result: the time to the next wakeup, 0 when nobody sleeps
  function NextWakeup(w: Sched): nat
    requires forall x :: x in w.asleep ==> x in w.pcbs
  {
    if w.asleep == [] then 0 else w.pcbs[w.asleep[0]].sleepTime
  }

  // The first part of dispatch: the quantum, and what becomes of the process that ran
  function Charge(quantum: nat, span: nat): nat {
    if span > quantum then 0 else quantum - span
  }

  function PutAway(w: Sched, span: nat): Sched
    requires Good(w) && w.current != 0
  {
    var q := Charge(w.quantum, span);
    var state := w.pcbs[w.current].state;
    if state == Killed then w.(current := 0, quantum := QUANTUM)
    else if state == Sleeping || q == 0 then Queued(w, w.current).(current := 0, quantum := QUANTUM)
    else w.(quantum := q)
  }

  // The last part: the first process of the first queue that is not empty
  function FirstReady(ready: seq<seq<nat>>): (i: nat)
    ensures i <= |ready| && (i < |ready| ==> ready[i] != []) && forall j :: 0 <= j < i ==> ready[j] == []
  {
    if ready == [] || ready[0] != [] then 0 else 1 + FirstReady(ready[1..])
  }

  predicate Stuck(w: Sched) {
    w.current == 0 && FirstReady(w.ready) == |w.ready|
  }

  function Picked(w: Sched): Sched {
    if w.current != 0 || Stuck(w) then w
    else var i := FirstReady(w.ready); Dequeued(w, i).(current := w.ready[i][0])
  }

  // The head leaves ready queue k.
  function Dequeued(w: Sched, k: nat): Sched {
    if k < |w.ready| && w.ready[k] != [] then
      w.(ready := w.ready[k := w.ready[k][1..]], nodes := NodeFreed(w.nodes, k))
    else w
  }

  // After get_next_sleep, the timer delay is chosen.
  function Timed(w: Sched): Sched
    requires forall x :: x in w.asleep ==> x in w.pcbs
  {
    w.(prevTicks := if 0 < NextWakeup(w) < w.quantum then NextWakeup(w) else w.quantum)
  }

  // The state in which dispatch picks the next process, and all of dispatch
  function BeforePick(w: Sched, span: nat): (r: Sched)
    requires Good(w) && w.current != 0
    ensures Good(r) && r.pcbs.Keys == w.pcbs.Keys && r.repaired == w.repaired
  {
    PutAwayGood(w, span);
    WokenGood(PutAway(w, span), span);
    Woken(PutAway(w, span), span)
  }

  function Dispatched(w: Sched, span: nat): (r: Sched)
    requires Good(w) && w.current != 0
    ensures r.repaired == w.repaired
  {
    Picked(Timed(BeforePick(w, span)))
  }

  // The process that goes to sleep is appended to a stale tail.
  predicate LosesCurrent(w: Sched)
    requires w.current in w.pcbs && forall x :: x in w.asleep ==> x in w.pcbs
  {
    w.pcbs[w.current].state == Sleeping && Loses(SleepNodes(w.nodes), SleepPlace(w, w.current), w.nodes.tail)
  }

  // ---------------------------------------------------------------------------------------------
  // What the steps keep

  lemma QueuedSleeper(w: Sched, w': Sched, q: nat)
    requires Good(w) && w.current != 0 && w.pcbs[w.current].state == Sleeping
    requires w' == Queued(w, w.current).(current := 0, quantum := q)
    ensures Good(w') && w'.pcbs.Keys == w.pcbs.Keys && w'.repaired == w.repaired
  {
    var p := w.current;
    var pos := Position(w.repaired, |w.asleep|, SleepPlace(w, p));
    ScannedDeltas(w.pcbs, w.asleep, p, pos);
    InsertedAt(w.asleep, pos, p);
    InsertedIn(w.asleep, pos, p);
    assert w'.asleep == Inserted(w.asleep, pos, p) && w'.pcbs == ScannedPcbs(w.pcbs, w.asleep, p);
    hide *;
    NewSleeper(w, w', p);
  }

  lemma NewSleeper(w: Sched, w': Sched, p: nat)
    requires Good(w) && w.current == p != 0 && w.pcbs[p].state == Sleeping
    requires w'.current == 0 && w'.ready == w.ready && w'.pcbs.Keys == w.pcbs.Keys
    requires Distinct(w'.asleep) && forall x :: x in w'.asleep <==> x == p || x in w.asleep
    requires forall x :: x in w.pcbs ==>
      w'.pcbs[x].state == w.pcbs[x].state && w'.pcbs[x].priority == w.pcbs[x].priority
    ensures Good(w')
  {
    hide Distinct;
    forall x | x in w'.pcbs ensures Placed(w', x) {
      assert x != p ==> Placed(w, x);
    }
    forall i | 0 <= i < NUM_QUEUES ensures ReadyQueue(w', i) { assert ReadyQueue(w, i); }
  }

  lemma InsertedIn(s: seq<nat>, pos: nat, p: nat)
    requires pos <= |s|
    ensures forall x :: x in Inserted(s, pos, p) <==> x == p || x in s
    ensures Distinct(s) && p !in s ==> Distinct(Inserted(s, pos, p))
  {
    assert s == s[..pos] + s[pos..];
  }

  lemma QueuedReady(w: Sched, w': Sched, q: nat)
    requires Good(w) && w.current != 0 && w.pcbs[w.current].state == Ready
    requires w' == Queued(w, w.current).(current := 0, quantum := q)
    ensures Good(w') && w'.pcbs.Keys == w.pcbs.Keys && w'.repaired == w.repaired
  {
    var p := w.current;
    var k := w.pcbs[p].priority;
    forall x | x in w'.pcbs ensures Placed(w', x) {
      assert x != p ==> Placed(w, x);
    }
    forall i | 0 <= i < NUM_QUEUES ensures ReadyQueue(w', i) { assert ReadyQueue(w, i); }
  }

  lemma LeftKilled(w: Sched, w': Sched, q: nat)
    requires Good(w) && w.current != 0 && w.pcbs[w.current].state == Killed
    requires w' == w.(current := 0, quantum := q)
    ensures Good(w')
  {
    forall x | x in w'.pcbs ensures Placed(w', x) {
      assert x != w.current ==> Placed(w, x);
    }
    forall i | 0 <= i < NUM_QUEUES ensures ReadyQueue(w', i) { assert ReadyQueue(w, i); }
  }

  lemma SameQueues(w: Sched, w': Sched)
    requires Good(w) && w' == w.(quantum := w'.quantum, prevTicks := w'.prevTicks)
    ensures Good(w')
  {
    forall x | x in w'.pcbs && x != w'.current ensures Placed(w', x) { assert Placed(w, x); }
    forall i | 0 <= i < NUM_QUEUES ensures ReadyQueue(w', i) { assert ReadyQueue(w, i); }
  }

  lemma PutAwayGood(w: Sched, span: nat)
    requires Good(w) && w.current != 0
    ensures var w' := PutAway(w, span);
      Good(w') && w'.pcbs.Keys == w.pcbs.Keys && w'.quantum > 0 && w'.repaired == w.repaired
    ensures PutAway(w, span).current == 0 || (PutAway(w, span).current == w.current && w.pcbs[w.current].state == Ready)
  {
    var w' := PutAway(w, span);
    hide Good, Queued;
    match w.pcbs[w.current].state
    case Killed => LeftKilled(w, w', QUANTUM);
    case Sleeping => QueuedSleeper(w, w', QUANTUM);
    case Ready =>
      if Charge(w.quantum, span) == 0 {
        QueuedReady(w, w', QUANTUM);
      } else {
        SameQueues(w, w');
      }
    case Running => NotRunning(w);
  }

  lemma NotRunning(w: Sched)
    requires Good(w) && w.current != 0
    ensures w.current in w.pcbs && w.pcbs[w.current].state != Running
  {
  }

  lemma WokenGood(w: Sched, span: nat)
    requires Good(w)
    ensures var w' := Woken(w, span);
      Good(w') && w'.pcbs.Keys == w.pcbs.Keys && w'.current == w.current && w'.quantum == w.quantum &&
        w'.repaired == w.repaired
  {
    var w' := Woken(w, span);
    if w.asleep != [] {
      var p := w.asleep[0];
      assert w.asleep == [p] + w.asleep[1..];
      HeadWakes(w, w', p, span);
    }
  }

  lemma HeadWakes(w: Sched, w': Sched, p: nat, span: nat)
    requires Good(w) && w.asleep != [] && p == w.asleep[0] && w' == Woken(w, span)
    ensures Good(w')
  {
    assert w.asleep == [p] + w.asleep[1..];
    assert forall x :: x in w.asleep <==> x == p || x in w.asleep[1..];
    HeadWakesSleep(w, w', p, span);
    HeadWakesReady(w, w', p, span);
    hide ReadyQueue, SleepQueue;
    forall x | x in w'.pcbs && x != w'.current ensures Placed(w', x) {
      assert Placed(w, x);
    }
  }

  lemma HeadWakesSleep(w: Sched, w': Sched, p: nat, span: nat)
    requires |w.ready| == NUM_QUEUES && SleepQueue(w) && w.asleep != [] && p == w.asleep[0] && w' == Woken(w, span)
    ensures SleepQueue(w')
  {
    SleepersIn(w);
    hide SleepQueue;
    StaysAsleep(w, w', w.pcbs[p].sleepTime <= span);
  }

  lemma SleepersIn(w: Sched)
    requires SleepQueue(w)
    ensures forall x :: x in w.asleep ==> x in w.pcbs && w.pcbs[x].priority < NUM_QUEUES
  {
  }

  lemma StaysAsleep(w: Sched, w': Sched, gone: bool)
    requires SleepQueue(w) && w.asleep != [] && w'.asleep == if gone then w.asleep[1..] else w.asleep
    requires w'.current == w.current && forall x :: x in w.asleep && (gone ==> x != w.asleep[0]) ==>
      x in w'.pcbs && w'.pcbs[x].state == w.pcbs[x].state && w'.pcbs[x].priority == w.pcbs[x].priority
    ensures SleepQueue(w')
  {
    assert w.asleep == [w.asleep[0]] + w.asleep[1..];
  }

  lemma HeadWakesReady(w: Sched, w': Sched, p: nat, span: nat)
    requires |w.ready| == NUM_QUEUES && SleepQueue(w) && w.asleep != [] && p == w.asleep[0] && w' == Woken(w, span)
    requires forall i :: 0 <= i < NUM_QUEUES ==> ReadyQueue(w, i)
    ensures forall i :: 0 <= i < NUM_QUEUES ==> ReadyQueue(w', i)
  {
    forall i | 0 <= i < NUM_QUEUES ensures ReadyQueue(w', i) { assert ReadyQueue(w, i); }
  }

  lemma PickedGood(w: Sched)
    requires Good(w) && (w.current != 0 ==> w.pcbs[w.current].state == Ready)
    ensures var w' := Picked(w);
      Good(w') && w'.pcbs == w.pcbs && w'.asleep == w.asleep && (w'.current == 0 <==> Stuck(w)) &&
        (!Stuck(w) ==> Settled(w'))
  {
    var w' := Picked(w);
    if w.current == 0 && !Stuck(w) {
      var i := FirstReady(w.ready);
      var p := w'.current;
      assert ReadyQueue(w, i) && w.ready[i] == [p] + w'.ready[i];
      forall x | x in w'.pcbs && x != p ensures Placed(w', x) {
        assert Placed(w, x);
      }
      forall j | 0 <= j < NUM_QUEUES ensures ReadyQueue(w', j) { assert ReadyQueue(w, j); }
    }
  }

  lemma TimedGood(w: Sched)
    requires Good(w)
    ensures Good(Timed(w)) && (w.quantum > 0 ==> 0 < Timed(w).prevTicks <= w.quantum)
  {
    var w' := Timed(w);
    SameQueues(w, w');
  }

  // dispatch neither loses nor adds a process; it ends with a READY process running, except when there is none, and
  // the timer delay it sets is positive and within the quantum.
  lemma DispatchedGood(w: Sched, span: nat)
    requires Good(w) && w.current != 0
    ensures var w1 := BeforePick(w, span); var w' := Dispatched(w, span);
      && Good(w') && w'.pcbs.Keys == w.pcbs.Keys && 0 < w'.prevTicks <= w'.quantum
      && (w'.current == 0 <==> Stuck(w1)) && (w'.current != 0 ==> Settled(w'))
  {
    var w0 := PutAway(w, span);
    PutAwayGood(w, span);
    WokenGood(w0, span);
    var w1 := Woken(w0, span);
    AwakeKept(w, span);
    assert BeforePick(w, span) == w1;
    hide Good, PutAway, Woken, ReadyQueue, SleepQueue, Placed, BeforePick;
    TimedGood(w1);
    SameStates(w1);
    PickedGood(Timed(w1));
  }

  lemma AwakeKept(w: Sched, span: nat)
    requires Good(w) && w.current != 0
    ensures var w1 := BeforePick(w, span);
      w1.current != 0 ==>
        w1.current == w.current && w.pcbs[w.current].state == Ready && w1.pcbs[w.current] == w.pcbs[w.current]
  {
    PutAwayGood(w, span);
    var w0 := PutAway(w, span);
    if w0.current != 0 {
      assert w0.current == w.current && w0.pcbs == w.pcbs;
      hide PutAway;
      WokenOther(w0, span, w.current);
    }
  }

  lemma WokenOther(w: Sched, span: nat, p: nat)
    requires Good(w) && p == w.current != 0
    ensures Woken(w, span).pcbs.Keys == w.pcbs.Keys && p in w.pcbs && Woken(w, span).pcbs[p] == w.pcbs[p]
  {
    WokenGood(w, span);
  }

  lemma SameStates(w: Sched)
    requires Good(w)
    ensures Timed(w).current == w.current && Timed(w).pcbs == w.pcbs && Timed(w).ready == w.ready
  {
  }

  // Nothing is left to run exactly when no process is READY.
  lemma StuckMeans(w: Sched)
    requires Good(w) && (w.current != 0 ==> w.pcbs[w.current].state == Ready)
    ensures Stuck(w) <==> forall p :: p in w.pcbs ==> w.pcbs[p].state != Ready
  {
    if Stuck(w) {
      forall p | p in w.pcbs ensures w.pcbs[p].state != Ready { assert Placed(w, p); }
    } else if w.current == 0 {
      var i := FirstReady(w.ready);
      assert ReadyQueue(w, i) && w.ready[i][0] in w.ready[i];
    }
  }

  // First in its queue, and no READY process has a better priority
  ghost predicate BestReady(w: Sched, p: nat) {
    && p in w.pcbs && w.pcbs[p].priority < |w.ready| && w.ready[w.pcbs[p].priority] != []
    && w.ready[w.pcbs[p].priority][0] == p
    && forall x :: x in w.pcbs && w.pcbs[x].state == Ready ==> w.pcbs[p].priority <= w.pcbs[x].priority
  }

  // Who runs next: the process that ran goes on, or the one that has waited longest among the READY processes of the
  // best priority there is.
  lemma DispatchedWho(w: Sched, span: nat)
    requires Good(w) && w.current != 0 && Dispatched(w, span).current != 0
    ensures var p := Dispatched(w, span).current;
      if w.pcbs[w.current].state == Ready && Charge(w.quantum, span) > 0 then p == w.current
        else BestReady(BeforePick(w, span), p)
  {
    PutAwayGood(w, span);
    WokenGood(PutAway(w, span), span);
    var w1 := Woken(PutAway(w, span), span);
    SameStates(w1);
    var p := Dispatched(w, span).current;
    assert w1.current == 0 <==> !(w.pcbs[w.current].state == Ready && Charge(w.quantum, span) > 0) by {
      assert w1.current == PutAway(w, span).current;
    }
    hide PutAway, Woken;
    if w1.current == 0 {
      var i := FirstReady(w1.ready);
      assert p == w1.ready[i][0] && p in w1.ready[i] && ReadyQueue(w1, i);
      forall x | x in w1.pcbs && w1.pcbs[x].state == Ready ensures i <= w1.pcbs[x].priority {
        assert Placed(w1, x);
      }
    }
  }

  // ---------------------------------------------------------------------------------------------
  // Deltas: what schedule and get_next_sleep do to the sleep queue is what module Sleepers says.

  lemma WokenIsAged(w: Sched, span: nat)
    requires Good(w)
    ensures var w' := Woken(w, span);
      && (forall x :: x in w'.asleep ==> x in w'.pcbs)
      && Deltas(w'.pcbs, w'.asleep) == Aged(Deltas(w.pcbs, w.asleep), span)
  {
    var w' := Woken(w, span);
    SleepersThere(w);
    if w.asleep != [] {
      HeadAged(w.pcbs, w'.pcbs, w.asleep, w'.asleep, span);
    }
  }

  lemma SleepersThere(w: Sched)
    requires Good(w)
    ensures Distinct(w.asleep) && forall p :: p in w.asleep ==> p in w.pcbs && w.pcbs[p].priority < NUM_QUEUES
  {
  }

  lemma HeadAged(pcbs: Pcbs, pcbs': Pcbs, ps: seq<nat>, ps': seq<nat>, span: nat)
    requires ps != [] && Distinct(ps) && (forall p :: p in ps ==> p in pcbs)
    requires ps' == if pcbs[ps[0]].sleepTime <= span then ps[1..] else ps
    requires forall p :: p in ps && p != ps[0] ==> p in pcbs' && pcbs'[p] == pcbs[p]
    requires pcbs[ps[0]].sleepTime > span ==> ps[0] in pcbs' && pcbs'[ps[0]].sleepTime == pcbs[ps[0]].sleepTime - span
    ensures (forall p :: p in ps' ==> p in pcbs') && Deltas(pcbs', ps') == Aged(Deltas(pcbs, ps), span)
  {
    var ds := Deltas(pcbs, ps);
    assert ds[0] == pcbs[ps[0]].sleepTime;
    forall i | 0 < i < |ps| ensures ps[i] in ps && ps[i] != ps[0] {}
    forall p | p in ps' ensures p in pcbs' {}
    forall i | 0 <= i < |ps'| ensures Deltas(pcbs', ps')[i] == Aged(ds, span)[i] {
      if pcbs[ps[0]].sleepTime <= span {
        assert ps'[i] == ps[i + 1] && Aged(ds, span)[i] == ds[i + 1];
      } else if i > 0 {
        assert Aged(ds, span)[i] == ds[i];
      }
    }
  }

  lemma QueuedIsInserted(w: Sched, p: nat)
    requires Good(w) && p in w.pcbs && p !in w.asleep && w.pcbs[p].state == Sleeping && w.pcbs[p].priority < NUM_QUEUES
    ensures var w' := Queued(w, p); var ds := Deltas(w.pcbs, w.asleep); var t := w.pcbs[p].sleepTime;
      var pos := Position(w.repaired, |ds|, Place(ds, t));
      && (forall x :: x in w'.asleep ==> x in w'.pcbs) && w'.asleep[pos] == p
      && Deltas(w'.pcbs, w'.asleep) == Inserted(Scanned(ds, t), pos, Rest(ds, t))
  {
    ScannedDeltas(w.pcbs, w.asleep, p, Position(w.repaired, |w.asleep|, SleepPlace(w, p)));
    hide ScannedPcbs, Scanned, Rest, Place, Deltas;
  }

  // ---------------------------------------------------------------------------------------------
  // Runs

  // What can happen between two runs of user code: the timer fires or a system call is made, each after some time.
  datatype Event =
    | Timer(span: nat)
    | Sleep(time: nat, span: nat)
    | Exit(span: nat)
    | Fork(child: nat, span: nat)
    | SetPriority(priority: nat)

  // The process control block of the current process is written before dispatch.
  function WithState(w: Sched, state: State, time: nat): Sched
    requires w.current in w.pcbs
  {
    w.(pcbs := w.pcbs[w.current := w.pcbs[w.current].(state := state, sleepTime := time)])
  }

  function Prioritized(w: Sched, priority: nat): Sched
    requires w.current in w.pcbs
  {
    w.(pcbs := w.pcbs[w.current := w.pcbs[w.current].(priority := priority)])
  }

  // sleep_pcb, exit
  function Slept(w: Sched, time: nat): Sched
    requires w.current in w.pcbs
  {
    if time == 0 then w else WithState(w, Sleeping, time)
  }

  function Exited(w: Sched): Sched
    requires w.current in w.pcbs
  {
    WithState(w, Killed, w.pcbs[w.current].sleepTime)
  }

  // fork: the child is a copy of its parent, in the queue of its priority.
  function WithChild(w: Sched, child: nat): Sched
    requires Settled(w)
  {
    AddReady(w.(pcbs := w.pcbs[child := w.pcbs[w.current]]), w.pcbs[w.current].priority, child)
  }

  lemma WithStateGood(w: Sched, state: State, time: nat)
    requires Settled(w) && state != Running
    ensures Good(WithState(w, state, time))
  {
    var w' := WithState(w, state, time);
    forall x | x in w'.pcbs && x != w'.current ensures Placed(w', x) { assert Placed(w, x); }
    forall i | 0 <= i < NUM_QUEUES ensures ReadyQueue(w', i) { assert ReadyQueue(w, i); }
  }

  lemma PrioritizedGood(w: Sched, priority: nat)
    requires Settled(w) && priority <= IDLE
    ensures Settled(Prioritized(w, priority))
  {
    var w' := Prioritized(w, priority);
    forall x | x in w'.pcbs && x != w'.current ensures Placed(w', x) { assert Placed(w, x); }
    forall i | 0 <= i < NUM_QUEUES ensures ReadyQueue(w', i) { assert ReadyQueue(w, i); }
  }

  lemma WithChildGood(w: Sched, child: nat)
    requires Settled(w) && child != 0 && child !in w.pcbs
    ensures Settled(WithChild(w, child))
  {
    var w' := WithChild(w, child);
    forall x | x in w'.pcbs && x != w'.current ensures Placed(w', x) { assert x != child ==> Placed(w, x); }
    forall i | 0 <= i < NUM_QUEUES ensures ReadyQueue(w', i) {
      assert ReadyQueue(w, i);
    }
  }

  predicate Allowed(w: Sched, e: Event) {
    match e
    case Fork(child, _) => child != 0 && child !in w.pcbs
    case SetPriority(priority) => priority <= IDLE
    case _ => true
  }

  function Happens(w: Sched, e: Event): Sched
    requires Settled(w) && Allowed(w, e)
  {
    match e
    case Timer(span) => Dispatched(w, span)
    case Sleep(time, span) => WithStateGood(w, Sleeping, time); Dispatched(Slept(w, time), span)
    case Exit(span) => WithStateGood(w, Killed, w.pcbs[w.current].sleepTime); Dispatched(Exited(w), span)
    case Fork(child, span) => WithChildGood(w, child); Dispatched(WithChild(w, child), span)
    case SetPriority(priority) => Prioritized(w, priority)
  }

  // The event appends the current process behind tail, and tail is not the last node of the sleep queue.
  predicate LosesBy(w: Sched, e: Event)
    requires forall x :: x in w.asleep ==> x in w.pcbs
  {
    e.Sleep? && e.time != 0 && Loses(SleepNodes(w.nodes), Place(Deltas(w.pcbs, w.asleep), e.time), w.nodes.tail)
  }

  // What the queues hold right after the store through tail, wherever that leads: the queue it leads into is cut off
  // there, and goes on with the new sleeper p. (The nodes are not looked at any more.)
  ghost function Severed(w: Sched, p: nat): Sched
    requires Paired(w) && p in w.pcbs && p !in w.asleep && forall x :: x in w.asleep ==> x in w.pcbs
  {
    w.(pcbs := ScannedPcbs(w.pcbs, w.asleep, p), asleep := Cut(w.nodes.ns[4], w.nodes.tail, w.asleep, p),
       ready := [CutReady(w, 0, p), CutReady(w, 1, p), CutReady(w, 2, p), CutReady(w, 3, p)])
  }

  // A ready queue ends after as many nodes as it counts.
  ghost function CutReady(w: Sched, i: nat, p: nat): seq<nat>
    requires Paired(w) && i < NUM_QUEUES
  {
    AtMost(Cut(w.nodes.ns[i], w.nodes.tail, w.ready[i], p), |w.ready[i]|)
  }

  // The process that went to sleep does not run, and so the queues are all there is.
  ghost function Lost(w: Sched, time: nat): Sched
    requires Settled(w) && Matched(w)
  {
    Severed(WithState(w, Sleeping, time), w.current).(current := 0)
  }

  // Every process that has not been killed is in one place.
  ghost predicate Whole(w: Sched)
    requires |w.ready| == NUM_QUEUES
  {
    forall p :: p in w.pcbs ==> Places(w, p) == if p == w.current || w.pcbs[p].state != Killed then 1 else 0
  }

  // A run, up to the panic that nothing is left to run, or to the first loss of a process
  ghost predicate Run(w: Sched, es: seq<Event>, w': Sched)
    decreases |es|
  {
    if es == [] || w.current == 0 then w' == w
    else
      && Settled(w) && Matched(w) && Allowed(w, es[0])
      && if LosesBy(w, es[0]) then w' == Lost(w, es[0].time) else Run(Happens(w, es[0]), es[1..], w')
  }

  ghost predicate RunLoses(w: Sched, es: seq<Event>)
    decreases |es|
  {
    && es != [] && w.current != 0 && Settled(w) && Allowed(w, es[0])
    && (LosesBy(w, es[0]) || RunLoses(Happens(w, es[0]), es[1..]))
  }

  // Which sleep loses a process: one that is to last longer than all others, while tail is not the last node.
  lemma LosesMeans(w: Sched, e: Event)
    requires Settled(w) && Matched(w)
    ensures LosesBy(w, e) <==>
      e.Sleep? && e.time != 0 && w.asleep != [] && !TailLast(w.nodes) && e.time > Sum(Deltas(w.pcbs, w.asleep))
  {
    if e.Sleep? { PlaceEnds(Deltas(w.pcbs, w.asleep), e.time); }
  }

  // The last node after an insertion
  lemma LastAfter(s: seq<nat>, repaired: bool, k: nat, node: nat)
    requires k <= |s|
    ensures var t := Inserted(s, Position(repaired, |s|, k), node);
      t[|s|] == if k == |s| || Lags(repaired, |s|, k) then node else s[|s| - 1]
  {
  }

  // The tail after a process has been put to sleep
  lemma TailAfter(w: Sched, time: nat)
    requires Settled(w) && Matched(w) && time != 0
    ensures var w1 := WithState(w, Sleeping, time); Good(w1) && w.current in w1.pcbs && w.current !in w1.asleep
    ensures var ds := Deltas(w.pcbs, w.asleep); var h := AddSleeper(WithState(w, Sleeping, time), w.current).nodes;
      var k := Place(ds, time); var s := w.nodes.ns[4];
      && h.tail == (if k == |s| then NextNode(w.nodes) else w.nodes.tail) && |SleepNodes(h)| == |s| + 1
      && SleepNodes(h)[|s|] == if k == |s| || Lags(w.repaired, |s|, k) then NextNode(w.nodes) else s[|s| - 1]
  {
    var w1 := WithState(w, Sleeping, time);
    SettledParts(w);
    WithStateGood(w, Sleeping, time);
    assert Deltas(w1.pcbs, w1.asleep) == Deltas(w.pcbs, w.asleep);
    hide Place, Deltas, ScannedPcbs, Inserted, Good, Lags;
    LastAfter(w.nodes.ns[4], w.repaired, SleepPlace(w1, w.current), NextNode(w.nodes));
  }

  // How the tail comes to lag: while it is last, by a sleep that is to end between the last two sleepers.
  lemma LagStarts(w: Sched, time: nat)
    requires Settled(w) && Matched(w) && time != 0 && TailLast(w.nodes) && NextNode(w.nodes) !in w.nodes.ns[4]
    ensures var w1 := WithState(w, Sleeping, time); Good(w1) && w.current in w1.pcbs && w.current !in w1.asleep
    ensures var ds := Deltas(w.pcbs, w.asleep);
      TailLast(AddSleeper(WithState(w, Sleeping, time), w.current).nodes) <==>
        w.repaired || |ds| < 2 || time <= Sum(ds[..|ds| - 1]) || time > Sum(ds)
  {
    SettledParts(w);
    PlaceEnds(Deltas(w.pcbs, w.asleep), time);
    assert |Deltas(w.pcbs, w.asleep)| == |w.nodes.ns[4]|;
    hide Place, Deltas, AddSleeper, Good, WithState, Lags, Sum, Settled;
    TailAfter(w, time);
  }

  // How it may come to be last again: its block has been freed, and is the one the new last node gets.
  lemma LagEnds(w: Sched, time: nat)
    requires Settled(w) && Matched(w) && !LosesBy(w, Sleep(time, 0)) && time != 0 && !TailLast(w.nodes)
    ensures var w1 := WithState(w, Sleeping, time); Good(w1) && w.current in w1.pcbs && w.current !in w1.asleep
    ensures var ds := Deltas(w.pcbs, w.asleep);
      TailLast(AddSleeper(WithState(w, Sleeping, time), w.current).nodes) <==>
        !w.repaired && NextNode(w.nodes) == w.nodes.tail && |ds| >= 2 && Sum(ds[..|ds| - 1]) < time <= Sum(ds)
  {
    SettledParts(w);
    PlaceEnds(Deltas(w.pcbs, w.asleep), time);
    assert |Deltas(w.pcbs, w.asleep)| == |w.nodes.ns[4]|;
    hide Place, Deltas, AddSleeper, Good, WithState, Lags, Sum, Settled;
    TailAfter(w, time);
  }

  // A run keeps every process in one place exactly when none of its events appends behind a tail that is not last.
  lemma {:induction false} RunExact(w: Sched, es: seq<Event>, w': Sched)
    requires Settled(w) && Matched(w) && Run(w, es, w')
    ensures |w'.ready| == NUM_QUEUES && (Whole(w') <==> !RunLoses(w, es)) && w.pcbs.Keys <= w'.pcbs.Keys
    ensures !RunLoses(w, es) ==> Good(w') && Matched(w') && (w'.current != 0 ==> Settled(w'))
    decreases |es|
  {
    hide Good, Matched, Happens, LosesBy, Lost, Whole;
    SettledParts(w);
    if es == [] {
      GoodIsWhole(w);
    } else if LosesBy(w, es[0]) {
      LostNotWhole(w, es[0]);
    } else {
      var w1 := Happens(w, es[0]);
      HappensGood(w, es[0]);
      HappensMatched(w, es[0]);
      if w1.current != 0 { RunExact(w1, es[1..], w'); } else { GoodIsWhole(w1); }
    }
  }

  lemma SettledParts(w: Sched)
    requires Settled(w)
    ensures Good(w) && |w.ready| == NUM_QUEUES && w.current != 0 && w.current in w.pcbs
    ensures w.pcbs[w.current].state == Ready && w.current !in w.asleep && forall x :: x in w.asleep ==> x in w.pcbs
  {
  }

  // The machine never leaves the states a run goes through, other than by losing a process or having nobody to run.
  lemma HappensMatched(w: Sched, e: Event)
    requires Settled(w) && Matched(w) && Allowed(w, e) && !LosesBy(w, e)
    ensures Matched(Happens(w, e)) && Happens(w, e).repaired == w.repaired
  {
    hide Dispatched, Good, Matched;
    SettledParts(w);
    match e
    case Timer(span) =>
      DispatchedMatched(w, span);
    case Sleep(time, span) =>
      WithStateGood(w, Sleeping, time);
      SleptMatched(w, time);
      DispatchedMatched(Slept(w, time), span);
    case Exit(span) =>
      WithStateGood(w, Killed, w.pcbs[w.current].sleepTime);
      ExitedMatched(w);
      DispatchedMatched(Exited(w), span);
    case Fork(child, span) =>
      WithChildGood(w, child);
      WithChildMatched(w, child);
      DispatchedMatched(WithChild(w, child), span);
    case SetPriority(priority) =>
      PrioritizedMatched(w, priority);
  }

  lemma SleptMatched(w: Sched, time: nat)
    requires Settled(w) && Matched(w)
    ensures Matched(Slept(w, time))
  {
    hide Good;
  }

  lemma ExitedMatched(w: Sched)
    requires Settled(w) && Matched(w)
    ensures Matched(Exited(w))
  {
    hide Good;
  }

  lemma PrioritizedMatched(w: Sched, priority: nat)
    requires Settled(w) && Matched(w) && priority <= IDLE
    ensures Matched(Prioritized(w, priority)) && Prioritized(w, priority).repaired == w.repaired
  {
    hide Good;
  }

  lemma WithChildMatched(w: Sched, child: nat)
    requires Settled(w) && Matched(w)
    ensures Matched(WithChild(w, child))
  {
    SettledParts(w);
    hide Good;
    AddReadyMatched(w.(pcbs := w.pcbs[child := w.pcbs[w.current]]), w.pcbs[w.current].priority, child);
  }

  lemma AddReadyMatched(w: Sched, k: nat, p: nat)
    requires Matched(w)
    ensures Matched(AddReady(w, k, p)) && AddReady(w, k, p).asleep == w.asleep
    ensures SleepNodes(AddReady(w, k, p).nodes) == SleepNodes(w.nodes) && AddReady(w, k, p).nodes.tail == w.nodes.tail
  {
  }

  lemma DispatchedMatched(w: Sched, span: nat)
    requires Good(w) && w.current != 0 && Matched(w)
    ensures Matched(Dispatched(w, span)) && Dispatched(w, span).repaired == w.repaired
  {
    PutAwayGood(w, span);
    PutAwayMatched(w, span);
    var w0 := PutAway(w, span);
    WokenGood(w0, span);
    WokenMatched(w0, span);
    var w1 := Woken(w0, span);
    assert BeforePick(w, span) == w1;
    hide Good, PutAway, Woken, BeforePick;
    PickedMatched(w1);
  }

  lemma PutAwayMatched(w: Sched, span: nat)
    requires Good(w) && w.current != 0 && Matched(w)
    ensures Matched(PutAway(w, span))
  {
    var p := w.current;
    NotRunning(w);
    assert p !in w.asleep && forall x :: x in w.asleep ==> x in w.pcbs;
    hide Good;
    match w.pcbs[p].state
    case Sleeping => AddSleeperMatched(w, p);
    case Ready => AddReadyMatched(w, w.pcbs[p].priority, p);
    case Killed =>
  }

  lemma AddSleeperMatched(w: Sched, p: nat)
    requires Matched(w) && p in w.pcbs && p !in w.asleep && forall x :: x in w.asleep ==> x in w.pcbs
    ensures Matched(AddSleeper(w, p))
  {
    var k := SleepPlace(w, p);
    InsertedAt(w.nodes.ns[4], Position(w.repaired, |w.asleep|, k), NextNode(w.nodes));
    hide Inserted, ScannedPcbs, SleepPlace;
  }

  lemma WokenMatched(w: Sched, span: nat)
    requires Good(w) && Matched(w)
    ensures Matched(Woken(w, span))
  {
    SleepersThere(w);
    hide Good;
    if w.asleep != [] {
      var p := w.asleep[0];
      var w1 := w.(pcbs := w.pcbs[p := w.pcbs[p].(state := Ready, sleepTime := 0)]);
      AddReadyMatched(w1, w.pcbs[p].priority, p);
      UnsleptMatched(AddReady(w1, w.pcbs[p].priority, p));
      hide AddReady, Unslept;
    }
  }

  lemma UnsleptMatched(w: Sched)
    requires Matched(w) && w.asleep != []
    ensures Matched(Unslept(w))
  {
  }

  lemma PickedMatched(w: Sched)
    requires Matched(w) && forall x :: x in w.asleep ==> x in w.pcbs
    ensures Matched(Picked(Timed(w)))
  {
  }

  // With the repaired queue_enqueue_prio no run loses a process.
  lemma {:induction false} RunRepaired(w: Sched, es: seq<Event>, w': Sched)
    requires Settled(w) && Matched(w) && Run(w, es, w') && w.repaired
    ensures Good(w') && Whole(w') && w.pcbs.Keys <= w'.pcbs.Keys
  {
    RunExact(w, es, w');
    NeverLoses(w, es);
  }

  lemma {:induction false} NeverLoses(w: Sched, es: seq<Event>)
    requires Settled(w) && Matched(w) && w.repaired
    ensures !RunLoses(w, es)
    decreases |es|
  {
    hide Happens, Settled;
    if es != [] && w.current != 0 && Allowed(w, es[0]) {
      SettledParts(w);
      LosesMeans(w, es[0]);
      HappensGood(w, es[0]);
      HappensMatched(w, es[0]);
      if Happens(w, es[0]).current != 0 { NeverLoses(Happens(w, es[0]), es[1..]); }
    }
  }

  lemma GoodIsWhole(w: Sched)
    requires Good(w)
    ensures |w.ready| == NUM_QUEUES && Whole(w)
  {
    hide Places;
    forall p | p in w.pcbs ensures Places(w, p) == if p == w.current || w.pcbs[p].state != Killed then 1 else 0 {
      OnePlace(w, p);
    }
  }

  lemma LostNotWhole(w: Sched, e: Event)
    requires Settled(w) && Matched(w) && LosesBy(w, e)
    ensures var w' := Lost(w, e.time);
      |w'.ready| == NUM_QUEUES && w.pcbs.Keys <= w'.pcbs.Keys && !Whole(w')
  {
    var w', tail, p := Lost(w, e.time), w.nodes.tail, w.current;
    SettledParts(w);
    LostStates(w, e.time);
    LostQueues(w, e.time);
    hide Lost, LosesBy, Whole, CutReady, Cut, AtMost, Places, Good, Settled;
    if tail in w.nodes.ns[4] {
      LostLast(w, e);
      NoPlace(w, w', w.asleep[|w.asleep| - 1], 4);
    } else if i: nat :| i < NUM_QUEUES && p in w'.ready[i] {
      LostReady(w, i, w'.ready[i]);
      NoPlace(w, w', w.ready[i][IndexOf(w.nodes.ns[i], tail) + 1], i);
    } else {
      Nowhere(w', p);
    }
  }

  lemma LostStates(w: Sched, time: nat)
    requires Settled(w) && Matched(w)
    ensures var w' := Lost(w, time);
      && w'.pcbs.Keys == w.pcbs.Keys && w'.current == 0 && w.current in w.pcbs
      && w'.pcbs[w.current].state == Sleeping
      && forall x :: x in w.pcbs && x != w.current ==> w'.pcbs[x].state == w.pcbs[x].state
  {
    var w1 := WithState(w, Sleeping, time);
    ScannedDeltas(w1.pcbs, w.asleep, w.current, 0);
    hide ScannedPcbs, Deltas, Place;
  }

  // Nothing but the new sleeper is new in a queue.
  lemma LostQueues(w: Sched, time: nat)
    requires Settled(w) && Matched(w)
    ensures var w' := Lost(w, time);
      && |w'.ready| == NUM_QUEUES && w'.asleep == Cut(w.nodes.ns[4], w.nodes.tail, w.asleep, w.current)
      && (forall i :: 0 <= i < NUM_QUEUES ==> w'.ready[i] == CutReady(w, i, w.current))
      && (forall x :: x in w'.asleep ==> x == w.current || x in w.asleep)
      && (forall i, x :: 0 <= i < NUM_QUEUES && x in w'.ready[i] ==> x == w.current || x in w.ready[i])
  {
    var w' := Lost(w, time);
    LostIs(w, time);
    CutIn(w.nodes.ns[4], w.nodes.tail, w.asleep, w.current, |w.asleep|);
    hide Settled, Lost, Cut, AtMost;
    forall i, x | 0 <= i < NUM_QUEUES && x in w'.ready[i] ensures x == w.current || x in w.ready[i] {
      CutIn(w.nodes.ns[i], w.nodes.tail, w.ready[i], w.current, |w.ready[i]|);
    }
  }

  lemma LostIs(w: Sched, time: nat)
    requires Settled(w) && Matched(w)
    ensures var w' := Lost(w, time);
      && |w'.ready| == NUM_QUEUES && w'.asleep == Cut(w.nodes.ns[4], w.nodes.tail, w.asleep, w.current)
      && w'.ready == [CutReady(w, 0, w.current), CutReady(w, 1, w.current), CutReady(w, 2, w.current),
        CutReady(w, 3, w.current)]
  {
    hide Good, ScannedPcbs, Cut, AtMost;
  }

  lemma CutIn(s: seq<nat>, tail: nat, xs: seq<nat>, x: nat, n: nat)
    requires |xs| == |s|
    ensures forall y :: y in Cut(s, tail, xs, x) ==> y == x || y in xs
    ensures forall y :: y in AtMost(Cut(s, tail, xs, x), n) ==> y == x || y in xs
  {
  }

  // tail is an earlier node of the sleep queue: the last sleeper is gone.
  lemma LostLast(w: Sched, e: Event)
    requires Settled(w) && Matched(w) && LosesBy(w, e) && w.nodes.tail in w.nodes.ns[4]
    ensures var x := w.asleep[|w.asleep| - 1];
      x in w.asleep && x !in Cut(w.nodes.ns[4], w.nodes.tail, w.asleep, w.current)
  {
    assert SleepQueue(w);
  }

  // tail is a node of a ready queue that has others behind it: the next one is gone.
  lemma LostReady(w: Sched, i: nat, rest: seq<nat>)
    requires Settled(w) && Matched(w) && i < NUM_QUEUES && rest == CutReady(w, i, w.current) && w.current in rest
    ensures w.nodes.tail in w.nodes.ns[i] && IndexOf(w.nodes.ns[i], w.nodes.tail) + 1 < |w.ready[i]|
    ensures var x := w.ready[i][IndexOf(w.nodes.ns[i], w.nodes.tail) + 1]; x in w.ready[i] && x !in rest
  {
    assert ReadyQueue(w, i);
  }

  // A process that is gone from the queue it stood in stands nowhere.
  lemma NoPlace(w: Sched, w': Sched, x: nat, k: nat)
    requires Good(w) && |w'.ready| == NUM_QUEUES && w'.current == 0 && k <= NUM_QUEUES && x != w.current
    requires if k == 4 then x in w.asleep && x !in w'.asleep else x in w.ready[k] && x !in w'.ready[k]
    requires w'.pcbs.Keys == w.pcbs.Keys && forall y :: y in w.pcbs && y != w.current ==>
      w'.pcbs[y].state == w.pcbs[y].state
    requires forall y :: y in w'.asleep ==> y == w.current || y in w.asleep
    requires forall i, y :: 0 <= i < NUM_QUEUES && y in w'.ready[i] ==> y == w.current || y in w.ready[i]
    ensures !Whole(w')
  {
    forall i: nat | i < NUM_QUEUES ensures x !in w'.ready[i] {
      assert ReadyQueue(w, i) && (k < 4 ==> ReadyQueue(w, k));
    }
    assert x !in w'.asleep by { if k < 4 { assert ReadyQueue(w, k); } }
    assert x in w'.pcbs && w'.pcbs[x].state != Killed by { if k < 4 { assert ReadyQueue(w, k); } }
    hide Good;
    Nowhere(w', x);
  }

  lemma Nowhere(w: Sched, x: nat)
    requires |w.ready| == NUM_QUEUES && x in w.pcbs && w.pcbs[x].state != Killed && x != w.current
    requires x !in w.asleep && forall i: nat :: i < NUM_QUEUES ==> x !in w.ready[i]
    ensures !Whole(w)
  {
    NotIn(w.ready[0], x);
    NotIn(w.ready[1], x);
    NotIn(w.ready[2], x);
    NotIn(w.ready[3], x);
    NotIn(w.asleep, x);
    assert Places(w, x) == 0;
  }

  lemma NotIn(s: seq<nat>, x: nat)
    requires x !in s
    ensures multiset(s)[x] == 0
  {
  }

  lemma HappensGood(w: Sched, e: Event)
    requires Settled(w) && Allowed(w, e)
    ensures var w' := Happens(w, e); Good(w') && (w'.current != 0 ==> Settled(w')) && w.pcbs.Keys <= w'.pcbs.Keys
  {
    hide Dispatched;
    match e
    case Timer(span) => DispatchedGood(w, span);
    case Sleep(time, span) => WithStateGood(w, Sleeping, time); DispatchedGood(Slept(w, time), span);
    case Exit(span) => WithStateGood(w, Killed, w.pcbs[w.current].sleepTime); DispatchedGood(Exited(w), span);
    case Fork(child, span) => WithChildGood(w, child); DispatchedGood(WithChild(w, child), span);
    case SetPriority(priority) => PrioritizedGood(w, priority);
  }

  // ---------------------------------------------------------------------------------------------
  // A run that loses a process

  // Process 1 runs, 4 waits behind it, 2 and 3 sleep for 10 and 20.
  function LossStart(): Sched {
    Sched(map[1 := Pcb(Ready, 1, 0), 2 := Pcb(Sleeping, 1, 10), 3 := Pcb(Sleeping, 1, 10), 4 := Pcb(Ready, 1, 0)],
          1, [[], [4], [], []], [2, 3], 10, 10, Nodes([[], [64], [], [], [80, 96]], [], 112, 96), false)
  }

  // After process 1 has gone to sleep for 15: its node is the last, and tail is the one before.
  function LossNext(): Sched {
    Sched(map[1 := Pcb(Sleeping, 1, 5), 2 := Pcb(Sleeping, 1, 10), 3 := Pcb(Sleeping, 1, 5), 4 := Pcb(Ready, 1, 0)],
          4, [[], [], [], []], [2, 3, 1], 10, 10, Nodes([[], [], [], [], [80, 96, 112]], [64], 128, 96), false)
  }

  // The same, but tail leads to the block freed last.
  function ReuseStart(): Sched {
    LossStart().(nodes := Nodes([[], [64], [], [], [80, 96]], [112], 128, 112))
  }

  // Process 1 gets that block, as the last node: tail is last again.
  function ReuseNext(): Sched {
    LossNext().(nodes := Nodes([[], [], [], [], [80, 96, 112]], [64], 128, 112))
  }

  lemma LossSettled()
    ensures Settled(LossStart()) && Settled(LossNext()) && Matched(LossStart()) && Matched(LossNext())
    ensures Settled(ReuseStart()) && Settled(ReuseNext()) && Matched(ReuseStart()) && Matched(ReuseNext())
  {
    var w, w' := LossStart(), LossNext();
    SettledStart(w);
    SettledNext(w');
    SettledStart(ReuseStart());
    SettledNext(ReuseNext());
  }

  lemma SettledStart(w: Sched)
    requires w == LossStart().(nodes := w.nodes)
    ensures Settled(w)
  {
    assert w.ready[0] == [] && w.ready[1] == [4] && w.ready[2] == [] && w.ready[3] == [];
    forall p | p in w.pcbs ensures p == w.current || Placed(w, p) {}
    forall i | 0 <= i < NUM_QUEUES ensures ReadyQueue(w, i) {}
  }

  lemma SettledNext(w: Sched)
    requires w == LossNext().(nodes := w.nodes)
    ensures Settled(w)
  {
    assert w.ready[0] == [] && w.ready[1] == [] && w.ready[2] == [] && w.ready[3] == [];
    forall p | p in w.pcbs ensures p == w.current || Placed(w, p) {}
    forall i | 0 <= i < NUM_QUEUES ensures ReadyQueue(w, i) {}
  }

  lemma LossPlaces()
    ensures Place([10, 10], 15) == 1 && Rest([10, 10], 15) == 5
    ensures Place([10, 5, 5], 100) == 3
  {
    assert [10, 10][1..] == [10];
    assert [10, 5, 5][1..] == [5, 5] && [5, 5][1..] == [5] && [5][1..] == [];
  }

  // Process 1 goes to sleep for 15, and gets node 112.
  lemma LossSleeper(w0: Sched)
    requires w0 == LossStart().(nodes := w0.nodes) && w0.nodes.ns == LossStart().nodes.ns && NextNode(w0.nodes) == 112
    ensures var w := WithState(w0, Sleeping, 15);
      AddSleeper(w, 1) == w.(pcbs := LossNext().pcbs, asleep := [2, 3, 1],
        nodes := Taken(w0.nodes).(ns := [[], [64], [], [], [80, 96, 112]]))
  {
    LossPlaces();
    var w := WithState(w0, Sleeping, 15);
    assert Deltas(w.pcbs, w.asleep) == [10, 10];
    assert Inserted(w.asleep, 2, 1) == [2, 3, 1] && Inserted([80, 96], 2, 112) == [80, 96, 112];
    hide Place, Rest;
    assert ScannedPcbs(w.pcbs, w.asleep, 1) == LossNext().pcbs;
  }

  // Nobody wakes, and process 4 is picked.
  lemma LossPick(w: Sched)
    requires w == LossNext().(current := 0, ready := [[], [4], [], []], nodes := w.nodes)
    requires w.nodes.ns == [[], [64], [], [], [80, 96, 112]] && w.nodes.free == []
    ensures Woken(w, 0) == w
    ensures Picked(Timed(w)) == LossNext().(nodes := LossNext().nodes.(bump := w.nodes.bump, tail := w.nodes.tail))
  {
    assert w.pcbs[2] == Pcb(Sleeping, 1, 10);
    assert Timed(w) == w;
    assert FirstReady(w.ready) == 1 by { assert w.ready[1..][0] == [4]; }
    assert w.ready[1][1..] == [] && w.nodes.ns[1] == [64] && [64][1..] == [];
    assert w.ready[1 := []] == [[], [], [], []] && w.nodes.ns[1 := []] == [[], [], [], [], [80, 96, 112]];
  }

  lemma LossStep(w0: Sched)
    requires Settled(w0) && w0 == LossStart().(nodes := w0.nodes) && w0.nodes.ns == LossStart().nodes.ns
    requires NextNode(w0.nodes) == 112 && |w0.nodes.free| <= 1
    ensures Happens(w0, Sleep(15, 0)) ==
      LossNext().(nodes := LossNext().nodes.(bump := Taken(w0.nodes).bump, tail := w0.nodes.tail))
  {
    var w := WithState(w0, Sleeping, 15);
    LossSleeper(w0);
    WithStateGood(w0, Sleeping, 15);
    hide AddSleeper, Good, Settled, Woken, Picked, Timed;
    var w1 := LossNext().(current := 0, ready := [[], [4], [], []],
      nodes := Taken(w0.nodes).(ns := [[], [64], [], [], [80, 96, 112]]));
    assert PutAway(w, 0) == w1;
    LossPick(w1);
  }

  lemma SecondSleep(w: Sched)
    requires Settled(w) && Matched(w) && w == LossNext().(nodes := w.nodes) && w.nodes.ns == LossNext().nodes.ns
    ensures LosesBy(w, Sleep(100, 0)) <==> w.nodes.tail != 112
    ensures RunLoses(w, [Sleep(100, 0)]) <==> w.nodes.tail != 112
  {
    LossPlaces();
    assert Deltas(w.pcbs, w.asleep) == [10, 5, 5];
    hide Settled, Happens, Place, Matched;
    assert [Sleep(100, 0)][1..] == [];
  }

  // As written, two sleeps lose a process: the second appends behind the tail the first has left behind.
  lemma LossExample()
    ensures RunLoses(LossStart(), [Sleep(15, 0), Sleep(100, 0)])
  {
    LossSettled();
    LossStep(LossStart());
    SecondSleep(LossNext());
    hide Settled, Happens, LosesBy, Matched;
    assert [Sleep(15, 0), Sleep(100, 0)][1..] == [Sleep(100, 0)];
  }

  // The same two sleeps lose nothing when the tail's own block, free by then, is the one the first sleeper gets.
  lemma ReuseExample()
    ensures !TailLast(ReuseStart().nodes) && !RunLoses(ReuseStart(), [Sleep(15, 0), Sleep(100, 0)])
  {
    LossSettled();
    LossStep(ReuseStart());
    SecondSleep(ReuseNext());
    LosesFirst();
    hide Settled, Happens, LosesBy, Matched;
    assert [Sleep(15, 0), Sleep(100, 0)][1..] == [Sleep(100, 0)];
  }

  lemma LosesFirst()
    requires Settled(ReuseStart())
    ensures !LosesBy(ReuseStart(), Sleep(15, 0))
  {
    LossPlaces();
    var w := ReuseStart();
    assert Deltas(w.pcbs, w.asleep) == [10, 10];
    hide Settled, Place;
  }
}
