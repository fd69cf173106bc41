// scheduler.c: how long a process runs, and when the timer fires and a sleeper wakes.
module SchedulerTimes {
  import opened Lists
  import opened Processes
  import opened Sleepers
  import opened SchedulerModel

  // ---------------------------------------------------------------------------------------------
  // The quantum

  // An event after which the current process is still READY
  predicate Quiet(e: Event) {
    !e.Exit? && (e.Sleep? ==> e.time == 0)
  }

  function Span(e: Event): nat {
    if e.SetPriority? then 0 else e.span
  }

  function Spans(es: seq<Event>): nat {
    if es == [] then 0 else Span(es[0]) + Spans(es[1..])
  }

  ghost predicate AllQuiet(es: seq<Event>) {
    forall i :: 0 <= i < |es| ==> Quiet(es[i])
  }

  // Dispatch charges the span, and a READY process goes on with what is left of its quantum; whoever else runs next
  // starts a new one.
  lemma DispatchedQuantum(w: Sched, span: nat)
    requires Good(w) && w.current != 0
    ensures var w' := Dispatched(w, span);
      if w.pcbs[w.current].state == Ready && span < w.quantum then
        w'.current == w.current && w'.quantum == w.quantum - span
      else w'.quantum == QUANTUM
  {
    PutAwayGood(w, span);
    PutAwayQuantum(w, span);
    hide Good, PutAway, Woken;
    WokenGood(PutAway(w, span), span);
  }

  lemma PutAwayQuantum(w: Sched, span: nat)
    requires Good(w) && w.current != 0
    ensures var w' := PutAway(w, span);
      && w.current in w.pcbs
      && if w.pcbs[w.current].state == Ready && span < w.quantum then
           w'.current == w.current && w'.quantum == w.quantum - span
         else w'.quantum == QUANTUM
  {
    hide ReadyQueue, SleepQueue, Placed, Queued;
  }

  // A process whose time is up goes behind all others of its priority.
  lemma QuantumEnds(w: Sched, span: nat)
    requires Settled(w) && span >= w.quantum
    ensures var w' := PutAway(w, span); var k := w.pcbs[w.current].priority;
      w'.current == 0 && k < |w.ready| && w'.ready == w.ready[k := w.ready[k] + [w.current]] && w'.asleep == w.asleep
  {
  }

  lemma QuietStep(w: Sched, e: Event)
    requires Settled(w) && Allowed(w, e) && Quiet(e) && Span(e) < w.quantum
    ensures var w' := Happens(w, e); Settled(w') && w'.current == w.current && w'.quantum == w.quantum - Span(e)
  {
    HappensGood(w, e);
    hide Dispatched, Good;
    match e
    case Timer(span) => DispatchedQuantum(w, span);
    case Sleep(time, span) => DispatchedQuantum(w, span);
    case Fork(child, span) => WithChildGood(w, child); DispatchedQuantum(WithChild(w, child), span);
    case SetPriority(priority) =>
  }

  // Whatever happens, short of its going to sleep or ending, a process runs on for as long as its quantum lasts; by
  // QuantumEnds, no longer.
  lemma {:induction false} QuantumLasts(w: Sched, es: seq<Event>, w': Sched)
    requires Settled(w) && Run(w, es, w') && AllQuiet(es) && Spans(es) < w.quantum
    ensures Settled(w') && w'.current == w.current && w'.quantum == w.quantum - Spans(es)
    decreases |es|
  {
    if es != [] {
      assert Quiet(es[0]) && AllQuiet(es[1..]);
      QuietStep(w, es[0]);
      hide Settled, Happens, Quiet, AllQuiet;
      assert w.current != 0 by { SettledRuns(w); }
      QuantumLasts(Happens(w, es[0]), es[1..], w');
    }
  }

  lemma SettledRuns(w: Sched)
    requires Settled(w)
    ensures w.current != 0 && forall x :: x in w.asleep ==> x in w.pcbs
  {
  }

  // ---------------------------------------------------------------------------------------------
  // The timer

  // The timer is set to fire when the quantum ends, or before that when the first sleeper is due; but not for one that
  // is due already.
  lemma TimerSet(w: Sched, span: nat)
    requires Settled(w)
    ensures var w' := Dispatched(w, span);
      && 0 < w'.prevTicks <= w'.quantum && (forall x :: x in w'.asleep ==> x in w'.pcbs)
      && if w'.asleep == [] || w'.pcbs[w'.asleep[0]].sleepTime == 0 then w'.prevTicks == w'.quantum
         else
           && w'.prevTicks <= w'.pcbs[w'.asleep[0]].sleepTime
           && (w'.prevTicks == w'.quantum || w'.prevTicks == w'.pcbs[w'.asleep[0]].sleepTime)
  {
    DispatchedGood(w, span);
    var w1 := BeforePick(w, span);
    SleepersThere(w1);
    hide Good, BeforePick;
  }

  // ---------------------------------------------------------------------------------------------
  // Sleeping

  // The deltas once the current process has been put to sleep
  function Joined(w: Sched, time: nat): (ds': seq<nat>)
    requires forall x :: x in w.asleep ==> x in w.pcbs
  {
    var ds := Deltas(w.pcbs, w.asleep);
    Inserted(Scanned(ds, time), Position(w.repaired, |ds|, Place(ds, time)), Rest(ds, time))
  }

  lemma SleeperQueued(w: Sched, time: nat, span: nat)
    requires Settled(w) && time > 0
    ensures var w1 := Slept(w, time); var ds := Deltas(w.pcbs, w.asleep);
      && Good(w1) && w1.current != 0
      && var w0 := PutAway(w1, span);
      && Good(w0) && w0.asleep == Inserted(w.asleep, Position(w.repaired, |ds|, Place(ds, time)), w.current)
      && Deltas(w0.pcbs, w0.asleep) == Joined(w, time)
  {
    var w1 := Slept(w, time);
    WithStateGood(w, Sleeping, time);
    PutAwayGood(w1, span);
    assert Deltas(w1.pcbs, w1.asleep) == Deltas(w.pcbs, w.asleep);
    QueuedIsInserted(w1, w.current);
    hide Place, Rest, Scanned, Inserted, Deltas, ScannedPcbs, Position;
  }

  // What a sleep leaves in the sleep queue
  lemma SleepEvent(w: Sched, time: nat, span: nat)
    requires Settled(w) && time > 0
    ensures var w' := Happens(w, Sleep(time, span));
      && (forall x :: x in w'.asleep ==> x in w'.pcbs)
      && Deltas(w'.pcbs, w'.asleep) == Aged(Joined(w, time), span)
      && var ds := Deltas(w.pcbs, w.asleep);
      var s := Inserted(w.asleep, Position(w.repaired, |ds|, Place(ds, time)), w.current);
      w'.asleep == if Joined(w, time)[0] <= span then s[1..] else s
  {
    var w1 := Slept(w, time);
    SleeperQueued(w, time, span);
    var w0 := PutAway(w1, span);
    SleepersThere(w0);
    WokenIsAged(w0, span);
    WokenGood(w0, span);
    hide Good, PutAway, Place, Rest, Scanned, Inserted, Deltas, Position, Joined;
    WokenHead(w0, span);
    PickedSleepers(Woken(w0, span));
  }

  lemma WokenHead(w: Sched, span: nat)
    requires |w.ready| == NUM_QUEUES && forall x :: x in w.asleep ==> x in w.pcbs && w.pcbs[x].priority < NUM_QUEUES
    ensures Woken(w, span).asleep ==
      if w.asleep != [] && Deltas(w.pcbs, w.asleep)[0] <= span then w.asleep[1..] else w.asleep
  {
  }

  lemma PickedSleepers(w: Sched)
    requires forall x :: x in w.asleep ==> x in w.pcbs
    ensures Picked(Timed(w)).asleep == w.asleep && Picked(Timed(w)).pcbs == w.pcbs
  {
  }

  // Process p is asleep with time t left.
  ghost predicate HasLeft(w: Sched, p: nat, t: nat)
    requires forall x :: x in w.asleep ==> x in w.pcbs
  {
    exists i :: 0 <= i < |w.asleep| && w.asleep[i] == p && TimeLeft(Deltas(w.pcbs, w.asleep), i) == t
  }

  // When a new sleeper has the time it asked for still ahead of it after the queue has been aged
  predicate FullTime(repaired: bool, ds: seq<nat>, time: nat, span: nat) {
    var k := Place(ds, time);
    if repaired || k == 0 || k == |ds| then span == 0 || (k > 0 && ds[0] == 0)
    else Sum(ds[..k + 1]) - time == if ds[0] <= span then ds[0] else span
  }

  // Of every state of the scheduler, for a sleep that loses nobody: the process is asleep with all of its time left
  // exactly when FullTime says so.
  lemma SleepExact(w: Sched, time: nat, span: nat)
    requires Settled(w) && time > 0
    ensures var w' := Happens(w, Sleep(time, span));
      && (forall x :: x in w'.asleep ==> x in w'.pcbs)
      && (HasLeft(w', w.current, time) <==> FullTime(w.repaired, Deltas(w.pcbs, w.asleep), time, span))
  {
    var ds, p := Deltas(w.pcbs, w.asleep), w.current;
    var pos := Position(w.repaired, |ds|, Place(ds, time));
    var w' := Happens(w, Sleep(time, span));
    hide *;
    SleepEvent(w, time, span);
    OneNew(w, pos);
    JoinedCharged(w, time, span);
    SleeperAt(w', Inserted(w.asleep, pos, p), Joined(w, time), pos, span, p, time);
  }

  lemma JoinedCharged(w: Sched, time: nat, span: nat)
    requires time > 0 && forall x :: x in w.asleep ==> x in w.pcbs
    ensures var ds := Deltas(w.pcbs, w.asleep);
      StillHas(Joined(w, time), Position(w.repaired, |ds|, Place(ds, time)), span, time) <==>
        FullTime(w.repaired, ds, time, span)
  {
    Charged(w.repaired, Deltas(w.pcbs, w.asleep), time, span);
    hide Place, Scanned, Rest, Inserted, Sum, StillHas;
  }

  // The new sleeper stands in one place.
  lemma OneNew(w: Sched, pos: nat)
    requires Settled(w) && pos <= |w.asleep|
    ensures var s := Inserted(w.asleep, pos, w.current);
      s[pos] == w.current && forall i :: 0 <= i < |s| && i != pos ==> s[i] != w.current
  {
    InsertedAt(w.asleep, pos, w.current);
    hide Inserted, Distinct, ReadyQueue;
  }

  lemma SleeperAt(w: Sched, s: seq<nat>, ds: seq<nat>, pos: nat, span: nat, p: nat, t: nat)
    requires (forall x :: x in w.asleep ==> x in w.pcbs) && |s| == |ds| && pos < |s|
    requires Deltas(w.pcbs, w.asleep) == Aged(ds, span) && w.asleep == if ds[0] <= span then s[1..] else s
    requires s[pos] == p && forall i :: 0 <= i < |s| && i != pos ==> s[i] != p
    ensures HasLeft(w, p, t) <==> StillHas(ds, pos, span, t)
  {
    hide Deltas, Sum, TimeLeft;
    var j := if ds[0] <= span then pos - 1 else pos;
    if j >= 0 { assert w.asleep[j] == p; }
  }

  // ---------------------------------------------------------------------------------------------
  // Forking

  // A child is READY, has the priority of its parent, and stands behind all others of it; the parent runs on.
  lemma ChildQueued(w: Sched, child: nat)
    requires Settled(w) && child != 0 && child !in w.pcbs
    ensures var w' := WithChild(w, child); var k := w.pcbs[w.current].priority;
      && w'.pcbs == w.pcbs[child := Pcb(Ready, k, w.pcbs[w.current].sleepTime)] && w'.current == w.current
      && k < |w.ready| && w'.ready == w.ready[k := w.ready[k] + [child]] && w'.asleep == w.asleep
  {
  }
}
