// pcb.h and sleep_insert of scheduler.c: process control blocks, by address.
module Processes {
  import opened Sleepers

  datatype State = Ready | Running | Sleeping | Killed

  // Priorities: HIGH 0, NORMAL 1, LOW 2, IDLE 3
  const IDLE: nat := 3
  const NUM_QUEUES: nat := 4

  datatype Pcb = Pcb(state: State, priority: nat, sleepTime: nat)

  type Pcbs = map<nat, Pcb>

  // The deltas of the processes in the sleep queue
  function Deltas(pcbs: Pcbs, ps: seq<nat>): (ds: seq<nat>)
    requires forall p :: p in ps ==> p in pcbs
    ensures |ds| == |ps|
    ensures forall i {:trigger ds[i]} :: 0 <= i < |ps| ==> ds[i] == pcbs[ps[i]].sleepTime
  {
    seq(|ps|, i requires 0 <= i < |ps| => pcbs[ps[i]].sleepTime)
  }

  function WithTime(pcbs: Pcbs, p: nat, t: nat): Pcbs
    requires p in pcbs
  {
    pcbs[p := pcbs[p].(sleepTime := t)]
  }

  // What the scan leaves in the process control blocks
  function ScannedPcbs(pcbs: Pcbs, ps: seq<nat>, p: nat): (r: Pcbs)
    requires p in pcbs && p !in ps && forall x :: x in ps ==> x in pcbs
    ensures r.Keys == pcbs.Keys
  {
    var ds, t := Deltas(pcbs, ps), pcbs[p].sleepTime;
    var k := Place(ds, t);
    PlaceIs(ds, t);
    var r := WithTime(pcbs, p, Rest(ds, t));
    if k < |ps| then WithTime(r, ps[k], ds[k] - Rest(ds, t)) else r
  }

  // Read back as deltas, that is the scan of the sleep queue.
  lemma ScannedDeltas(pcbs: Pcbs, ps: seq<nat>, p: nat, pos: nat)
    requires p in pcbs && p !in ps && (forall x :: x in ps ==> x in pcbs) && pos <= |ps|
    requires forall i, j :: 0 <= i < j < |ps| ==> ps[i] != ps[j]
    ensures var ds, t := Deltas(pcbs, ps), pcbs[p].sleepTime; var r := ScannedPcbs(pcbs, ps, p);
      && (forall x :: x in Inserted(ps, pos, p) ==> x in r)
      && Deltas(r, Inserted(ps, pos, p)) == Inserted(Scanned(ds, t), pos, Rest(ds, t))
      && (forall x :: x in pcbs && x !in ps && x != p ==> r[x] == pcbs[x])
      && (forall x :: x in pcbs ==> r[x].state == pcbs[x].state && r[x].priority == pcbs[x].priority)
  {
    var ds, t := Deltas(pcbs, ps), pcbs[p].sleepTime;
    var r := ScannedPcbs(pcbs, ps, p);
    var qs := Inserted(ps, pos, p);
    InsertedAt(ps, pos, p);
    InsertedAt(Scanned(ds, t), pos, Rest(ds, t));
    PlaceIs(ds, t);
    hide Inserted, Place, Rest, Sum;
    forall x | x in qs ensures x in r {
      var i :| 0 <= i < |qs| && qs[i] == x;
    }
    forall i | 0 <= i < |qs| ensures Deltas(r, qs)[i] == Inserted(Scanned(ds, t), pos, Rest(ds, t))[i] {
      assert Deltas(r, qs)[i] == r[qs[i]].sleepTime;
      if i < pos { assert qs[i] == ps[i]; } else if i > pos { assert qs[i] == ps[i - 1]; }
    }
  }

  class ProcessTable {
    var pcbs: Pcbs

    constructor ()
      ensures pcbs == map[]
    {
      pcbs := map[];
    }

    // All fields of a process control block are written.
    method Write(p: nat, pcb: Pcb)
      modifies this
      ensures pcbs == old(pcbs)[p := pcb]
    {
      pcbs := pcbs[p := pcb];
    }

    // sleep_insert, with pcb1 the process to insert
    method SleepInsert(pcb1: nat, pcb2: nat) returns (cmp: int)
      requires pcb1 in pcbs && pcb2 in pcbs && pcb1 != pcb2
      modifies this
      ensures var t1, t2 := old(pcbs)[pcb1].sleepTime, old(pcbs)[pcb2].sleepTime;
        if t1 <= t2 then cmp == -1 && pcbs == WithTime(old(pcbs), pcb2, t2 - t1)
        else cmp == 1 && pcbs == WithTime(old(pcbs), pcb1, t1 - t2)
    {
      if pcbs[pcb1].sleepTime <= pcbs[pcb2].sleepTime {
        pcbs := WithTime(pcbs, pcb2, pcbs[pcb2].sleepTime - pcbs[pcb1].sleepTime);
        cmp := -1;
      } else {
        pcbs := WithTime(pcbs, pcb1, pcbs[pcb1].sleepTime - pcbs[pcb2].sleepTime);
        cmp := 1;
      }
    }
  }
}
