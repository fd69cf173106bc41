// scheduler.c: the sleep queue. Sleepers stand in the order they wake; each holds the time between the sleeper
// before it and itself, so the time a sleeper has left is the sum of the deltas up to its own.
module Sleepers {

  function Sum(ds: seq<nat>): nat {
    if ds == [] then 0 else ds[0] + Sum(ds[1..])
  }

  // The time left for sleeper i
  function TimeLeft(ds: seq<nat>, i: nat): nat
    requires i < |ds|
  {
    Sum(ds[..i + 1])
  }

  // The scan of queue_enqueue_prio with sleep_insert: where it stops, and what is left of t by then
  function Place(ds: seq<nat>, t: nat): (k: nat)
    ensures k <= |ds|
  {
    if ds == [] || t <= ds[0] then 0 else 1 + Place(ds[1..], t - ds[0])
  }

  function Rest(ds: seq<nat>, t: nat): nat {
    if ds == [] || t <= ds[0] then t else Rest(ds[1..], t - ds[0])
  }

  // The deltas after the scan: the comparator has taken the rest off the sleeper it stopped at.
  function Scanned(ds: seq<nat>, t: nat): (r: seq<nat>)
    ensures |r| == |ds|
  {
    var k := Place(ds, t);
    PlaceIs(ds, t);
    if k < |ds| then ds[k := ds[k] - Rest(ds, t)] else ds
  }

  function Inserted<T>(s: seq<T>, pos: nat, x: T): (r: seq<T>)
    requires pos <= |s|
    ensures |r| == |s| + 1 && r[pos] == x
  {
    s[..pos] + [x] + s[pos..]
  }

  lemma InsertedAt<T>(s: seq<T>, pos: nat, x: T)
    requires pos <= |s|
    ensures var r := Inserted(s, pos, x);
      forall i {:trigger r[i]} :: 0 <= i <= |s| ==> r[i] == if i < pos then s[i] else if i == pos then x else s[i - 1]
  {
  }

  // Where the node is linked in: as written, a node that belongs between two others goes one place too far. The
  // repaired code links it in before the sleeper the scan stopped at.
  function Position(repaired: bool, n: nat, k: nat): (pos: nat)
    requires k <= n
    ensures pos <= n
  {
    if repaired || k == 0 || k == n then k else k + 1
  }

  // The node is linked in as the last one, but tail is left alone.
  predicate Lags(repaired: bool, n: nat, k: nat)
    requires k <= n
  {
    k < n && Position(repaired, n, k) == n
  }

  // The node is appended behind tail, and that is not the last node of the queue s.
  predicate Loses(s: seq<nat>, k: nat, tail: nat) {
    s != [] && k == |s| && tail != s[|s| - 1]
  }

  // The new sleeper has time t left, every other sleeper what it had.
  ghost predicate TimesKept(ds: seq<nat>, t: nat, ds': seq<nat>, pos: nat) {
    && |ds'| == |ds| + 1 && pos <= |ds| && TimeLeft(ds', pos) == t
    && forall i :: 0 <= i < |ds| ==> TimeLeft(ds', if i < pos then i else i + 1) == TimeLeft(ds, i)
  }

  // ---------------------------------------------------------------------------------------------

  lemma {:induction false} SumSplit(a: seq<nat>, b: seq<nat>)
    ensures Sum(a + b) == Sum(a) + Sum(b)
  {
    if a == [] {
      assert a + b == b;
    } else {
      assert (a + b)[1..] == a[1..] + b;
      SumSplit(a[1..], b);
    }
  }

  lemma SumStep(ds: seq<nat>, i: nat)
    requires i < |ds|
    ensures Sum(ds[..i + 1]) == Sum(ds[..i]) + ds[i]
  {
    assert ds[..i + 1] == ds[..i] + [ds[i]];
    SumSplit(ds[..i], [ds[i]]);
  }

  lemma {:induction false} SumGrows(ds: seq<nat>, i: nat, j: nat)
    requires i <= j <= |ds|
    ensures Sum(ds[..i]) <= Sum(ds[..j])
  {
    if i < j {
      SumGrows(ds, i, j - 1);
      SumStep(ds, j - 1);
    }
  }

  // The scan stops at the first sleeper that has at least as much time left, and has then used up the time of
  // all before it.
  lemma {:induction false} PlaceIs(ds: seq<nat>, t: nat)
    ensures var k := Place(ds, t);
      && k <= |ds| && Sum(ds[..k]) + Rest(ds, t) == t && (k > 0 ==> Rest(ds, t) > 0)
      && (k < |ds| ==> Rest(ds, t) <= ds[k])
  {
    if ds != [] && t > ds[0] {
      var k := Place(ds[1..], t - ds[0]);
      PlaceIs(ds[1..], t - ds[0]);
      assert ds[..k + 1] == [ds[0]] + ds[1..][..k];
      SumSplit([ds[0]], ds[1..][..k]);
    } else {
      assert ds[..0] == [];
    }
  }

  lemma PlaceEnds(ds: seq<nat>, t: nat)
    ensures Place(ds, t) == 0 <==> ds == [] || t <= ds[0]
    ensures ds != [] ==> (Place(ds, t) == |ds| <==> t > Sum(ds))
    ensures Lags(false, |ds|, Place(ds, t)) <==> |ds| >= 2 && Sum(ds[..|ds| - 1]) < t <= Sum(ds)
    ensures !Lags(true, |ds|, Place(ds, t))
  {
    var k := Place(ds, t);
    PlaceIs(ds, t);
    assert ds[..|ds|] == ds;
    if k < |ds| {
      SumStep(ds, k);
      SumGrows(ds, k + 1, |ds|);
      if k + 1 < |ds| { SumGrows(ds, k + 1, |ds| - 1); }
    }
  }

  // Prefix sums of a list with one element put in
  lemma InsertedSums(ds: seq<nat>, pos: nat, x: nat, i: nat)
    requires pos <= |ds| && i <= |ds| + 1
    ensures Sum(Inserted(ds, pos, x)[..i]) == if i <= pos then Sum(ds[..i]) else Sum(ds[..i - 1]) + x
  {
    var r := Inserted(ds, pos, x);
    if i <= pos {
      assert r[..i] == ds[..i];
    } else {
      assert r[..i] == ds[..pos] + ([x] + ds[pos..i - 1]);
      assert ds[..i - 1] == ds[..pos] + ds[pos..i - 1];
      SumSplit(ds[..pos], [x] + ds[pos..i - 1]);
      SumSplit([x], ds[pos..i - 1]);
      SumSplit(ds[..pos], ds[pos..i - 1]);
    }
  }

  lemma {:induction false} UpdatedSums(ds: seq<nat>, k: nat, d: nat, i: nat)
    requires k < |ds| && i <= |ds| && d <= ds[k]
    ensures Sum(ds[k := ds[k] - d][..i]) == Sum(ds[..i]) - (if k < i then d else 0)
  {
    var ds' := ds[k := ds[k] - d];
    if i > 0 {
      UpdatedSums(ds, k, d, i - 1);
      SumStep(ds, i - 1);
      SumStep(ds', i - 1);
    } else {
      assert ds'[..0] == [] && ds[..0] == [];
    }
  }

  lemma ScannedSums(ds: seq<nat>, t: nat, i: nat)
    requires i <= |ds|
    ensures Place(ds, t) < i ==> Rest(ds, t) <= Sum(ds[..i])
    ensures Sum(Scanned(ds, t)[..i]) == Sum(ds[..i]) - (if Place(ds, t) < i then Rest(ds, t) else 0)
  {
    var k := Place(ds, t);
    PlaceIs(ds, t);
    if k < |ds| {
      UpdatedSums(ds, k, Rest(ds, t), i);
      if k < i {
        SumStep(ds, k);
        SumGrows(ds, k + 1, i);
      }
    }
  }

  // Linked in before the sleeper the scan stopped at, the new one gets its time, all others keep theirs, and the
  // last one to wake does so at the old end or at t, whichever is later.
  lemma InsertBefore(ds: seq<nat>, t: nat)
    ensures var k := Place(ds, t); var ds' := Inserted(Scanned(ds, t), k, Rest(ds, t));
      TimesKept(ds, t, ds', k) && Sum(ds') == if Sum(ds) >= t then Sum(ds) else t
  {
    hide Sum, Place, Rest, Scanned, Inserted;
    var k := Place(ds, t);
    var ds' := Inserted(Scanned(ds, t), k, Rest(ds, t));
    NewTime(ds, t);
    forall i | 0 <= i < |ds| ensures TimeLeft(ds', if i < k then i else i + 1) == TimeLeft(ds, i) {
      OldTime(ds, t, i);
    }
    LastTime(ds, t);
  }

  lemma NewTime(ds: seq<nat>, t: nat)
    ensures var k := Place(ds, t); TimeLeft(Inserted(Scanned(ds, t), k, Rest(ds, t)), k) == t
  {
    hide Sum, Place, Rest, Scanned, Inserted;
    var k := Place(ds, t);
    PlaceIs(ds, t);
    InsertedSums(Scanned(ds, t), k, Rest(ds, t), k + 1);
    ScannedSums(ds, t, k);
  }

  lemma OldTime(ds: seq<nat>, t: nat, i: nat)
    requires i < |ds|
    ensures var k := Place(ds, t);
      TimeLeft(Inserted(Scanned(ds, t), k, Rest(ds, t)), if i < k then i else i + 1) == TimeLeft(ds, i)
  {
    hide Sum, Place, Rest, Scanned, Inserted;
    var k := Place(ds, t);
    var j := if i < k then i else i + 1;
    InsertedSums(Scanned(ds, t), k, Rest(ds, t), j + 1);
    ScannedSums(ds, t, i + 1);
  }

  lemma LastTime(ds: seq<nat>, t: nat)
    ensures Sum(Inserted(Scanned(ds, t), Place(ds, t), Rest(ds, t))) == if Sum(ds) >= t then Sum(ds) else t
  {
    PlaceEnds(ds, t);
    PlaceIs(ds, t);
    EmptySum();
    hide Sum, Place, Rest, Scanned, Inserted;
    var k := Place(ds, t);
    var ds' := Inserted(Scanned(ds, t), k, Rest(ds, t));
    InsertedSums(Scanned(ds, t), k, Rest(ds, t), |ds'|);
    ScannedSums(ds, t, |ds|);
    assert ds'[..|ds'|] == ds' && ds[..|ds|] == ds;
    SumGrows(ds, k, |ds|);
  }

  lemma EmptySum()
    ensures Sum([]) == 0
  {
  }

  // As written, times are right exactly when the new sleeper is the first or the last to wake.
  lemma AsWritten(ds: seq<nat>, t: nat)
    ensures var k := Place(ds, t); var pos := Position(false, |ds|, k);
      TimesKept(ds, t, Inserted(Scanned(ds, t), pos, Rest(ds, t)), pos) <==> ds == [] || t <= ds[0] || t > Sum(ds)
  {
    var k := Place(ds, t);
    var pos := Position(false, |ds|, k);
    var mid := Scanned(ds, t);
    PlaceIs(ds, t);
    PlaceEnds(ds, t);
    EmptySum();
    if k == 0 || k == |ds| {
      InsertBefore(ds, t);
    } else {
      hide Sum, Place, Rest, Scanned, Inserted;
      // the sleeper it stopped at now wakes too early
      InsertedSums(mid, pos, Rest(ds, t), k + 1);
      ScannedSums(ds, t, k + 1);
      assert TimeLeft(Inserted(mid, pos, Rest(ds, t)), k) == TimeLeft(ds, k) - Rest(ds, t);
    }
  }

  // Sleepers with 10 and 20 to go, a third with 15: it gets 20, and the second wakes at 15.
  lemma AsWrittenExample()
    ensures var ds := [10, 10]; var ds' := Inserted(Scanned(ds, 15), Position(false, 2, Place(ds, 15)), Rest(ds, 15));
      ds' == [10, 5, 5] && TimeLeft(ds', 1) == 15 && TimeLeft(ds', 2) == 20 && Lags(false, 2, Place(ds, 15))
  {
    assert Place([10], 5) == 0;
    assert [10, 10][1..] == [10];
    assert Place([10, 10], 15) == 1 && Rest([10, 10], 15) == 5;
    var ds' := [10, 5, 5];
    SumStep(ds', 0); SumStep(ds', 1); SumStep(ds', 2);
    assert ds'[..0] == [];
  }

  // ---------------------------------------------------------------------------------------------
  // get_next_sleep: time passes

  // The head wakes when its time is up; what the span exceeds it by is dropped, and nobody else wakes.
  function Aged(ds: seq<nat>, span: nat): seq<nat> {
    if ds == [] then []
    else if ds[0] <= span then ds[1..]
    else [ds[0] - span] + ds[1..]
  }

  // The time taken off every sleeper that stays: the span, but no more than the head had to go
  function Passed(ds: seq<nat>, span: nat): nat {
    if ds != [] && ds[0] <= span then ds[0] else span
  }

  lemma AgedTimes(ds: seq<nat>, span: nat, i: nat)
    requires i < |ds| && (ds[0] <= span ==> i > 0)
    ensures var ds' := Aged(ds, span); var j := if ds[0] <= span then i - 1 else i;
      j < |ds'| && TimeLeft(ds', j) + Passed(ds, span) == TimeLeft(ds, i)
  {
    var ds' := Aged(ds, span);
    assert ds[..i + 1] == [ds[0]] + ds[1..i + 1];
    SumSplit([ds[0]], ds[1..i + 1]);
    if ds[0] <= span {
      assert ds'[..i] == ds[1..i + 1];
    } else {
      assert ds'[..i + 1] == [ds[0] - span] + ds[1..i + 1];
      SumSplit([ds[0] - span], ds[1..i + 1]);
    }
  }

  // Every sleeper that stays is aged by the whole span exactly when the head had at least that long to go, or
  // slept alone.
  lemma AgedExactly(ds: seq<nat>, span: nat)
    requires ds != []
    ensures var ds' := Aged(ds, span); var gone := if ds[0] <= span then 1 else 0;
      (forall i: nat :: gone <= i < |ds| ==> TimeLeft(ds', i - gone) + span == TimeLeft(ds, i)) <==>
        span <= ds[0] || |ds| == 1
  {
    var ds' := Aged(ds, span);
    var gone := if ds[0] <= span then 1 else 0;
    hide Sum, TimeLeft;
    forall i: nat | gone <= i < |ds| ensures TimeLeft(ds', i - gone) + Passed(ds, span) == TimeLeft(ds, i) {
      AgedTimes(ds, span, i);
    }
    if span > ds[0] && |ds| > 1 {
      assert TimeLeft(ds', 1 - gone) + ds[0] == TimeLeft(ds, 1);
    }
  }

  // Sleeper i of the queue ds is still asleep after the span has passed, with time t left.
  predicate StillHas(ds: seq<nat>, i: nat, span: nat, t: nat)
    requires i < |ds|
  {
    && (ds[0] <= span ==> i > 0)
    && var j := if ds[0] <= span then i - 1 else i;
    j < |Aged(ds, span)| && TimeLeft(Aged(ds, span), j) == t
  }

  lemma StillHasIs(ds: seq<nat>, i: nat, span: nat, t: nat)
    requires i < |ds|
    ensures StillHas(ds, i, span, t) <==> (ds[0] <= span ==> i > 0) && TimeLeft(ds, i) == t + Passed(ds, span)
  {
    hide Sum, TimeLeft;
    if ds[0] <= span ==> i > 0 {
      AgedTimes(ds, span, i);
    }
  }

  // The place of the new sleeper, the first delta, and the time the new sleeper is then given
  lemma NewDelta(repaired: bool, ds: seq<nat>, t: nat)
    ensures var k := Place(ds, t); var pos := Position(repaired, |ds|, k);
      var ds' := Inserted(Scanned(ds, t), pos, Rest(ds, t));
      && (pos == 0 <==> k == 0) && ds'[0] == (if k == 0 then t else ds[0])
      && (k == |ds| || k + 1 <= |ds|)
      && TimeLeft(ds', pos) == if repaired || k == 0 || k == |ds| then t else Sum(ds[..k + 1])
  {
    var k := Place(ds, t);
    var pos := Position(repaired, |ds|, k);
    PlaceIs(ds, t);
    assert k == 0 ==> Rest(ds, t) == t;
    assert k > 0 ==> Scanned(ds, t)[0] == ds[0];
    InsertedAt(Scanned(ds, t), pos, Rest(ds, t));
    hide Sum, Place, Rest, Scanned, Inserted;
    if repaired || k == 0 || k == |ds| {
      NewTime(ds, t);
    } else {
      InsertedSums(Scanned(ds, t), pos, Rest(ds, t), pos + 1);
      ScannedSums(ds, t, k + 1);
    }
  }

  // dispatch queues a process that goes to sleep before it ages the queue by the time that passed until then: the
  // new sleeper is charged for it like all others. Where the insertion gives it the time it asked for, all of that is
  // still ahead of it exactly when no time had passed, or none could, because the head had no time left. Where it is
  // linked in behind the sleeper it should wake before, exactly when what is taken off makes up for what is too much.
  lemma Charged(repaired: bool, ds: seq<nat>, t: nat, span: nat)
    requires t > 0   // sleep_pcb's guard
    ensures var k := Place(ds, t); var pos := Position(repaired, |ds|, k);
      StillHas(Inserted(Scanned(ds, t), pos, Rest(ds, t)), pos, span, t) <==>
        if repaired || k == 0 || k == |ds| then span == 0 || (pos > 0 && ds[0] == 0)
        else Sum(ds[..k + 1]) - t == if ds[0] <= span then ds[0] else span
  {
    var k := Place(ds, t);
    var pos := Position(repaired, |ds|, k);
    NewDelta(repaired, ds, t);
    hide Sum, Place, Rest, Scanned, Inserted, TimeLeft, StillHas;
    StillHasIs(Inserted(Scanned(ds, t), pos, Rest(ds, t)), pos, span, t);
  }

  // Alone in the queue, a process that sleeps for 5 after running for 8 does not sleep.
  lemma ChargedExample()
    ensures Aged(Inserted(Scanned([], 5), Position(false, 0, Place([], 5)), Rest([], 5)), 8) == []
  {
  }
}
