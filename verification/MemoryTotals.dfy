// physical.c: what the totals of get_total_usable_ram count.
module MemoryTotals {
  import opened MemoryMap

  // Byte x belongs to usable region r.
  predicate InRegion(r: Region, x: nat) {
    r.usable && r.base <= x < End(r)
  }

  // The bytes of usable regions
  ghost predicate Usable(map_: seq<Region>, x: nat) {
    exists i :: 0 <= i < |map_| && InRegion(map_[i], x)
  }

  ghost function UsableBytes(map_: seq<Region>): set<nat> {
    set x | 0 <= x < Highest(map_) && Usable(map_, x)
  }

  function RegionBytes(r: Region): (bytes: set<nat>)
    ensures forall x :: x in bytes <==> InRegion(r, x)
  {
    set x | 0 <= x < End(r) && InRegion(r, x)
  }

  lemma {:induction false} RegionSize(r: Region)
    ensures |RegionBytes(r)| == if r.usable then r.length else 0
    decreases r.length
  {
    if r.usable && r.length > 0 {
      var r' := r.(length := r.length - 1);
      RegionSize(r');
      assert RegionBytes(r) == RegionBytes(r') + {r.base + r.length - 1};
    } else {
      assert RegionBytes(r) == {};
    }
  }

  lemma UsableStep(map_: seq<Region>, x: nat)
    requires map_ != []
    ensures Usable(map_, x) <==> Usable(map_[..|map_| - 1], x) || x in RegionBytes(map_[|map_| - 1])
  {
    var rest, r := map_[..|map_| - 1], map_[|map_| - 1];
    if Usable(rest, x) {
      var i :| 0 <= i < |rest| && InRegion(rest[i], x);
      assert InRegion(map_[i], x);
    }
    if Usable(map_, x) {
      var i :| 0 <= i < |map_| && InRegion(map_[i], x);
      if i < |rest| { assert InRegion(rest[i], x); }
    }
  }

  // total_usable_ram is the number of usable bytes.
  lemma {:induction false} UsableRamCounts(map_: seq<Region>)
    requires Disjoint(map_)
    ensures UsableRam(map_) == |UsableBytes(map_)|
  {
    if map_ != [] {
      var rest, r := map_[..|map_| - 1], map_[|map_| - 1];
      DisjointRest(map_);
      UsableRamCounts(rest);
      RegionSize(r);
      BytesStep(map_);
      hide Usable, UsableBytes, RegionBytes, Disjoint;
      assert |UsableBytes(map_)| == |UsableBytes(rest)| + |RegionBytes(r)|;
    } else {
      assert UsableBytes(map_) == {};
    }
  }

  lemma DisjointRest(map_: seq<Region>)
    requires Disjoint(map_) && map_ != []
    ensures Disjoint(map_[..|map_| - 1])
    ensures UsableBytes(map_[..|map_| - 1]) !! RegionBytes(map_[|map_| - 1])
  {
    var rest, r := map_[..|map_| - 1], map_[|map_| - 1];
    forall x | x in UsableBytes(rest) ensures x !in RegionBytes(r) {
      var i :| 0 <= i < |rest| && InRegion(rest[i], x);
      assert map_[i] == rest[i];
    }
  }

  lemma BytesStep(map_: seq<Region>)
    requires map_ != []
    ensures UsableBytes(map_) == UsableBytes(map_[..|map_| - 1]) + RegionBytes(map_[|map_| - 1])
  {
    var rest, r := map_[..|map_| - 1], map_[|map_| - 1];
    forall x: nat ensures x in UsableBytes(map_) <==> x in UsableBytes(rest) || x in RegionBytes(r) {
      UsableStep(map_, x);
      InHighest(map_, x);
      InHighest(rest, x);
    }
  }

  lemma InHighest(map_: seq<Region>, x: nat)
    ensures Usable(map_, x) ==> x < Highest(map_)
  {
    HighestReached(map_);
  }
}
