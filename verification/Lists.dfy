// Sequences without repetition.
module Lists {

  ghost predicate Distinct(s: seq<nat>) {
    forall i, j :: 0 <= i < j < |s| ==> s[i] != s[j]
  }

  lemma {:induction false} DistinctSize(s: seq<nat>, elems: set<nat>)
    requires Distinct(s) && forall x :: x in s <==> x in elems
    ensures |s| == |elems|
  {
    if s == [] {
      assert elems == {};
    } else {
      assert forall x :: x in s[1..] <==> x in elems - {s[0]};
      DistinctSize(s[1..], elems - {s[0]});
    }
  }

  ghost function IndexOf(list: seq<nat>, p: nat): (k: nat)
    requires p in list
    ensures k < |list| && list[k] == p
  {
    var k: nat :| k < |list| && list[k] == p; k
  }

  lemma AddRemove<T>(s: set<T>, x: T)
    requires x !in s
    ensures s + {x} - {x} == s
  {
  }

  lemma RemoveAdd<T>(s: set<T>, x: T)
    requires x in s
    ensures s - {x} + {x} == s && x !in s - {x}
  {
  }

  // A list through tail is cut there, and goes on with the new node: xs are the nodes s or their processes, x is the
  // new node or its process.
  ghost function Cut(s: seq<nat>, tail: nat, xs: seq<nat>, x: nat): seq<nat>
    requires |xs| == |s|
  {
    if tail in s then xs[..IndexOf(s, tail) + 1] + [x] else xs
  }

  ghost function AtMost(s: seq<nat>, n: nat): seq<nat> {
    if n < |s| then s[..n] else s
  }
}
