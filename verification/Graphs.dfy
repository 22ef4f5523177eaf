/** Walks and cycles of a finite directed graph, and the two certificates a depth-first search
    leaves behind: a finishing order when there is no cycle, a backward walk when there is one. */
module Graphs {

  type Graph = set<(nat, nat)>

  ghost predicate IsWalk(g: Graph, w: seq<nat>) {
    forall i {:trigger w[i]} :: 0 <= i < |w| - 1 ==> (w[i], w[i + 1]) in g
  }

  ghost predicate IsClosedWalk(g: Graph, w: seq<nat>) {
    |w| >= 2 && w[0] == w[|w| - 1] && IsWalk(g, w)
  }

  ghost predicate HasCycle(g: Graph) {
    exists w: seq<nat> :: IsClosedWalk(g, w)
  }

  // ---------- no cycle ----------

  /** Every successor of an entry stands before it. */
  ghost predicate FinishOrder(g: Graph, order: seq<nat>) {
    forall i, v: nat :: 0 <= i < |order| && (order[i], v) in g ==> v in order[..i]
  }

  /** A walk that starts at entry i of a finishing order goes only through earlier entries. */
  lemma {:induction false} WalkDescends(g: Graph, order: seq<nat>, w: seq<nat>, i: nat, j: nat)
    requires FinishOrder(g, order) && IsWalk(g, w)
    requires i < |order| && 1 <= j < |w| && w[0] == order[i]
    ensures w[j] in order[..i]
  {
    assert (w[j - 1], w[j]) in g;
    if j > 1 {
      WalkDescends(g, order, w, i, j - 1);
      var x :| 0 <= x < i && order[x] == w[j - 1];
      assert w[j] in order[..x];
    }
  }

  lemma {:induction false} FirstOccurrence(s: seq<nat>, x: nat) returns (i: nat)
    requires x in s
    ensures i < |s| && s[i] == x && x !in s[..i]
  {
    if s[0] == x {
      i := 0;
    } else {
      i := FirstOccurrence(s[1..], x);
      i := i + 1;
      assert s[..i] == [s[0]] + s[1..][..i - 1];
    }
  }

  /** A finishing order that covers every source of an edge excludes cycles. */
  lemma FinishOrderExcludesCycles(g: Graph, order: seq<nat>)
    requires FinishOrder(g, order)
    requires forall u: nat, v: nat :: (u, v) in g ==> u in order
    ensures !HasCycle(g)
  {
    forall w: seq<nat> | |w| >= 2 && IsWalk(g, w)
      ensures w[0] != w[|w| - 1]
    {
      assert (w[0], w[1]) in g;
      var i := FirstOccurrence(order, w[0]);
      WalkDescends(g, order, w, i, |w| - 1);
    }
  }

  /** A graph whose every edge lowers a rank has no cycle. */
  lemma RankedHasNoCycle(g: Graph, rank: nat -> nat)
    requires forall u: nat, v: nat :: (u, v) in g ==> rank(v) < rank(u)
    ensures !HasCycle(g)
  {
    forall w: seq<nat> | |w| >= 2 && IsWalk(g, w)
      ensures w[0] != w[|w| - 1]
    {
      RankFalls(g, rank, w, |w| - 1);
    }
  }

  lemma {:induction false} RankFalls(g: Graph, rank: nat -> nat, w: seq<nat>, j: nat)
    requires forall u: nat, v: nat :: (u, v) in g ==> rank(v) < rank(u)
    requires IsWalk(g, w) && 1 <= j < |w|
    ensures rank(w[j]) < rank(w[0])
  {
    assert (w[j - 1], w[j]) in g;
    if j > 1 {
      RankFalls(g, rank, w, j - 1);
    }
  }

  // ---------- a cycle ----------

  function Reverse(s: seq<nat>): (r: seq<nat>)
    ensures |r| == |s|
    ensures forall i :: 0 <= i < |s| ==> r[i] == s[|s| - 1 - i]
  {
    seq(|s|, i requires 0 <= i < |s| => s[|s| - 1 - i])
  }

  /** The record of a successful search: read backwards it is a walk, and its first entry, the
      node where the walk ends, occurs again. */
  ghost predicate IsWitness(g: Graph, c: seq<nat>) {
    |c| >= 2 && IsWalk(g, Reverse(c)) && c[0] in c[1..]
  }

  /** Reading a witness backwards from the second occurrence of its first entry closes a walk. */
  lemma WitnessCloses(g: Graph, c: seq<nat>) returns (j: nat)
    requires IsWitness(g, c)
    ensures 1 <= j < |c| && c[j] == c[0] && c[0] !in c[1..j]
    ensures IsClosedWalk(g, Reverse(c[..j + 1]))
    ensures HasCycle(g)
  {
    j := FirstOccurrence(c[1..], c[0]);
    j := j + 1;
    assert c[1..j] == c[1..][..j - 1];
    var w := Reverse(c[..j + 1]);
    var r := Reverse(c);
    forall i {:trigger w[i]} | 0 <= i < |w| - 1
      ensures (w[i], w[i + 1]) in g
    {
      var x := |c| - 1 - j + i;
      assert r[x] == w[i] && r[x + 1] == w[i + 1];
    }
    assert IsClosedWalk(g, w);
  }

  // ---------- counting nodes ----------

  ghost predicate Distinct(s: seq<nat>) {
    forall i, j :: 0 <= i < j < |s| ==> s[i] != s[j]
  }

  function Below(n: nat): (r: set<nat>)
    ensures |r| == n && forall x: nat :: x in r <==> x < n
  {
    if n == 0 then {} else Below(n - 1) + {n - 1}
  }

  function Elems(s: seq<nat>): (r: set<nat>)
    ensures forall x: nat :: x in r <==> x in s
  {
    if |s| == 0 then {} else Elems(s[1..]) + {s[0]}
  }

  /** Distinct nodes below n are at most n. */
  lemma Pigeonhole(s: seq<nat>, n: nat)
    requires Distinct(s) && forall i :: 0 <= i < |s| ==> s[i] < n
    ensures |s| <= n
  {
    DistinctSize(s);
    SubsetSize(Elems(s), Below(n));
  }

  lemma {:induction false} DistinctSize(s: seq<nat>)
    requires Distinct(s)
    ensures |Elems(s)| == |s|
  {
    if |s| != 0 {
      DistinctSize(s[1..]);
      assert s[0] !in s[1..];
    }
  }

  lemma {:induction false} SubsetSize(a: set<nat>, b: set<nat>)
    requires a <= b
    ensures |a| <= |b|
  {
    if a != {} {
      var x :| x in a;
      SubsetSize(a - {x}, b - {x});
    }
  }

  // ---------- the longest record ----------

  /** The cycle 0 -> 1 -> ... -> n - 1 -> 0. */
  function RingGraph(n: nat): (g: Graph)
    requires 0 < n
    ensures forall u: nat, v: nat :: (u, v) in g <==> u < n && v == if u + 1 < n then u + 1 else 0
  {
    set u: nat, v: nat | u < n && v < n && v == (if u + 1 < n then u + 1 else 0) :: (u, v)
  }

  /** k steps round the ring from node a. */
  lemma {:induction false} RingSteps(n: nat, w: seq<nat>, a: nat, k: nat)
    requires 0 < n && IsWalk(RingGraph(n), w) && a + k < |w| && w[a] < n && k <= n
    ensures w[a + k] == if w[a] + k < n then w[a] + k else w[a] + k - n
  {
    if k != 0 {
      RingSteps(n, w, a, k - 1);
      assert (w[a + k - 1], w[a + k]) in RingGraph(n);
    }
  }

  /** n entries are too few to record the cycle of an n-node ring: every witness has n + 1. */
  lemma RingNeedsSpareEntry(n: nat, c: seq<nat>)
    requires 0 < n && IsWitness(RingGraph(n), c)
    ensures |c| >= n + 1
  {
    if |c| <= n {
      var j := WitnessCloses(RingGraph(n), c);
      var w := Reverse(c[..j + 1]);
      assert (w[0], w[1]) in RingGraph(n);
      RingSteps(n, w, 0, j);
    }
  }
}
