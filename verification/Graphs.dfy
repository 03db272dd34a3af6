/** Dependency graphs: what the two schedulers share.

An entry `a := {b, c}` says that `a` depends on `b` and `c`.  A dependency may name an id that
is not in the graph; only edges between two ids of the graph count for paths and cycles. */
module Graphs {
  import opened Collections

  type Id = string

  type Graph = map<Id, set<Id>>

  /** `a` depends on `b`, and both are in the graph. */
  predicate Edge(g: Graph, a: Id, b: Id) {
    a in g && b in g && b in g[a]
  }

  ghost predicate IsPath(g: Graph, p: seq<Id>) {
    p != [] && p[0] in g && forall i | 0 <= i < |p| - 1 :: Edge(g, p[i], p[i + 1])
  }

  ghost predicate PathBetween(g: Graph, p: seq<Id>, a: Id, b: Id) {
    IsPath(g, p) && p[0] == a && p[|p| - 1] == b
  }

  /** Zero or more dependency edges lead from `a` to `b`. */
  ghost predicate Reaches(g: Graph, a: Id, b: Id) {
    exists p :: PathBetween(g, p, a, b)
  }

  ghost predicate OnCycle(g: Graph, a: Id) {
    exists b :: Edge(g, a, b) && Reaches(g, b, a)
  }

  ghost predicate Acyclic(g: Graph) {
    forall a | a in g :: !OnCycle(g, a)
  }

  ghost predicate AllPresent(g: Graph) {
    forall a | a in g :: g[a] <= g.Keys
  }

  ghost predicate EdgeInto(g: Graph, a: Id, s: set<Id>) {
    exists b :: b in s && Edge(g, a, b)
  }

  lemma ReachesSelf(g: Graph, a: Id)
    requires a in g
    ensures Reaches(g, a, a)
  {
    assert PathBetween(g, [a], a, a);
  }

  /** A path can be extended by one edge at its near end. */
  lemma ReachesFirst(g: Graph, a: Id, b: Id, c: Id)
    requires Edge(g, a, b) && Reaches(g, b, c)
    ensures Reaches(g, a, c)
  {
    var p :| PathBetween(g, p, b, c);
    var q := [a] + p;
    forall i | 0 <= i < |q| - 1 ensures Edge(g, q[i], q[i + 1]) {
      if i > 0 { assert Edge(g, p[i - 1], p[i]); }
    }
    assert PathBetween(g, q, a, c);
  }

  /** A path can be extended by one edge at its far end. */
  lemma ReachesStep(g: Graph, a: Id, b: Id, c: Id)
    requires Reaches(g, a, b) && Edge(g, b, c)
    ensures Reaches(g, a, c)
  {
    var p :| PathBetween(g, p, a, b);
    assert PathBetween(g, p + [c], a, c);
  }

  lemma DistinctFit(p: seq<Id>, s: set<Id>)
    requires NoDup(p) && forall x | x in p :: x in s
    ensures |p| <= |s|
  {
    if p != [] {
      var q := p[..|p| - 1];
      forall x | x in q ensures x in s - {p[|p| - 1]} {}
      DistinctFit(q, s - {p[|p| - 1]});
    }
  }

  /** If every element of `s` depends on another element of `s`, walks in `s` have any length. */
  lemma Walk(g: Graph, s: set<Id>, a: Id, n: nat) returns (p: seq<Id>)
    requires s <= g.Keys && a in s
    requires forall x | x in s :: EdgeInto(g, x, s)
    ensures |p| == n + 1 && IsPath(g, p) && p[0] == a && forall x | x in p :: x in s
    decreases n
  {
    if n == 0 {
      p := [a];
    } else {
      assert EdgeInto(g, a, s);
      var b :| b in s && Edge(g, a, b);
      var q := Walk(g, s, b, n - 1);
      p := [a] + q;
    }
  }

  /** Two visits to the same node on a path enclose a cycle through it. */
  lemma RevisitIsCycle(g: Graph, p: seq<Id>, i: nat, j: nat)
    requires IsPath(g, p) && i < j < |p| && p[i] == p[j]
    ensures OnCycle(g, p[i])
  {
    var q := p[i + 1..j + 1];
    assert Edge(g, p[i], p[i + 1]);
    forall k | 0 <= k < |q| - 1 ensures Edge(g, q[k], q[k + 1]) {
      assert Edge(g, p[i + 1 + k], p[i + 1 + k + 1]);
    }
    assert PathBetween(g, q, p[i + 1], p[i]);
  }

  /** A non-empty set each of whose members depends on a member contains a node on a cycle. */
  lemma SomeoneIsOnACycle(g: Graph, s: set<Id>)
    requires s != {} && s <= g.Keys
    requires forall x | x in s :: EdgeInto(g, x, s)
    ensures exists c :: c in s && OnCycle(g, c)
  {
    var a :| a in s;
    var p := Walk(g, s, a, |s|);
    if NoDup(p) {
      DistinctFit(p, s);
    } else {
      var i, j :| 0 <= i < j < |p| && p[i] == p[j];
      RevisitIsCycle(g, p, i, j);
    }
  }

  /** Along a path every measure that drops over an edge drops by the number of edges. */
  lemma {:induction false} RankDropsAlongPath(g: Graph, rank: map<Id, int>, p: seq<Id>)
    requires g.Keys <= rank.Keys && IsPath(g, p)
    requires forall x, y | Edge(g, x, y) :: rank[y] < rank[x]
    ensures p[|p| - 1] in g && rank[p[|p| - 1]] <= rank[p[0]] - (|p| - 1)
  {
    if |p| > 1 {
      assert Edge(g, p[0], p[1]);
      forall i | 0 <= i < |p[1..]| - 1 ensures Edge(g, p[1..][i], p[1..][i + 1]) {
        assert Edge(g, p[i + 1], p[i + 2]);
      }
      RankDropsAlongPath(g, rank, p[1..]);
    }
  }

  lemma RankedIsAcyclic(g: Graph, rank: map<Id, int>)
    requires g.Keys <= rank.Keys
    requires forall x, y | Edge(g, x, y) :: rank[y] < rank[x]
    ensures Acyclic(g)
  {
    forall a | a in g && OnCycle(g, a) ensures false {
      var b :| Edge(g, a, b) && Reaches(g, b, a);
      var p :| PathBetween(g, p, b, a);
      RankDropsAlongPath(g, rank, p);
    }
  }
}
