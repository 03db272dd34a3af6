/** The depth-first ordering of plan nodes (`AdvancedPlanner._topological_sort`). */
module TopologicalSort {
  import opened Collections
  import opened Graphs

  /** The in-order dependency lists of a plan, as a graph. */
  function GraphOf(deps: map<Id, seq<Id>>): (g: Graph) {
    map a | a in deps :: Elems(deps[a])
  }

  /** Every dependency of `order[i]` that is in the graph stands before it, or depends on it in turn
      (so that the two lie on a common cycle). */
  ghost predicate DependenciesFirst(g: Graph, order: seq<Id>) {
    forall i, b | 0 <= i < |order| && Edge(g, order[i], b) ::
      b in order[..i] || Reaches(g, b, order[i])
  }

  /** Lists the ids of `g`, each exactly once, dependencies first except on cycles. */
  ghost predicate IsExecutionOrder(g: Graph, order: seq<Id>) {
    NoDup(order) && Elems(order) == g.Keys && DependenciesFirst(g, order)
  }

  ghost predicate ReachedFrom(g: Graph, ids: seq<Id>, x: Id) {
    exists k :: 0 <= k < |ids| && Reaches(g, ids[k], x)
  }

  /** Ids come in the order in which they are listed, but for those that some id listed no later than the
      ones they overtake depends on. */
  ghost predicate FollowsListing(g: Graph, ids: seq<Id>, order: seq<Id>) {
    forall i, p, q | 0 <= i < |ids| && 0 <= p <= q < |order| && order[q] == ids[i] ::
      ReachedFrom(g, ids[..i + 1], order[p])
  }

  /** The first `i` ids have been visited. */
  ghost predicate Listing(g: Graph, ids: seq<Id>, i: nat, order: seq<Id>)
    requires i <= |ids|
  {
    && FollowsListing(g, ids[..i], order) && (forall k | 0 <= k < i :: ids[k] in order)
    && forall x | x in order :: ReachedFrom(g, ids[..i], x)
  }

  lemma ListingStarts(g: Graph, ids: seq<Id>)
    ensures Listing(g, ids, 0, [])
  {
  }

  lemma ListingEnds(g: Graph, ids: seq<Id>, order: seq<Id>)
    requires Listing(g, ids, |ids|, order)
    ensures FollowsListing(g, ids, order) && Elems(ids) <= Elems(order)
  {
    hide FollowsListing, ReachedFrom;
    assert ids[..|ids|] == ids;
  }

  lemma ListingNext(g: Graph, ids: seq<Id>, i: nat, before: seq<Id>, order: seq<Id>)
    requires i < |ids| && before <= order && NoDup(order) && Listing(g, ids, i, before) && ids[i] in order
    requires forall x | x in order && x !in before :: Reaches(g, ids[i], x)
    ensures Listing(g, ids, i + 1, order)
  {
    hide Reaches, FollowsListing, ReachedFrom, NoDup;
    forall x | x in order ensures ReachedFrom(g, ids[..i + 1], x) {
      ReachedNext(g, ids, i, x);
    }
    FollowsNext(g, ids, i, before, order);
  }

  lemma ReachedNext(g: Graph, ids: seq<Id>, i: nat, x: Id)
    requires i < |ids| && (ReachedFrom(g, ids[..i], x) || Reaches(g, ids[i], x))
    ensures ReachedFrom(g, ids[..i + 1], x)
  {
    hide Reaches;
    if Reaches(g, ids[i], x) {
      assert ids[..i + 1][i] == ids[i];
    } else {
      var k :| 0 <= k < i && Reaches(g, ids[..i][k], x);
      assert ids[..i + 1][k] == ids[..i][k];
    }
  }

  lemma FollowsNext(g: Graph, ids: seq<Id>, i: nat, before: seq<Id>, order: seq<Id>)
    requires i < |ids| && before <= order && NoDup(order) && FollowsListing(g, ids[..i], before)
    requires forall k | 0 <= k < i :: ids[k] in before
    requires forall x | x in order :: ReachedFrom(g, ids[..i + 1], x)
    ensures FollowsListing(g, ids[..i + 1], order)
  {
    hide ReachedFrom;
    var more := ids[..i + 1];
    forall j, p, q | 0 <= j < |more| && 0 <= p <= q < |order| && order[q] == more[j]
      ensures ReachedFrom(g, more[..j + 1], order[p])
    {
      if j == i {
        assert more[..j + 1] == more && order[p] in order;
      } else {
        assert ids[..i][j] == more[j] && more[..j + 1] == ids[..i][..j + 1];
        var r :| 0 <= r < |before| && before[r] == ids[j];
        assert order[r] == before[r] && r == q && before[p] == order[p];
      }
    }
  }

  lemma AppendKeepsDependenciesFirst(g: Graph, order: seq<Id>, a: Id)
    requires DependenciesFirst(g, order)
    requires forall b | Edge(g, a, b) :: b in order || Reaches(g, b, a)
    ensures DependenciesFirst(g, order + [a])
  {
    var o := order + [a];
    forall i, b | 0 <= i < |o| && Edge(g, o[i], b) ensures b in o[..i] || Reaches(g, b, o[i]) {
      assert o[..i] == order[..i];
      if i == |order| { assert order[..i] == order; }
    }
  }

  /** On an acyclic graph the order is topological outright. */
  lemma AcyclicOrderIsTopological(g: Graph, order: seq<Id>, i: nat, b: Id)
    requires Acyclic(g) && IsExecutionOrder(g, order)
    requires i < |order| && Edge(g, order[i], b)
    ensures exists j :: 0 <= j < i && order[j] == b
  {
    assert !OnCycle(g, order[i]);
    assert b in order[..i];
    var j :| 0 <= j < |order[..i]| && order[..i][j] == b;
    assert order[j] == b;
  }

  /** Where a dependency does come after its dependent, both lie on a cycle. */
  lemma MisplacedDependencyIsOnACycle(g: Graph, order: seq<Id>, i: nat, j: nat)
    requires IsExecutionOrder(g, order)
    requires i < j < |order| && Edge(g, order[i], order[j])
    ensures OnCycle(g, order[i]) && OnCycle(g, order[j])
    ensures Reaches(g, order[i], order[j]) && Reaches(g, order[j], order[i])
  {
    var a, b := order[i], order[j];
    assert b !in order[..i];
    assert Reaches(g, b, a);
    assert PathBetween(g, [a, b], a, b);
    var p :| PathBetween(g, p, b, a);
    assert |p| > 1 && Edge(g, p[0], p[1]);
    var q := p[1..] + [b];
    forall k | 0 <= k < |q| - 1 ensures Edge(g, q[k], q[k + 1]) {
      if k < |p| - 2 { assert Edge(g, p[k + 1], p[k + 2]); }
    }
    assert PathBetween(g, q, p[1], b);
  }

  /** The three collections the recursive visit shares. */
  class Sorter {
    const deps: map<Id, seq<Id>>
    var visited: set<Id>
    var visiting: set<Id>
    var order: seq<Id>

    constructor (deps: map<Id, seq<Id>>)
      ensures Valid() && this.deps == deps && visited == {} && visiting == {} && order == []
    {
      this.deps := deps;
      visited, visiting, order := {}, {}, [];
    }

    ghost predicate Valid()
      reads this
    {
      && visited <= deps.Keys && visiting <= deps.Keys && visited !! visiting
      && NoDup(order) && Elems(order) == visited
      && DependenciesFirst(GraphOf(deps), order)
    }

    method Visit(nodeId: Id)
      requires Valid() && nodeId in deps
      requires forall v | v in visiting :: Reaches(GraphOf(deps), v, nodeId)
      modifies this
      ensures Valid() && visiting == old(visiting) && old(visited) <= visited
      ensures nodeId in visited || nodeId in visiting
      ensures old(order) <= order
      ensures forall x | x in visited && x !in old(visited) :: Reaches(GraphOf(deps), nodeId, x)
      decreases deps.Keys - visited - visiting
    {
      if nodeId in visited { return; }
      if nodeId in visiting { return; }
      ghost var g := GraphOf(deps);
      visiting := visiting + {nodeId};
      ReachesSelf(g, nodeId);
      for i := 0 to |deps[nodeId]|
        invariant Valid() && visiting == old(visiting) + {nodeId} && old(visited) <= visited
        invariant old(order) <= order
        invariant forall x | x in visited && x !in old(visited) :: Reaches(g, nodeId, x)
        invariant forall k | 0 <= k < i && deps[nodeId][k] in deps ::
          deps[nodeId][k] in visited || deps[nodeId][k] in visiting
      {
        var dep := deps[nodeId][i];
        if dep in deps {
          forall v | v in visiting ensures Reaches(g, v, dep) {
            ReachesStep(g, v, nodeId, dep);
          }
          ghost var before := visited;
          Visit(dep);
          forall x | x in visited && x !in before ensures Reaches(g, nodeId, x) { ReachesFirst(g, nodeId, dep, x); }
        }
      }
      visiting := visiting - {nodeId};
      visited := visited + {nodeId};
      forall b | Edge(g, nodeId, b) ensures b in order || Reaches(g, b, nodeId) {
        var k :| 0 <= k < |deps[nodeId]| && deps[nodeId][k] == b;
      }
      AppendKeepsDependenciesFirst(g, order, nodeId);
      order := order + [nodeId];
      assert visiting == old(visiting);
    }
  }

  /** `ids` are the keys of the dictionary of nodes, in its iteration order. */
  method Sort(ids: seq<Id>, deps: map<Id, seq<Id>>) returns (order: seq<Id>)
    requires Elems(ids) == deps.Keys
    ensures IsExecutionOrder(GraphOf(deps), order) && FollowsListing(GraphOf(deps), ids, order)
  {
    hide Listing, FollowsListing, NoDup, DependenciesFirst;
    var sorter := new Sorter(deps);
    ListingStarts(GraphOf(deps), ids);
    for i := 0 to |ids|
      invariant sorter.Valid() && sorter.deps == deps && sorter.visiting == {}
      invariant Listing(GraphOf(deps), ids, i, sorter.order)
    {
      assert ids[i] in Elems(ids);
      ghost var before := sorter.order;
      sorter.Visit(ids[i]);
      ListingNext(GraphOf(deps), ids, i, before, sorter.order);
    }
    order := sorter.order;
    ListingEnds(GraphOf(deps), ids, order);
  }
}
