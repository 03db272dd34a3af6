/** The layering of delegated tasks (`AgentCollaborationHub._topological_layers`): the rounds it
is meant to produce, and what they guarantee for every dependency graph. */
module TaskLayers {
  import opened Collections
  import opened Graphs

  function Needs(deps: Graph, t: Id): set<Id> {
    if t in deps then deps[t] else {}
  }

  function ReadyTasks(deps: Graph, remaining: set<Id>, done: set<Id>): set<Id> {
    set t | t in remaining && Needs(deps, t) <= done
  }

  /** The ready tasks, or everything that is left when nothing is ready. */
  function NextLayer(deps: Graph, remaining: set<Id>, done: set<Id>): set<Id> {
    var ready := ReadyTasks(deps, remaining, done);
    if ready == {} then remaining else ready
  }

  function LayersFrom(deps: Graph, remaining: set<Id>, done: set<Id>): seq<set<Id>>
    decreases remaining
  {
    if remaining == {} then []
    else
      var layer := NextLayer(deps, remaining, done);
      [layer] + LayersFrom(deps, remaining - layer, done + layer)
  }

  function Layers(deps: Graph): seq<set<Id>> {
    LayersFrom(deps, deps.Keys, {})
  }

  function Flatten(layers: seq<set<Id>>): set<Id> {
    set k, t | 0 <= k < |layers| && t in layers[k] :: t
  }

  /** Layer `k` holds only tasks whose dependencies all stand in earlier layers. */
  ghost predicate Justified(deps: Graph, layers: seq<set<Id>>, k: nat)
    requires k < |layers|
  {
    forall t | t in layers[k] :: Needs(deps, t) <= Flatten(layers[..k])
  }

  /** Layer `k` is the next layer after the first `k`, and the layers stop when nothing is left. */
  lemma {:induction false} LayerAt(deps: Graph, remaining: set<Id>, done: set<Id>, k: nat)
    requires k <= |LayersFrom(deps, remaining, done)|
    ensures
      var layers := LayersFrom(deps, remaining, done);
      var before := Flatten(layers[..k]);
      && before <= remaining
      && (k < |layers| <==> remaining - before != {})
      && (k < |layers| ==> layers[k] == NextLayer(deps, remaining - before, done + before))
      && layers[k..] == LayersFrom(deps, remaining - before, done + before)
    decreases k
  {
    var layers := LayersFrom(deps, remaining, done);
    if k == 0 {
      assert layers[..0] == [] && Flatten(layers[..0]) == {};
      assert remaining - {} == remaining && done + {} == done && layers[0..] == layers;
    } else {
      var layer := NextLayer(deps, remaining, done);
      var rest := LayersFrom(deps, remaining - layer, done + layer);
      assert layers == [layer] + rest;
      LayerAt(deps, remaining - layer, done + layer, k - 1);
      var inner, before := Flatten(rest[..k - 1]), Flatten(layers[..k]);
      assert before == layer + inner by {
        assert layers[..k] == [layer] + rest[..k - 1];
        FlattenCons(layer, rest[..k - 1]);
      }
      assert remaining - layer - inner == remaining - before;
      assert done + layer + inner == done + before;
      assert layers[k..] == rest[k - 1..];
    }
  }

  lemma FlattenCons(layer: set<Id>, rest: seq<set<Id>>)
    ensures Flatten([layer] + rest) == layer + Flatten(rest)
  {
    var all := [layer] + rest;
    forall t | t in layer + Flatten(rest) ensures t in Flatten(all) {
      if t in layer { assert t in all[0]; } else {
        var k :| 0 <= k < |rest| && t in rest[k];
        assert t in all[k + 1];
      }
    }
  }

  lemma FlattenAppend(layers: seq<set<Id>>, layer: set<Id>)
    ensures Flatten(layers + [layer]) == Flatten(layers) + layer
  {
    var all := layers + [layer];
    forall t | t in Flatten(layers) + layer ensures t in Flatten(all) {
      if t in layer { assert t in all[|layers|]; } else {
        var k :| 0 <= k < |layers| && t in layers[k];
        assert t in all[k];
      }
    }
  }

  ghost predicate Partitions(layers: seq<set<Id>>, tasks: set<Id>) {
    && Flatten(layers) == tasks
    && (forall k | 0 <= k < |layers| :: layers[k] != {})
    && forall i, j | 0 <= i < j < |layers| :: layers[i] !! layers[j]
  }

  /** No layer is a fallback. */
  ghost predicate AllJustified(deps: Graph) {
    forall k: nat | k < |Layers(deps)| :: Justified(deps, Layers(deps), k)
  }

  /** Every task is in exactly one layer, and no layer is empty. */
  lemma EveryTaskInOneLayer(deps: Graph)
    ensures Partitions(Layers(deps), deps.Keys)
  {
    var layers := Layers(deps);
    LayerAt(deps, deps.Keys, {}, |layers|);
    assert layers[..|layers|] == layers;
    forall k | 0 <= k < |layers| ensures layers[k] != {} {
      LayerAt(deps, deps.Keys, {}, k);
    }
    forall i, j | 0 <= i < j < |layers| ensures layers[i] !! layers[j] {
      LayerAt(deps, deps.Keys, {}, j);
      assert layers[i] == layers[..j][i];
      assert layers[i] <= Flatten(layers[..j]);
      assert layers[j] <= deps.Keys - Flatten(layers[..j]);
    }
  }

  /** A layer that is not justified by the earlier ones is the fallback, which is the last layer. */
  lemma FallbackIsLast(deps: Graph, k: nat)
    requires k < |Layers(deps)| && !Justified(deps, Layers(deps), k)
    ensures k == |Layers(deps)| - 1
    ensures ReadyTasks(deps, Layers(deps)[k], Flatten(Layers(deps)[..k])) == {}
  {
    var layers := Layers(deps);
    LayerAt(deps, deps.Keys, {}, k);
    var before := Flatten(layers[..k]);
    assert {} + before == before;
    assert layers[k] == deps.Keys - before;
    LayerAt(deps, deps.Keys, {}, k + 1);
    assert layers[..k + 1] == layers[..k] + [layers[k]];
    FlattenAppend(layers[..k], layers[k]);
  }

  /** While tasks remain on a complete acyclic graph, some task is ready. */
  lemma SomeTaskIsReady(deps: Graph, remaining: set<Id>)
    requires Acyclic(deps) && AllPresent(deps)
    requires remaining <= deps.Keys && remaining != {}
    ensures ReadyTasks(deps, remaining, deps.Keys - remaining) != {}
  {
    if ReadyTasks(deps, remaining, deps.Keys - remaining) == {} {
      forall t | t in remaining ensures EdgeInto(deps, t, remaining) {
        assert t !in ReadyTasks(deps, remaining, deps.Keys - remaining);
        var d :| d in Needs(deps, t) && d !in deps.Keys - remaining;
        assert Edge(deps, t, d);
      }
      SomeoneIsOnACycle(deps, remaining);
    }
  }

  ghost function LayerIndex(layers: seq<set<Id>>, t: Id): nat
    requires t in Flatten(layers)
    ensures LayerIndex(layers, t) < |layers| && t in layers[LayerIndex(layers, t)]
  {
    var k :| 0 <= k < |layers| && t in layers[k];
    k
  }

  /** The fallback never fires exactly when the graph has no cycle and no missing id. */
  lemma NoFallbackExactlyWhenWellFormed(deps: Graph)
    ensures AllJustified(deps) <==> Acyclic(deps) && AllPresent(deps)
  {
    if Acyclic(deps) && AllPresent(deps) {
      forall k: nat | k < |Layers(deps)| ensures Justified(deps, Layers(deps), k) {
        LayerIsReadySet(deps, k);
      }
    }
    if AllJustified(deps) {
      JustifiedIsWellFormed(deps);
    }
  }

  /** On a complete acyclic graph each layer is the set of tasks ready at that point. */
  lemma LayerIsReadySet(deps: Graph, k: nat)
    requires Acyclic(deps) && AllPresent(deps) && k < |Layers(deps)|
    ensures
      var before := Flatten(Layers(deps)[..k]);
      Layers(deps)[k] == ReadyTasks(deps, deps.Keys - before, before)
  {
    LayerAt(deps, deps.Keys, {}, k);
    var before := Flatten(Layers(deps)[..k]);
    assert {} + before == before && deps.Keys - (deps.Keys - before) == before;
    SomeTaskIsReady(deps, deps.Keys - before);
  }

  lemma JustifiedIsWellFormed(deps: Graph)
    requires AllJustified(deps)
    ensures Acyclic(deps) && AllPresent(deps)
  {
    var layers := Layers(deps);
    EveryTaskInOneLayer(deps);
    var rank: map<Id, int> := map t | t in deps.Keys :: LayerIndex(layers, t);
    forall a, b | a in deps && b in deps[a] ensures b in deps {
      JustifiedDependency(deps, a, b);
    }
    forall a, b | Edge(deps, a, b) ensures rank[b] < rank[a] {
      JustifiedDependency(deps, a, b);
    }
    RankedIsAcyclic(deps, rank);
  }

  lemma JustifiedDependency(deps: Graph, a: Id, b: Id)
    requires AllJustified(deps)
    requires a in deps && b in deps[a]
    ensures Flatten(Layers(deps)) == deps.Keys
    ensures b in deps && LayerIndex(Layers(deps), b) < LayerIndex(Layers(deps), a)
  {
    EveryTaskInOneLayer(deps);
    var layers := Layers(deps);
    var k := LayerIndex(layers, a);
    assert Justified(deps, layers, k);
    var j :| 0 <= j < k && b in layers[..k][j];
    assert b in layers[j] && b in Flatten(layers);
  }

  /** A task's layer is the length of its longest dependency chain. */
  lemma {:induction false} LayerIsLongestChain(deps: Graph, k: nat, t: Id)
    requires Acyclic(deps) && AllPresent(deps)
    requires k < |Layers(deps)| && t in Layers(deps)[k]
    ensures exists p :: IsPath(deps, p) && p[0] == t && |p| - 1 == k
    ensures forall p | IsPath(deps, p) && p[0] == t :: |p| - 1 <= k
    decreases k
  {
    var layers := Layers(deps);
    LayerIsReadySet(deps, k);
    forall p | IsPath(deps, p) && p[0] == t ensures |p| - 1 <= k {
      ChainFitsLayer(deps, k, t, p);
    }
    if k == 0 {
      assert IsPath(deps, [t]);
    } else {
      LayerIsReadySet(deps, k - 1);
      assert layers[..k] == layers[..k - 1] + [layers[k - 1]];
      FlattenAppend(layers[..k - 1], layers[k - 1]);
      var d :| d in Needs(deps, t) && d !in Flatten(layers[..k - 1]);
      LayerIsLongestChain(deps, k - 1, d);
      var q :| IsPath(deps, q) && q[0] == d && |q| - 1 == k - 1;
      var p := [t] + q;
      forall i | 0 <= i < |p| - 1 ensures Edge(deps, p[i], p[i + 1]) {
        if i > 0 { assert Edge(deps, q[i - 1], q[i]); }
      }
      assert IsPath(deps, p) && p[0] == t && |p| - 1 == k;
    }
  }

  lemma {:induction false} ChainFitsLayer(deps: Graph, k: nat, t: Id, p: seq<Id>)
    requires Acyclic(deps) && AllPresent(deps)
    requires k < |Layers(deps)| && t in Layers(deps)[k]
    requires IsPath(deps, p) && p[0] == t
    ensures |p| - 1 <= k
    decreases |p|
  {
    if |p| > 1 {
      var layers := Layers(deps);
      LayerIsReadySet(deps, k);
      assert Edge(deps, p[0], p[1]);
      var j :| 0 <= j < |layers[..k]| && p[1] in layers[..k][j];
      assert p[1] in layers[j];
      forall i | 0 <= i < |p[1..]| - 1 ensures Edge(deps, p[1..][i], p[1..][i + 1]) {
        assert Edge(deps, p[i + 1], p[i + 2]);
      }
      ChainFitsLayer(deps, j, p[1], p[1..]);
    }
  }

  /** No schedule that runs a task strictly after its dependencies can run it any earlier. */
  lemma LayerIsEarliest(deps: Graph, slot: map<Id, int>, k: nat, t: Id)
    requires Acyclic(deps) && AllPresent(deps)
    requires k < |Layers(deps)| && t in Layers(deps)[k]
    requires deps.Keys <= slot.Keys && forall a | a in deps :: slot[a] >= 0
    requires forall a, b | Edge(deps, a, b) :: slot[b] < slot[a]
    ensures t in deps && k <= slot[t]
  {
    EveryTaskInOneLayer(deps);
    assert t in Flatten(Layers(deps));
    LayerIsLongestChain(deps, k, t);
    var p :| IsPath(deps, p) && p[0] == t && |p| - 1 == k;
    RankDropsAlongPath(deps, slot, p);
  }

  /** The layering loop; each layer is listed in whatever order the set is iterated. */
  method TopologicalLayers(tasks: set<Id>, dependencies: Graph) returns (layers: seq<seq<Id>>)
    ensures |layers| == |LayersFrom(dependencies, tasks, {})|
    ensures forall k | 0 <= k < |layers| ::
      NoDup(layers[k]) && Elems(layers[k]) == LayersFrom(dependencies, tasks, {})[k]
  {
    layers := [];
    var remaining, completed := tasks, {};
    ghost var spec := LayersFrom(dependencies, tasks, {});
    while remaining != {}
      invariant |layers| <= |spec| && spec[|layers|..] == LayersFrom(dependencies, remaining, completed)
      invariant forall k | 0 <= k < |layers| :: NoDup(layers[k]) && Elems(layers[k]) == spec[k]
      decreases remaining
    {
      ghost var expected := NextLayer(dependencies, remaining, completed);
      var layer: seq<Id> := [];
      var toScan := remaining;
      while toScan != {}
        invariant toScan <= remaining && NoDup(layer)
        invariant Elems(layer) == ReadyTasks(dependencies, remaining - toScan, completed)
        decreases toScan
      {
        var taskId :| taskId in toScan;
        var deps := if taskId in dependencies then dependencies[taskId] else {};
        AppendFresh(layer, taskId);
        if deps <= completed {
          layer := layer + [taskId];
        }
        toScan := toScan - {taskId};
        assert Elems(layer) == ReadyTasks(dependencies, remaining - toScan, completed);
      }
      assert remaining - toScan == remaining;
      if layer == [] {
        layer := ListOf(remaining);
      } else {
        assert layer[0] in Elems(layer);
      }
      assert Elems(layer) == expected;
      assert spec[|layers|] == spec[|layers|..][0];
      assert spec[|layers| + 1..] == spec[|layers|..][1..];
      layers := layers + [layer];
      remaining := remaining - Elems(layer);
      completed := completed + Elems(layer);
    }
  }

  /** `list(s)`: the elements of a set in some order. */
  method ListOf(s: set<Id>) returns (r: seq<Id>)
    ensures NoDup(r) && Elems(r) == s
  {
    r := [];
    var rest := s;
    while rest != {}
      invariant rest <= s && NoDup(r) && Elems(r) == s - rest
      decreases rest
    {
      var x :| x in rest;
      AppendFresh(r, x);
      r := r + [x];
      rest := rest - {x};
    }
  }
}
