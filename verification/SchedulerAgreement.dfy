/** The plan executor's rounds and the collaboration hub's layers are the same schedule. */
module SchedulerAgreement {
  import opened Collections
  import opened Graphs
  import opened PlanModel
  import opened PlanRuns
  import opened PlanTheorems
  import opened TaskLayers

  /** Every executor call returns, every verification accepts, nobody cancels. */
  ghost predicate AllGoesWell(w: World) {
    && Scheduling(w) && (forall t :: !w.cancels(t)) && (forall t :: w.accepts(t))
    && forall t, id, k :: w.succeeds(t, id, k)
  }

  /** Only PENDING and COMPLETED nodes. */
  ghost predicate Smooth(s: Sys) {
    !s.cancelled && forall id | id in s.plan.nodes :: s.plan.nodes[id].status in {Pending, Completed}
  }

  lemma SmoothNode(s: Sys, w: World, id: Id, verify: bool)
    requires AllGoesWell(w) && Sound(s) && Smooth(s) && id in s.plan.nodes && IsReady(s.plan, id)
    ensures
      var (t, ok) := RunNode(s, w, id, verify);
      && ok && NodeRan(s, t, id, true) && Sound(t) && SameShape(s.plan, t.plan) && Smooth(t)
      && t.plan.completed == s.plan.completed + {id}
  {
    hide RunNode, Sound, AllGoesWell;
    RunNodeAdvances(s, w, id, verify, 0);
    FirstAttemptSucceeds(s, w, id, verify);
  }

  lemma FirstAttemptSucceeds(s: Sys, w: World, id: Id, verify: bool)
    requires AllGoesWell(w) && !s.cancelled && id in s.plan.nodes
    ensures RunNode(s, w, id, verify).1 && !RunNode(s, w, id, verify).0.cancelled
  {
    var n := s.plan.nodes[id];
    var s0 := Put(s, id, n.(status := Running)).(runs := s.runs + 1);
    var (t, outcome) := TryOnce(s0, w, id, verify, 0);
    assert outcome == Succeeded && !t.cancelled;
  }

  lemma ElemsCons(batch: seq<Id>)
    requires batch != []
    ensures Elems(batch) == {batch[0]} + Elems(batch[1..])
  {
    assert batch == [batch[0]] + batch[1..];
  }

  lemma {:induction false} SmoothSequential(s: Sys, w: World, verify: bool, batch: seq<Id>)
    requires AllGoesWell(w) && Sound(s) && Smooth(s) && BatchReady(s.plan, batch)
    ensures
      var t := SequentialBatch(s, w, verify, batch);
      Smooth(t) && t.plan.completed == s.plan.completed + Elems(batch)
    decreases |batch|
  {
    hide RunNode, TryReplan, SameShape;
    if batch != [] {
      var id, s1 := batch[0], Poll(s, w);
      assert id in batch;
      KeysKept(s1, w, id, verify);
      SmoothNode(s1, w, id, verify);
      var (s2, ok) := RunNode(s1, w, id, verify);
      OthersStayReady(s.plan, s2.plan, batch);
      SmoothSequential(s2, w, verify, batch[1..]);
      ElemsCons(batch);
    }
  }

  lemma {:induction false} SmoothPool(s: Sys, w: World, verify: bool, batch: seq<Id>)
    requires AllGoesWell(w) && Sound(s) && Smooth(s) && BatchReady(s.plan, batch)
    ensures
      var (t, oks) := PoolBatch(s, w, verify, batch);
      && Smooth(t) && t.plan.completed == s.plan.completed + Elems(batch)
      && forall i | 0 <= i < |oks| :: oks[i]
    decreases |batch|
  {
    hide RunNode, SameShape, Sound;
    if batch != [] {
      var id := batch[0];
      assert id in batch;
      KeysKept(s, w, id, verify);
      SmoothNode(s, w, id, verify);
      var (s1, ok) := RunNode(s, w, id, verify);
      OthersStayReady(s.plan, s1.plan, batch);
      SmoothPool(s1, w, verify, batch[1..]);
      ElemsCons(batch);
    }
  }

  lemma {:induction false} NothingToReplan(s: Sys, w: World, batch: seq<Id>, oks: seq<bool>)
    requires AllIn(batch, s.plan) && |oks| == |batch| && forall i | 0 <= i < |oks| :: oks[i]
    ensures ReplanAll(s, w, batch, oks) == s
    decreases |batch|
  {
    if batch != [] {
      NothingToReplan(s, w, batch[1..], oks[1..]);
    }
  }

  lemma SmoothRound(mode: Mode, s: Sys, w: World, verify: bool, batch: seq<Id>)
    requires AllGoesWell(w) && Sound(s) && Smooth(s) && BatchReady(s.plan, batch)
    ensures
      var t := Round(mode, s, w, verify, batch);
      Smooth(t) && t.plan.completed == s.plan.completed + Elems(batch)
  {
    hide SequentialBatch, PoolBatch, ReplanAll;
    var s1 := s.(rounds := s.rounds + [Elems(batch)]);
    match mode {
      case Sequential => SmoothSequential(s1, w, verify, batch);
      case Parallel =>
        var order, s0 := w.finishing(s1.tick, batch), Asked(s1);
        PermutationIsReady(s.plan, batch, order);
        SmoothPool(s0, w, verify, order);
        var (s2, oks) := PoolBatch(s0, w, verify, order);
        NothingToReplan(s2, w, order, oks);
    }
  }

  /** The executor's ready set is the layering's. */
  lemma ReadySetsAgree(s: Sys)
    requires Sound(s) && Smooth(s) && AllPresent(PlanGraph(s.plan))
    ensures Elems(Ready(s.plan)) ==
              ReadyTasks(PlanGraph(s.plan), s.plan.nodes.Keys - s.plan.completed, s.plan.completed)
  {
    hide ReadyAmong;
    var p, g := s.plan, PlanGraph(s.plan);
    ReadyIsReady(p);
    forall id | id in p.nodes ensures DepsMet(p, id) <==> Needs(g, id) <= p.completed {
      if Needs(g, id) <= p.completed {
        forall d | d in p.nodes[id].deps ensures d in p.completed { assert d in g[id]; }
      }
      if DepsMet(p, id) {
        forall d | d in g[id] ensures d in p.completed { assert d in g.Keys; }
      }
    }
  }

  lemma NextRoundIsNextLayer(s: Sys)
    requires Sound(s) && Smooth(s) && Acyclic(PlanGraph(s.plan)) && AllPresent(PlanGraph(s.plan))
    ensures
      var remaining := s.plan.nodes.Keys - s.plan.completed;
      && (Ready(s.plan) == [] <==> remaining == {})
      && (remaining != {} ==>
            Elems(Ready(s.plan)) == NextLayer(PlanGraph(s.plan), remaining, s.plan.completed) <= remaining)
  {
    hide ReadyAmong, Acyclic, AllPresent;
    var p, g := s.plan, PlanGraph(s.plan);
    var remaining := p.nodes.Keys - p.completed;
    ReadySetsAgree(s);
    assert g.Keys - remaining == p.completed;
    if Ready(p) != [] { assert Ready(p)[0] in Elems(Ready(p)); }
    if remaining != {} { SomeTaskIsReady(g, remaining); }
  }

  /** One turn of a smooth run. */
  lemma SmoothTurn(mode: Mode, s: Sys, w: World, verify: bool) returns (s2: Sys)
    requires AllGoesWell(w) && Sound(s) && Smooth(s)
    ensures Ready(s.plan) == [] ==> Run(mode, s, w, verify).rounds == s.rounds
    ensures Ready(s.plan) != [] ==>
              && Sound(s2) && Smooth(s2) && PlanGraph(s2.plan) == PlanGraph(s.plan)
              && s2.plan.nodes.Keys == s.plan.nodes.Keys
              && s2.plan.completed == s.plan.completed + Elems(Ready(s.plan))
              && s2.rounds == s.rounds + [Elems(Ready(s.plan))]
              && 0 <= Fuel(s2.plan) < Fuel(s.plan) && Run(mode, s, w, verify) == Run(mode, s2, w, verify)
  {
    hide Round, ReadyAmong, CallsWithin;
    var s1 := Poll(s, w);
    ReadyIsReady(s.plan);
    var batch := Ready(s.plan);
    s2 := s1;
    if batch != [] {
      RoundAdvances(mode, s1, w, verify, batch, 0);
      SmoothRound(mode, s1, w, verify, batch);
      s2 := Round(mode, s1, w, verify, batch);
      SameGraph(s.plan, s2.plan);
    }
  }

  lemma {:induction false} RoundsAreLayers(mode: Mode, s: Sys, w: World, verify: bool)
    requires AllGoesWell(w) && Sound(s) && Smooth(s)
    requires Acyclic(PlanGraph(s.plan)) && AllPresent(PlanGraph(s.plan))
    ensures Run(mode, s, w, verify).rounds == s.rounds +
              LayersFrom(PlanGraph(s.plan), s.plan.nodes.Keys - s.plan.completed, s.plan.completed)
    decreases Fuel(s.plan)
  {
    hide Run, Ready, Sound, Smooth, AllGoesWell, Acyclic, AllPresent, NextLayer, PlanGraph;
    var g, done := PlanGraph(s.plan), s.plan.completed;
    var remaining := s.plan.nodes.Keys - done;
    NextRoundIsNextLayer(s);
    var s2 := SmoothTurn(mode, s, w, verify);
    if remaining != {} {
      RoundsAreLayers(mode, s2, w, verify);
      var layer := NextLayer(g, remaining, done);
      assert s2.plan.nodes.Keys - s2.plan.completed == remaining - layer;
      assert LayersFrom(g, remaining, done) == [layer] + LayersFrom(g, remaining - layer, done + layer);
    }
  }

  /** On an acyclic plan whose dependency ids all exist and whose steps all succeed, round `k` of
      the executor runs exactly the set in layer `k` of `_topological_layers`, and there are equally
      many of them. */
  lemma SchedulersAgree(mode: Mode, p: Plan, w: World, verify: bool, tick: nat)
    requires Fresh(p) && AllGoesWell(w)
    requires Acyclic(PlanGraph(p)) && AllPresent(PlanGraph(p))
    ensures Run(mode, Start(p, tick), w, verify).rounds == Layers(PlanGraph(p))
  {
    hide Run, Sound, Startable, LayersFrom, AllGoesWell, Acyclic, AllPresent, Smooth;
    var s := Start(p, tick);
    FreshIsStartable(p);
    StartedIsSound(p, tick);
    SameGraph(p, s.plan);
    FreshIsSmooth(p, tick);
    WellScheduled(w);
    RoundsAreLayers(mode, s, w, verify);
    assert s.plan.nodes.Keys - {} == PlanGraph(p).Keys;
  }

  lemma FreshIsSmooth(p: Plan, tick: nat)
    requires Fresh(p)
    ensures Smooth(Start(p, tick))
  {
  }

  lemma WellScheduled(w: World)
    requires AllGoesWell(w)
    ensures Scheduling(w)
  {
  }
}
