/** What a plan's run guarantees: safety, bounds, progress, and what its final status means. */
module PlanTheorems {
  import opened Collections
  import opened Graphs
  import opened TopologicalSort
  import opened PlanModel
  import opened PlanRuns

  /** A plan as `create_plan` leaves it. */
  ghost predicate Fresh(p: Plan) {
    && Listed(p.order, p.nodes.Keys)
    && p.completed == {} && p.failed == {} && p.replans == 0
    && forall id | id in p.nodes :: p.nodes[id].status == Pending
  }

  /** The beginning of `execute_plan` and `execute_plan_parallel`. */
  function Start(p: Plan, tick: nat): Sys {
    Sys(p.(status := PlanExecuting), false, tick, 0, 0, [])
  }

  /** A plan on which an execution may start: fresh, or left behind by an uncancelled run. */
  ghost predicate Startable(p: Plan) {
    Sound(Start(p, 0))
  }

  lemma StartedIsSound(p: Plan, tick: nat)
    requires Startable(p)
    ensures Sound(Start(p, tick))
  {
  }

  lemma FreshIsStartable(p: Plan)
    requires Fresh(p)
    ensures Startable(p)
  {
  }

  // ----- safety and bounds

  /** In every run, whatever the executor, the router, the pool and cancellation do: a COMPLETED
      node's in-plan dependencies are COMPLETED, nothing completed or marked failed is forgotten,
      and `total_replans` stays within `max_replans`. */
  lemma EveryRunIsSafe(mode: Mode, p: Plan, w: World, verify: bool, tick: nat)
    requires Startable(p) && Scheduling(w)
    ensures
      var t := Run(mode, Start(p, tick), w, verify);
      && SameShape(p, t.plan)
      && (forall id, d | id in t.plan.nodes && t.plan.nodes[id].status == Completed
            && d in t.plan.nodes[id].deps && d in t.plan.nodes :: t.plan.nodes[d].status == Completed)
      && p.completed <= t.plan.completed && p.failed <= t.plan.failed
      && t.plan.completed == CompletedIds(t.plan)
      && p.replans <= t.plan.replans <= t.plan.maxReplans
  {
    hide Run, Ready, PendingIds;
    RunAdvances(mode, Start(p, tick), w, verify, 0);
    var t := Run(mode, Start(p, tick), w, verify);
    assert t.plan.completed == CompletedIds(t.plan);
    forall id, d | id in t.plan.nodes && t.plan.nodes[id].status == Completed
      && d in t.plan.nodes[id].deps && d in t.plan.nodes ensures t.plan.nodes[d].status == Completed
    {
      assert DepsMet(t.plan, id);
    }
  }

  /** In every run, node executions are paid for exactly by pending nodes and replans, and the
      executor is called at most `max_retries + 1` times in each. */
  lemma EveryRunIsBounded(mode: Mode, p: Plan, w: World, verify: bool, tick: nat, m: nat)
    requires Startable(p) && Scheduling(w)
    requires forall id | id in p.nodes :: p.nodes[id].maxRetries <= m
    ensures
      var t := Run(mode, Start(p, tick), w, verify);
      && t.runs == |PendingIds(p)| - |PendingIds(t.plan)| + t.plan.replans - p.replans
      && t.runs <= |PendingIds(p)| + p.maxReplans - p.replans
      && t.calls <= t.runs * (m + 1)
  {
    hide Run, Ready;
    var s := Start(p, tick);
    assert PendingIds(s.plan) == PendingIds(p);
    assert CallsWithin(s, m);
    RunAdvances(mode, s, w, verify, m);
  }

  // ----- progress

  /** A node whose own trouble, not a dependency's, keeps it from completing. */
  ghost predicate Stuck(p: Plan, id: Id) {
    id in p.nodes &&
    (p.nodes[id].status == Failed || p.nodes[id].status == Replanning || OnCycle(PlanGraph(p), id))
  }

  lemma UnmetDependency(p: Plan, id: Id) returns (d: Id)
    requires id in p.nodes && p.nodes[id].status == Pending && !IsReady(p, id)
    ensures d in p.nodes && p.nodes[d].status != Completed && Edge(PlanGraph(p), id, d)
  {
    d :| d in p.nodes[id].deps && d in p.nodes && p.nodes[d].status != Completed;
  }

  /** Nothing ready: every PENDING node leads, along in-plan dependencies, to a node that FAILED, is
      REPLANNING, or lies on a cycle. */
  lemma WaitingLeadsToTrouble(p: Plan, id: Id)
    requires Startable(p) && Ready(p) == []
    requires id in p.nodes && p.nodes[id].status == Pending
    ensures exists b :: Stuck(p, b) && Reaches(PlanGraph(p), id, b)
  {
    if forall b :: !(Stuck(p, b) && Reaches(PlanGraph(p), id, b)) {
      ReadyIsReady(p);
      hide OnCycle, Reaches, Stuck, ReadyAmong;
      var g, waiting := PlanGraph(p), WaitingFrom(p, id);
      forall x | x in waiting ensures EdgeInto(g, x, waiting) {
        assert !IsReady(p, x) by { assert x !in Elems(Ready(p)); }
        WaitsOnWaiting(p, id, x);
      }
      ReachesSelf(g, id);
      assert id in waiting;
      SomeoneIsOnACycle(g, waiting);
    }
  }

  ghost function WaitingFrom(p: Plan, id: Id): set<Id> {
    set x | x in p.nodes && p.nodes[x].status == Pending && Reaches(PlanGraph(p), id, x)
  }

  lemma WaitsOnWaiting(p: Plan, id: Id, x: Id)
    requires Startable(p) && x in WaitingFrom(p, id) && !IsReady(p, x)
    requires forall b :: !(Stuck(p, b) && Reaches(PlanGraph(p), id, b))
    ensures EdgeInto(PlanGraph(p), x, WaitingFrom(p, id))
  {
    hide OnCycle, Reaches;
    var d := UnmetDependency(p, x);
    ReachesStep(PlanGraph(p), id, x, d);
    assert !Stuck(p, d);
  }

  /** When a run ends uncancelled, every node still PENDING leads, along in-plan dependencies, to a node
      that FAILED, is REPLANNING, or lies on a cycle. */
  lemma PendingAtExitLeadsToTrouble(mode: Mode, p: Plan, w: World, verify: bool, tick: nat, id: Id)
    requires Startable(p) && Scheduling(w)
    ensures
      var t := Run(mode, Start(p, tick), w, verify);
      !t.cancelled && id in t.plan.nodes && t.plan.nodes[id].status == Pending ==>
        exists b :: Stuck(t.plan, b) && Reaches(PlanGraph(t.plan), id, b)
  {
    hide Run, Ready, OnCycle, Reaches, PlanGraph, Stuck, Outcome, PendingIds, CallsWithin;
    RunAdvances(mode, Start(p, tick), w, verify, 0);
    var t := Run(mode, Start(p, tick), w, verify);
    if !t.cancelled && id in t.plan.nodes && t.plan.nodes[id].status == Pending {
      WaitingLeadsToTrouble(t.plan, id);
    }
  }

  /** An uncancelled run of an acyclic fresh plan in which nothing was marked failed completes it. */
  lemma AcyclicFailureFreeRunCompletes(mode: Mode, p: Plan, w: World, verify: bool, tick: nat)
    requires Fresh(p) && Acyclic(PlanGraph(p)) && Scheduling(w)
    ensures
      var t := Run(mode, Start(p, tick), w, verify);
      !t.cancelled && t.plan.failed == {} ==>
        t.plan.status == PlanCompleted && t.plan.completed == p.nodes.Keys
  {
    hide Run, Ready, Outcome, PendingIds, CallsWithin, Acyclic;
    FreshIsStartable(p);
    RunAdvances(mode, Start(p, tick), w, verify, 0);
    var t := Run(mode, Start(p, tick), w, verify);
    if !t.cancelled && t.plan.failed == {} {
      SameGraph(p, t.plan);
      AllHaveCompleted(t);
    }
  }

  lemma AllHaveCompleted(t: Sys)
    requires Sound(t) && !t.cancelled && Acyclic(PlanGraph(t.plan)) && t.plan.failed == {} && Ready(t.plan) == []
    ensures t.plan.completed == t.plan.nodes.Keys && Outcome(false, t.plan) == PlanCompleted
  {
    var p := t.plan;
    forall id | id in p.nodes ensures p.nodes[id].status == Completed {
      if p.nodes[id].status == Pending {
        WaitingLeadsToTrouble(p, id);
      }
    }
    assert p.completed == p.nodes.Keys;
  }

  lemma SameGraph(p: Plan, q: Plan)
    requires SameShape(p, q)
    ensures PlanGraph(p) == PlanGraph(q)
  {
    assert DepsOf(p) == DepsOf(q);
  }

  // ----- the final status

  lemma StatusMeansAllCompleted(t: Sys)
    requires Sound(t)
    ensures |t.plan.completed| == |t.plan.nodes| <==> CompletedIds(t.plan) == t.plan.nodes.Keys
    ensures t.plan.completed == CompletedIds(t.plan)
  {
    assert t.plan.completed == CompletedIds(t.plan);
    if |t.plan.completed| == |t.plan.nodes| {
      SubsetOfSameSize(t.plan.completed, t.plan.nodes.Keys);
    }
  }

  lemma SubsetOfSameSize(a: set<Id>, b: set<Id>)
    requires a <= b && |a| == |b|
    ensures a == b
  {
    assert |b - a| == |b| - |a|;
  }

  /** A run ends CANCELLED exactly when it was cancelled.  Otherwise it ends FAILED exactly when there are
      nodes and none is COMPLETED, and COMPLETED exactly when every node is COMPLETED and no node was ever
      marked failed.  So a run after which `is_complete` holds is PARTIAL, not COMPLETED, exactly when some
      node was marked failed on the way. */
  lemma FinalStatusAccounting(mode: Mode, p: Plan, w: World, verify: bool, tick: nat)
    requires Startable(p) && Scheduling(w)
    ensures
      var t := Run(mode, Start(p, tick), w, verify);
      && (t.plan.status == PlanCancelled <==> t.cancelled)
      && (!t.cancelled ==>
        && (t.plan.status == PlanFailed <==> CompletedIds(t.plan) == {} && t.plan.nodes.Keys != {})
        && t.plan.status in {PlanFailed, PlanPartial, PlanCompleted}
        && (t.plan.status == PlanCompleted <==> CompletedIds(t.plan) == t.plan.nodes.Keys && t.plan.failed == {})
        && (IsComplete(t.plan) <==> CompletedIds(t.plan) == t.plan.nodes.Keys)
        && (IsComplete(t.plan) ==> (t.plan.status == PlanPartial <==> t.plan.failed != {})))
  {
    hide Run;
    RunAdvances(mode, Start(p, tick), w, verify, 0);
    var t := Run(mode, Start(p, tick), w, verify);
    StatusMeansAllCompleted(t);
    if !t.cancelled {
      CompleteMeansAllCompleted(t);
      hide Sound, Ready;
      if IsComplete(t.plan) && t.plan.failed != {} {
        FailedOnTheWay(t);
      }
    }
  }

  /** Without SKIPPED nodes `is_complete` is completion of every node. */
  lemma CompleteMeansAllCompleted(t: Sys)
    requires Sound(t) && !t.cancelled
    ensures IsComplete(t.plan) <==> CompletedIds(t.plan) == t.plan.nodes.Keys
  {
    if CompletedIds(t.plan) == t.plan.nodes.Keys {
      forall id | id in t.plan.nodes ensures t.plan.nodes[id].status == Completed {
        assert id in CompletedIds(t.plan);
      }
    }
  }

  lemma FailedOnTheWay(t: Sys)
    requires Sound(t) && CompletedIds(t.plan) == t.plan.nodes.Keys && t.plan.failed != {}
    ensures |t.plan.failed| > 0 && |t.plan.completed| > 0
  {
    var x :| x in t.plan.failed;
    assert x in CompletedIds(t.plan) && x in t.plan.completed;
  }
}
