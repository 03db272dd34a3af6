/** The planner's objects, updated in place (`modules/advanced_planner.py`), proved to do what
`PlanModel` and `PlanRuns` say. */
module Planner {
  import opened Collections
  import opened Graphs
  import opened TopologicalSort
  import opened PlanModel
  import opened PlanRuns
  import opened PlanTheorems

  class PlanNode {
    const id: Id
    const dependencies: seq<Id>
    const maxRetries: nat
    var expectedResult: string
    var status: NodeStatus
    var retries: nat

    constructor (id: Id, dependencies: seq<Id>, expectedResult: string, maxRetries: nat := 3)
      ensures this.id == id && View() == Node(dependencies, maxRetries, expectedResult, Pending, 0)
    {
      this.id, this.dependencies, this.maxRetries := id, dependencies, maxRetries;
      this.expectedResult, this.status, this.retries := expectedResult, Pending, 0;
    }

    ghost function View(): Node
      reads this
    {
      Node(dependencies, maxRetries, expectedResult, status, retries)
    }
  }

  class ExecutionPlan {
    const nodes: map<Id, PlanNode>
    const executionOrder: seq<Id>
    const maxReplans: nat
    var completedNodes: set<Id>
    var failedNodes: set<Id>
    var totalReplans: nat
    var status: PlanStatus

    ghost predicate Valid() {
      && (forall k | k in nodes :: nodes[k].id == k)
      && Listed(executionOrder, nodes.Keys)
    }

    ghost function View(): Plan
      reads this, nodes.Values
    {
      Plan(map k | k in nodes :: nodes[k].View(), executionOrder, completedNodes, failedNodes,
           totalReplans, maxReplans, status)
    }

    constructor (nodes: map<Id, PlanNode>, executionOrder: seq<Id>, maxReplans: nat := 5)
      ensures this.nodes == nodes && this.executionOrder == executionOrder && this.maxReplans == maxReplans
      ensures completedNodes == {} && failedNodes == {} && totalReplans == 0 && status == PlanExecuting
    {
      this.nodes, this.executionOrder, this.maxReplans := nodes, executionOrder, maxReplans;
      completedNodes, failedNodes, totalReplans, status := {}, {}, 0, PlanExecuting;
    }

    ghost predicate Owns(node: PlanNode) {
      node.id in nodes && nodes[node.id] == node
    }

    ghost predicate OwnsAll(batch: seq<PlanNode>, ids: seq<Id>) {
      |batch| == |ids| && forall i | 0 <= i < |batch| :: Owns(batch[i]) && batch[i].id == ids[i]
    }

    lemma OwnedAreIn(batch: seq<PlanNode>, ids: seq<Id>)
      requires OwnsAll(batch, ids)
      ensures AllIn(ids, View())
    {
    }

    lemma ViewOf(node: PlanNode)
      requires Valid() && Owns(node)
      ensures node.id in View().nodes && View().nodes[node.id] == node.View()
      ensures View().replans == totalReplans && View().maxReplans == maxReplans
    {
    }

    lemma ViewCounts()
      ensures View().completed == completedNodes && View().failed == failedNodes
      ensures |View().nodes| == |nodes|
    {
      assert View().nodes.Keys == nodes.Keys;
      assert |View().nodes| == |View().nodes.Keys| && |nodes| == |nodes.Keys|;
    }

    ghost predicate Holds(p: Plan, id: Id, n: Node)
      reads this, nodes.Values
    {
      View() == p.(nodes := p.nodes[id := n])
    }

    method SetStatus(node: PlanNode, status: NodeStatus)
      requires Valid() && Owns(node)
      modifies node`status
      ensures Holds(old(View()), node.id, old(node.View()).(status := status))
      ensures node.View() == old(node.View()).(status := status)
    {
      node.status := status;
      assert View().nodes == old(View()).nodes[node.id := node.View()];
    }

    method SetRetries(node: PlanNode, retries: nat)
      requires Valid() && Owns(node)
      modifies node`retries
      ensures Holds(old(View()), node.id, old(node.View()).(retries := retries))
      ensures node.View() == old(node.View()).(retries := retries)
    {
      node.retries := retries;
      assert View().nodes == old(View()).nodes[node.id := node.View()];
    }

    method SetExpectation(node: PlanNode, text: string)
      requires Valid() && Owns(node)
      modifies node`expectedResult
      ensures Holds(old(View()), node.id, old(node.View()).(expected := text))
      ensures node.View() == old(node.View()).(expected := text)
    {
      node.expectedResult := text;
      assert View().nodes == old(View()).nodes[node.id := node.View()];
    }

    /** The nodes with the given ids. */
    method Select(ids: seq<Id>) returns (batch: seq<PlanNode>)
      requires Valid() && AllIn(ids, View())
      ensures OwnsAll(batch, ids)
    {
      batch := [];
      for i := 0 to |ids|
        invariant OwnsAll(batch, ids[..i])
      {
        assert ids[i] in ids && ids[i] in View().nodes;
        batch := batch + [nodes[ids[i]]];
      }
    }

    method CountReplan()
      modifies this`totalReplans
      ensures View() == old(View()).(replans := old(View()).replans + 1)
    {
      totalReplans := totalReplans + 1;
    }

    /** Nodes whose in-plan dependencies are all completed, in execution order. */
    method GetNextExecutable() returns (ready: seq<PlanNode>, ids: seq<Id>)
      requires Valid()
      ensures ids == PlanRuns.Ready(View()) && OwnsAll(ready, ids)
    {
      ready, ids := [], [];
      ghost var p := View();
      assert forall id | id in p.order :: id in Elems(p.order);
      for i := 0 to |executionOrder|
        invariant ids == ReadyAmong(p, p.order[..i]) && OwnsAll(ready, ids)
      {
        assert executionOrder[i] in Elems(executionOrder);
        var node := nodes[executionOrder[i]];
        assert p.order[..i + 1][..i] == p.order[..i];
        if node.status == Pending {
          var depsMet := forall dep | dep in node.dependencies && dep in nodes ::
            nodes[dep].status == Completed;
          if depsMet { ready, ids := ready + [node], ids + [node.id]; }
        }
      }
      assert p.order[..|p.order|] == p.order;
    }
  }

  class AdvancedPlanner {
    const world: World
    var currentPlan: ExecutionPlan?
    var cancelled: bool
    var clock: nat                     // questions asked of the world so far
    ghost var runs: nat
    ghost var calls: nat
    ghost var rounds: seq<set<Id>>

    constructor (world: World)
      ensures this.world == world && currentPlan == null && !cancelled && clock == 0
    {
      this.world, currentPlan, cancelled, clock := world, null, false, 0;
      runs, calls, rounds := 0, 0, [];
    }

    ghost function State(plan: ExecutionPlan): Sys
      reads this, plan, plan.nodes.Values
    {
      Sys(plan.View(), cancelled, clock, runs, calls, rounds)
    }

    method PollCancelled() returns (c: bool)
      modifies this`cancelled, this`clock
      ensures cancelled == c == (old(cancelled) || world.cancels(old(clock))) && clock == old(clock) + 1
    {
      cancelled := cancelled || world.cancels(clock);
      clock := clock + 1;
      c := cancelled;
    }

    method CallExecutor(id: Id, attempt: nat) returns (returned: bool)
      modifies this`clock, this`calls
      ensures returned == world.succeeds(old(clock), id, attempt)
      ensures clock == old(clock) + 1 && calls == old(calls) + 1
    {
      returned := world.succeeds(clock, id, attempt);
      clock, calls := clock + 1, calls + 1;
    }

    method VerifyNode(node: PlanNode, plan: ExecutionPlan) returns (success: bool)
      requires plan.Valid() && plan.Owns(node)
      modifies this`clock, node`status
      ensures State(plan) == Put(Asked(old(State(plan))), node.id, old(node.View()).(status := Verifying))
      ensures success == world.accepts(old(clock)) && node.View() == old(node.View()).(status := Verifying)
    {
      plan.SetStatus(node, Verifying);
      success := world.accepts(clock);
      clock := clock + 1;
    }

    method MarkCompletedNode(node: PlanNode, plan: ExecutionPlan)
      requires plan.Valid() && plan.Owns(node)
      modifies node`status, plan`completedNodes
      ensures State(plan) == MarkCompleted(old(State(plan)), node.id)
    {
      plan.SetStatus(node, Completed);
      plan.completedNodes := plan.completedNodes + {node.id};
    }

    method MarkFailedNode(node: PlanNode, plan: ExecutionPlan)
      requires plan.Valid() && plan.Owns(node)
      modifies node`status, plan`failedNodes
      ensures State(plan) == MarkFailed(old(State(plan)), node.id)
    {
      plan.SetStatus(node, Failed);
      plan.failedNodes := plan.failedNodes + {node.id};
    }

    /** Verifies and marks a node whose executor call returned. */
    method Conclude(node: PlanNode, plan: ExecutionPlan, verify: bool, attempt: nat) returns (outcome: Try)
      requires plan.Valid() && plan.Owns(node)
      modifies this`clock, node`status, node`retries, plan`completedNodes
      ensures (State(plan), outcome) == AfterCall(old(State(plan)), world, node.id, verify, attempt)
    {
      hide ExecutionPlan.View;
      plan.ViewOf(node);
      if verify && node.expectedResult != "" && world.router {
        ghost var s, n := State(plan), node.View();
        var verified := VerifyNode(node, plan);
        if verified {
          PutTwice(Asked(s), node.id, n.(status := Verifying), n.(status := Completed));
          MarkCompletedNode(node, plan);
          outcome := Succeeded;
        } else {
          PutTwice(Asked(s), node.id, n.(status := Verifying), n.(status := Verifying, retries := attempt + 1));
          plan.SetRetries(node, attempt + 1);
          outcome := Again;
        }
      } else {
        MarkCompletedNode(node, plan);
        outcome := Succeeded;
      }
    }

    /** One pass of the retry loop. */
    method TryNode(node: PlanNode, plan: ExecutionPlan, verify: bool, attempt: nat) returns (outcome: Try)
      requires plan.Valid() && plan.Owns(node)
      modifies this`clock, this`cancelled, this`calls, node`status, node`retries, plan`completedNodes
      ensures (State(plan), outcome) == TryOnce(old(State(plan)), world, node.id, verify, attempt)
    {
      hide ExecutionPlan.View, AfterCall;
      plan.ViewOf(node);
      var stop := PollCancelled();
      if stop { return GaveUp; }
      var returned := true;
      if world.executor { returned := CallExecutor(node.id, attempt); }
      if returned {
        outcome := Conclude(node, plan, verify, attempt);
      } else {
        plan.SetRetries(node, attempt + 1);
        outcome := Again;
      }
    }

    /** Executes a single node with retries and verification. */
    method ExecuteNode(node: PlanNode, plan: ExecutionPlan, verify: bool) returns (success: bool)
      requires plan.Valid() && plan.Owns(node)
      modifies this`clock, this`cancelled, this`calls, this`runs, node
      modifies plan`completedNodes, plan`failedNodes
      ensures (State(plan), success) == RunNode(old(State(plan)), world, node.id, verify)
    {
      hide TryOnce, ExecutionPlan.View;
      plan.ViewOf(node);
      ghost var spec := RunNode(State(plan), world, node.id, verify);
      plan.SetStatus(node, Running);
      runs := runs + 1;
      plan.ViewOf(node);
      var attempt := 0;
      while attempt <= node.maxRetries
        invariant 0 <= attempt <= node.maxRetries + 1
        invariant node.id in plan.View().nodes
        invariant Attempts(State(plan), world, node.id, verify, attempt, node.maxRetries) == spec
      {
        var outcome := TryNode(node, plan, verify, attempt);
        plan.ViewOf(node);
        if outcome == GaveUp { return false; }
        if outcome == Succeeded { return true; }
        attempt := attempt + 1;
      }
      MarkFailedNode(node, plan);
      success := false;
    }

    /** Revises the current plan after a step failed; true when a plan is returned. */
    method RevisePlan(node: PlanNode, plan: ExecutionPlan) returns (revised: bool)
      requires plan.Valid() && plan.Owns(node) && currentPlan == plan
      modifies this`clock, node
      ensures (State(plan), revised) == Revise(old(State(plan)), world, node.id)
    {
      hide ExecutionPlan.View;
      plan.ViewOf(node);
      if !world.router { return false; }
      if node.retries < node.maxRetries {
        plan.SetStatus(node, Pending);
        return true;
      }
      revised := AskRevision(node, plan);
    }

    method AskRevision(node: PlanNode, plan: ExecutionPlan) returns (revised: bool)
      requires plan.Valid() && plan.Owns(node) && currentPlan == plan
      requires world.router && node.retries >= node.maxRetries
      modifies this`clock, node
      ensures (State(plan), revised) == Revise(old(State(plan)), world, node.id)
    {
      hide ExecutionPlan.View;
      plan.ViewOf(node);
      ghost var s, n := State(plan), node.View();
      plan.SetStatus(node, Replanning);
      var reply := world.revision(clock);
      clock := clock + 1;
      ghost var s1 := State(plan);
      if reply == Unusable { return false; }
      if reply.Expects? {
        plan.SetExpectation(node, reply.text);
        PutTwice(s1, node.id, n.(status := Replanning, expected := reply.text), node.View().(status := Pending));
      }
      plan.SetStatus(node, Pending);
      revised := true;
    }

    /** What both executors do after an unsuccessful node. */
    method Replan(node: PlanNode, plan: ExecutionPlan)
      requires plan.Valid() && plan.Owns(node) && currentPlan == plan
      modifies this`clock, node, plan`totalReplans
      ensures State(plan) == TryReplan(old(State(plan)), world, node.id)
    {
      hide ExecutionPlan.View, Revise;
      plan.ViewOf(node);
      if node.status != Completed && plan.totalReplans < plan.maxReplans {
        var revised := RevisePlan(node, plan);
        if revised {
          plan.ViewOf(node);
          plan.SetStatus(node, Pending);
          plan.CountReplan();
        }
      }
    }

    /** One node of a sequential round. */
    method ExecuteStep(node: PlanNode, plan: ExecutionPlan, verify: bool)
      requires plan.Valid() && currentPlan == plan && plan.Owns(node)
      modifies this`clock, this`cancelled, this`calls, this`runs, node
      modifies plan`completedNodes, plan`failedNodes, plan`totalReplans
      ensures node.id in old(plan.View()).nodes
      ensures State(plan) == SequentialStep(old(State(plan)), world, verify, node.id)
    {
      hide ExecutionPlan.View, RunNode, TryReplan;
      plan.ViewOf(node);
      var success := ExecuteNode(node, plan, verify);
      if !success { Replan(node, plan); }
    }

    /** One sequential round over the ready nodes. */
    method ExecuteReady(ready: seq<PlanNode>, ids: seq<Id>, plan: ExecutionPlan, verify: bool)
      requires plan.Valid() && currentPlan == plan && plan.OwnsAll(ready, ids)
      modifies this`clock, this`cancelled, this`calls, this`runs, plan.nodes.Values
      modifies plan`completedNodes, plan`failedNodes, plan`totalReplans
      ensures AllIn(ids, old(plan.View()))
      ensures State(plan) == SequentialBatch(old(State(plan)), world, verify, ids)
    {
      hide ExecutionPlan.View, ExecutionPlan.Valid, SequentialStep, SequentialBatch, Poll, AllIn;
      plan.OwnedAreIn(ready, ids);
      ghost var spec := SequentialBatch(State(plan), world, verify, ids);
      assert ids[0..] == ids;
      var i := 0;
      while i < |ready|
        invariant 0 <= i <= |ready| && AllIn(ids[i..], plan.View())
        invariant SequentialBatch(State(plan), world, verify, ids[i..]) == spec
      {
        SequentialBatchAt(State(plan), world, verify, ids, i);
        var stop := PollCancelled();
        if stop { return; }
        ExecuteStep(ready[i], plan, verify);
        plan.OwnedAreIn(ready[i + 1..], ids[i + 1..]);
        i := i + 1;
      }
      SequentialBatchAt(State(plan), world, verify, ids, i);
    }

    /** One turn of the sequential loop; false when the loop is left. */
    method SequentialTurn(plan: ExecutionPlan, verify: bool) returns (more: bool)
      requires plan.Valid() && currentPlan == plan && Sound(State(plan)) && Scheduling(world)
      modifies this`clock, this`cancelled, this`calls, this`runs, this`rounds, plan.nodes.Values
      modifies plan`completedNodes, plan`failedNodes, plan`totalReplans, plan`status
      ensures Turned(Sequential, old(State(plan)), world, verify, more, State(plan))
    {
      hide ExecutionPlan.View, SequentialBatch, PlanRuns.Ready, Sound;
      ghost var s := State(plan);
      var stop := PollCancelled();
      SamePlanAdvances(s, State(plan), 0);
      if stop {
        SetPlanStatus(plan, PlanCancelled);
        return false;
      }
      var ready, ids := plan.GetNextExecutable();
      SoundIsListed(State(plan));
      ReadyIsReady(plan.View());
      if |ready| == 0 { return false; }
      RoundAdvances(Sequential, State(plan), world, verify, ids, 0);
      rounds := rounds + [Elems(ids)];
      ExecuteReady(ready, ids, plan, verify);
      more := true;
    }

    method SetPlanStatus(plan: ExecutionPlan, status: PlanStatus)
      modifies plan`status
      ensures plan.View() == old(plan.View()).(status := status)
    {
      plan.status := status;
    }

    /** Executes the plan sequentially: round after round of ready nodes, until nothing is ready. */
    method ExecutePlan(plan: ExecutionPlan, verify: bool)
      requires plan.Valid() && currentPlan == plan && Startable(plan.View()) && Scheduling(world)
      modifies this, plan, plan.nodes.Values
      ensures currentPlan == old(currentPlan)
      ensures State(plan) == Run(Sequential, Start(old(plan.View()), old(clock)), world, verify)
    {
      Begin(plan);
      hide ExecutionPlan.View, Run, Sound, Turned;
      ghost var spec := Run(Sequential, State(plan), world, verify);
      var more := true;
      while more
        invariant currentPlan == plan
        invariant more ==> Sound(State(plan)) && Run(Sequential, State(plan), world, verify) == spec
        invariant !more ==> Finish(State(plan), world) == spec
        decreases more, if cancelled then 0 else 1, Fuel(plan.View())
      {
        ghost var s := State(plan);
        more := SequentialTurn(plan, verify);
        TurnProgress(Sequential, s, world, verify, more, State(plan));
      }
      FinishPlan(plan);
    }

    /** Resets the flag and the counters. */
    method Begin(plan: ExecutionPlan)
      requires Startable(plan.View())
      modifies this`cancelled, this`runs, this`calls, this`rounds, plan`status
      ensures State(plan) == Start(old(plan.View()), clock) && Sound(State(plan))
    {
      StartedIsSound(plan.View(), clock);
      hide Startable, Sound, ExecutionPlan.View;
      SetPlanStatus(plan, PlanExecuting);
      cancelled := false;
      runs, calls, rounds := 0, 0, [];
    }

    /** Determines the final status. */
    method FinishPlan(plan: ExecutionPlan)
      modifies this`clock, this`cancelled, plan`status
      ensures State(plan) == Finish(old(State(plan)), world)
    {
      hide ExecutionPlan.View;
      plan.ViewCounts();
      var stop := PollCancelled();
      var completed, failed, total := |plan.completedNodes|, |plan.failedNodes|, |plan.nodes|;
      var outcome := PlanFailed;
      if stop {
        outcome := PlanCancelled;
      } else if failed == 0 && completed == total {
        outcome := PlanCompleted;
      } else if completed > 0 {
        outcome := PlanPartial;
      }
      SetPlanStatus(plan, outcome);
    }

    /** Runs a batch on the pool, in the order in which its nodes finish. */
    method ExecutePool(batch: seq<PlanNode>, ids: seq<Id>, plan: ExecutionPlan, verify: bool)
      returns (results: seq<bool>)
      requires plan.Valid() && currentPlan == plan && plan.OwnsAll(batch, ids)
      modifies this`clock, this`cancelled, this`calls, this`runs, plan.nodes.Values
      modifies plan`completedNodes, plan`failedNodes
      ensures AllIn(ids, old(plan.View()))
      ensures (State(plan), results) == PoolBatch(old(State(plan)), world, verify, ids)
    {
      hide ExecutionPlan.View, ExecutionPlan.Valid, RunNode, PoolBatch, AllIn;
      plan.OwnedAreIn(batch, ids);
      ghost var spec := PoolBatch(State(plan), world, verify, ids);
      results := [];
      assert ids[0..] == ids && [] + spec.1 == spec.1;
      for i := 0 to |batch|
        invariant AllIn(ids[i..], plan.View())
        invariant var rest := PoolBatch(State(plan), world, verify, ids[i..]);
          (rest.0, results + rest.1) == spec
      {
        PoolBatchAt(State(plan), world, verify, ids, i, results);
        var success := ExecuteNode(batch[i], plan, verify);
        plan.OwnedAreIn(batch[i + 1..], ids[i + 1..]);
        results := results + [success];
      }
      PoolBatchAt(State(plan), world, verify, ids, |ids|, results);
      assert results + [] == results;
    }

    /** Replans what failed on the pool, in the same order. */
    method ReplanFailures(batch: seq<PlanNode>, ids: seq<Id>, results: seq<bool>, plan: ExecutionPlan)
      requires plan.Valid() && currentPlan == plan && plan.OwnsAll(batch, ids) && |results| == |ids|
      modifies this`clock, plan.nodes.Values, plan`totalReplans
      ensures AllIn(ids, old(plan.View()))
      ensures State(plan) == ReplanAll(old(State(plan)), world, ids, results)
    {
      hide ExecutionPlan.View, TryReplan;
      plan.OwnedAreIn(batch, ids);
      ghost var spec := ReplanAll(State(plan), world, ids, results);
      for i := 0 to |batch|
        invariant AllIn(ids[i..], plan.View())
        invariant ReplanAll(State(plan), world, ids[i..], results[i..]) == spec
      {
        assert ids[i..][0] == batch[i].id && ids[i..][1..] == ids[i + 1..];
        assert results[i..][0] == results[i] && results[i..][1..] == results[i + 1..];
        if !results[i] { Replan(batch[i], plan); }
        plan.OwnedAreIn(batch[i + 1..], ids[i + 1..]);
      }
    }

    /** One parallel round over the ready nodes. */
    method ParallelRound(ids: seq<Id>, plan: ExecutionPlan, verify: bool)
      requires plan.Valid() && currentPlan == plan && AllIn(ids, plan.View()) && Scheduling(world)
      modifies this`clock, this`cancelled, this`calls, this`runs, this`rounds, plan.nodes.Values
      modifies plan`completedNodes, plan`failedNodes, plan`totalReplans
      ensures AllIn(ids, old(plan.View()))
      ensures State(plan) == Round(Parallel, old(State(plan)), world, verify, ids)
    {
      hide ExecutionPlan.View, PoolBatch, ReplanAll;
      rounds := rounds + [Elems(ids)];
      var order := world.finishing(clock, ids);
      clock := clock + 1;
      SameMembers(order, ids);
      var batch := plan.Select(order);
      var results := ExecutePool(batch, order, plan, verify);
      ReplanFailures(batch, order, results, plan);
    }

    /** One turn of the parallel loop; false when the loop is left. */
    method ParallelTurn(plan: ExecutionPlan, verify: bool) returns (more: bool)
      requires plan.Valid() && currentPlan == plan && Sound(State(plan)) && Scheduling(world)
      modifies this`clock, this`cancelled, this`calls, this`runs, this`rounds, plan.nodes.Values
      modifies plan`completedNodes, plan`failedNodes, plan`totalReplans, plan`status
      ensures Turned(Parallel, old(State(plan)), world, verify, more, State(plan))
    {
      hide ExecutionPlan.View, Round, PlanRuns.Ready, Sound;
      ghost var s := State(plan);
      var stop := PollCancelled();
      SamePlanAdvances(s, State(plan), 0);
      if stop {
        SetPlanStatus(plan, PlanCancelled);
        return false;
      }
      var ready, ids := plan.GetNextExecutable();
      SoundIsListed(State(plan));
      ReadyIsReady(plan.View());
      if |ready| == 0 { return false; }
      ParallelRound(ids, plan, verify);
      more := true;
    }

    /** Executes the plan on a pool: each round's ready nodes together. */
    method ExecutePlanParallel(plan: ExecutionPlan, verify: bool)
      requires plan.Valid() && currentPlan == plan && Startable(plan.View()) && Scheduling(world)
      modifies this, plan, plan.nodes.Values
      ensures currentPlan == old(currentPlan)
      ensures State(plan) == Run(Parallel, Start(old(plan.View()), old(clock)), world, verify)
    {
      Begin(plan);
      hide ExecutionPlan.View, Run, Sound, Turned;
      ghost var spec := Run(Parallel, State(plan), world, verify);
      var more := true;
      while more
        invariant currentPlan == plan
        invariant more ==> Sound(State(plan)) && Run(Parallel, State(plan), world, verify) == spec
        invariant !more ==> Finish(State(plan), world) == spec
        decreases more, if cancelled then 0 else 1, Fuel(plan.View())
      {
        ghost var s := State(plan);
        more := ParallelTurn(plan, verify);
        TurnProgress(Parallel, s, world, verify, more, State(plan));
      }
      FinishPlan(plan);
    }

    /** Makes the nodes of a plan: a repeated id keeps its first place and its last definition. */
    method MakeNodes(steps: seq<Step>, n: nat) returns (nodes: map<Id, PlanNode>, ids: seq<Id>)
      requires n <= |steps|
      ensures Elems(ids) == nodes.Keys == set j | 0 <= j < n :: steps[j].id
      ensures forall k | k in nodes :: nodes[k].id == k && nodes[k].status == Pending && fresh(nodes[k])
      ensures MadeFrom(nodes, steps, n) && ids == FirstOccurrences(steps, n)
    {
      nodes, ids := map[], [];
      assert MadeFrom(nodes, steps, 0);
      hide MadeFrom;
      for i := 0 to n
        invariant Elems(ids) == nodes.Keys
        invariant forall k | k in nodes :: nodes[k].id == k && nodes[k].status == Pending && fresh(nodes[k])
        invariant MadeFrom(nodes, steps, i) && ids == FirstOccurrences(steps, i)
      {
        var node := new PlanNode(steps[i].id, steps[i].dependencies, steps[i].expectedResult);
        if steps[i].id !in nodes {
          ids := WithNew(ids, steps[i].id);
        }
        MadeNext(nodes, node, steps, i);
        nodes := nodes[steps[i].id := node];
      }
      AllOccur(steps, n);
    }

    /** Builds the plan for the parsed steps of an AI reply and makes it the current plan. */
    method CreatePlan(steps: seq<Step>, maxSteps: nat) returns (plan: ExecutionPlan)
      modifies this`currentPlan
      ensures plan.Valid() && currentPlan == plan && fresh(plan) && fresh(plan.nodes.Values)
      ensures Fresh(plan.View()) && plan.View().maxReplans == 5
      ensures IsExecutionOrder(PlanGraph(plan.View()), plan.executionOrder)
      ensures plan.nodes.Keys == set i | 0 <= i < |steps| && i < maxSteps :: steps[i].id
      ensures plan.View().status == PlanExecuting
      ensures Reflects(plan.View(), steps, maxSteps)
      ensures
        var n := if |steps| < maxSteps then |steps| else maxSteps;
        FollowsListing(PlanGraph(plan.View()), FirstOccurrences(steps, n), plan.executionOrder)
    {
      hide *;
      var n := if |steps| < maxSteps then |steps| else maxSteps;
      var nodes, ids := MakeNodes(steps, n);
      var deps := map k | k in nodes :: nodes[k].dependencies;
      var order := Sort(ids, deps);
      OrderIsListing(deps, order);
      plan := new ExecutionPlan(nodes, order);
      currentPlan := plan;
      NewPlan(plan, deps);
      PlanHolds(plan, steps, maxSteps);
    }
  }

  lemma NewPlan(plan: ExecutionPlan, deps: map<Id, seq<Id>>)
    requires deps == map k | k in plan.nodes :: plan.nodes[k].dependencies
    requires forall k | k in plan.nodes :: plan.nodes[k].id == k && plan.nodes[k].status == Pending
    requires Listed(plan.executionOrder, deps.Keys)
    requires plan.completedNodes == {} && plan.failedNodes == {} && plan.totalReplans == 0
    ensures plan.Valid() && Fresh(plan.View())
    ensures plan.View().status == plan.status && plan.View().maxReplans == plan.maxReplans
    ensures PlanGraph(plan.View()) == GraphOf(deps)
  {
    assert DepsOf(plan.View()) == deps;
  }

  lemma PlanHolds(plan: ExecutionPlan, steps: seq<Step>, maxSteps: nat)
    requires MadeFrom(plan.nodes, steps, if |steps| < maxSteps then |steps| else maxSteps)
    ensures Reflects(plan.View(), steps, maxSteps)
  {
    hide Listed;
    forall i, k | 0 <= i < |steps| && i < maxSteps && k == steps[i].id
      && (forall j | i < j < |steps| && j < maxSteps :: steps[j].id != k)
      ensures k in plan.View().nodes && plan.View().nodes[k] == NodeOf(steps[i])
    {
      assert LastOf(steps, if |steps| < maxSteps then |steps| else maxSteps, i);
    }
  }

  /** For every id among the first `maxSteps` steps, the plan has the node of the last step with that id:
      its dependencies and expectation, three retries, not yet executed. */
  ghost predicate Reflects(p: Plan, steps: seq<Step>, maxSteps: nat) {
    forall i, k | 0 <= i < |steps| && i < maxSteps && k == steps[i].id
      && (forall j | i < j < |steps| && j < maxSteps :: steps[j].id != k) ::
      k in p.nodes && p.nodes[k] == Node(steps[i].dependencies, 3, steps[i].expectedResult, Pending, 0)
  }

  function WithNew(ids: seq<Id>, id: Id): (r: seq<Id>)
    ensures Elems(r) == Elems(ids) + {id}
  {
    AppendFresh(ids, id);
    ids + [id]
  }

  lemma OrderIsListing(deps: map<Id, seq<Id>>, order: seq<Id>)
    requires IsExecutionOrder(GraphOf(deps), order)
    ensures Listed(order, deps.Keys)
  {
  }

  /** One parsed step of an AI reply. */
  datatype Step = Step(id: Id, dependencies: seq<Id>, expectedResult: string)

  /** The step at `i` is the last of the first `n` with its id. */
  ghost predicate LastOf(steps: seq<Step>, n: nat, i: int)
    requires n <= |steps|
  {
    0 <= i < n && forall j | i < j < n :: steps[j].id != steps[i].id
  }

  /** Each node is that of the last of the first `n` steps with its id. */
  ghost predicate MadeFrom(nodes: map<Id, PlanNode>, steps: seq<Step>, n: nat)
    requires n <= |steps|
    reads nodes.Values
  {
    forall i | LastOf(steps, n, i) :: steps[i].id in nodes && nodes[steps[i].id].View() == NodeOf(steps[i])
  }

  /** The ids of the first `n` steps, each at its first place. */
  ghost function FirstOccurrences(steps: seq<Step>, n: nat): seq<Id>
    requires n <= |steps|
  {
    if n == 0 then []
    else
      var ids, id := FirstOccurrences(steps, n - 1), steps[n - 1].id;
      if id in ids then ids else ids + [id]
  }

  lemma {:induction false} AllOccur(steps: seq<Step>, n: nat)
    requires n <= |steps|
    ensures Elems(FirstOccurrences(steps, n)) == set j | 0 <= j < n :: steps[j].id
    decreases n
  {
    if n > 0 {
      AllOccur(steps, n - 1);
      var ids, id := FirstOccurrences(steps, n - 1), steps[n - 1].id;
      AppendFresh(ids, id);
      assert id in ids <==> id in Elems(ids);
    }
  }

  lemma MadeNext(nodes: map<Id, PlanNode>, node: PlanNode, steps: seq<Step>, i: nat)
    requires i < |steps| && MadeFrom(nodes, steps, i) && node.View() == NodeOf(steps[i])
    ensures MadeFrom(nodes[steps[i].id := node], steps, i + 1)
  {
    forall j | LastOf(steps, i + 1, j) && j != i ensures LastOf(steps, i, j) && steps[j].id != steps[i].id {
    }
  }

  /** The node a step defines: its own dependencies and expectation, three retries, not yet executed. */
  function NodeOf(step: Step): Node {
    Node(step.dependencies, 3, step.expectedResult, Pending, 0)
  }
}
