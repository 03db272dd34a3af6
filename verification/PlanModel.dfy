/** What running an execution plan does, as functions on values
(`AdvancedPlanner.execute_plan` and `execute_plan_parallel`).

The outside world is a `World`: whether and how each executor call, verification query and
revision query ends, when another thread cancels, and in which order a pool finishes its batch.
Answers are indexed by `tick`, which counts the questions asked so far, so that every behaviour of
the outside, however it depends on the past, is the behaviour of some `World`. */
module PlanModel {
  import opened Collections
  import opened Graphs
  import opened TopologicalSort

  datatype NodeStatus = Pending | Running | Verifying | Completed | Failed | Skipped | Replanning

  datatype PlanStatus =
    PlanPlanning | PlanExecuting | PlanPaused | PlanCompleted | PlanPartial | PlanFailed | PlanCancelled

  datatype Node = Node(deps: seq<Id>, maxRetries: nat, expected: string, status: NodeStatus, retries: nat)

  datatype Plan = Plan(nodes: map<Id, Node>, order: seq<Id>, completed: set<Id>, failed: set<Id>,
                       replans: nat, maxReplans: nat, status: PlanStatus)

  /** A plan being run; `runs` counts calls of `_execute_node`, `calls` calls of the executor, and
      `rounds` records the batch of each round. */
  datatype Sys = Sys(plan: Plan, cancelled: bool, tick: nat, runs: nat, calls: nat, rounds: seq<set<Id>>)

  /** The answer to a revision query. */
  datatype Reply = Unusable | KeepsExpectation | Expects(text: string)

  datatype World = World(
    executor: bool,                             // an executor is configured
    router: bool,                               // an AI router is configured
    succeeds: (nat, Id, nat) -> bool,            // executor call (tick, node, attempt) returns normally
    accepts: nat -> bool,                       // verification accepts
    revision: nat -> Reply,
    cancels: nat -> bool,                       // `cancel()` has been called by this poll
    finishing: (nat, seq<Id>) -> seq<Id>)       // completion order of a pool batch

  datatype Mode = Sequential | Parallel

  ghost predicate Scheduling(w: World) {
    forall t, batch :: multiset(w.finishing(t, batch)) == multiset(batch)
  }

  function DepsOf(p: Plan): map<Id, seq<Id>> {
    map a | a in p.nodes :: p.nodes[a].deps
  }

  function PlanGraph(p: Plan): Graph {
    GraphOf(DepsOf(p))
  }

  predicate DepsMet(p: Plan, id: Id)
    requires id in p.nodes
  {
    forall d | d in p.nodes[id].deps && d in p.nodes :: p.nodes[d].status == Completed
  }

  predicate IsReady(p: Plan, id: Id)
    requires id in p.nodes
  {
    p.nodes[id].status == Pending && DepsMet(p, id)
  }

  /** `get_next_executable` over a prefix of the execution order. */
  function ReadyAmong(p: Plan, order: seq<Id>): seq<Id>
    requires forall id | id in order :: id in p.nodes
  {
    if order == [] then []
    else
      var init, last := order[..|order| - 1], order[|order| - 1];
      if IsReady(p, last) then ReadyAmong(p, init) + [last] else ReadyAmong(p, init)
  }

  predicate IsComplete(p: Plan) {
    forall id | id in p.nodes :: p.nodes[id].status == Completed || p.nodes[id].status == Skipped
  }

  // ----- one node

  function Put(s: Sys, id: Id, n: Node): Sys {
    s.(plan := s.plan.(nodes := s.plan.nodes[id := n]))
  }

  lemma PutTwice(s: Sys, id: Id, a: Node, b: Node)
    ensures Put(Put(s, id, a), id, b) == Put(s, id, b)
  {
    assert s.plan.nodes[id := a][id := b] == s.plan.nodes[id := b];
  }

  function Asked(s: Sys): Sys {
    s.(tick := s.tick + 1)
  }

  /** Reading `self._cancelled`, which no one resets while a plan runs. */
  function Poll(s: Sys, w: World): Sys {
    s.(cancelled := s.cancelled || w.cancels(s.tick), tick := s.tick + 1)
  }

  function MarkCompleted(s: Sys, id: Id): Sys
    requires id in s.plan.nodes
  {
    var t := Put(s, id, s.plan.nodes[id].(status := Completed));
    t.(plan := t.plan.(completed := t.plan.completed + {id}))
  }

  function MarkFailed(s: Sys, id: Id): Sys
    requires id in s.plan.nodes
  {
    var t := Put(s, id, s.plan.nodes[id].(status := Failed));
    t.(plan := t.plan.(failed := t.plan.failed + {id}))
  }

  datatype Try = GaveUp | Succeeded | Again

  /** The executor call of attempt `k`, if an executor is configured. */
  function Call(s: Sys, w: World): Sys {
    if w.executor then s.(tick := s.tick + 1, calls := s.calls + 1) else s
  }

  /** What follows an executor call that returned: verification, where it applies. */
  function AfterCall(s: Sys, w: World, id: Id, verify: bool, k: nat): (Sys, Try)
    requires id in s.plan.nodes
  {
    var n := s.plan.nodes[id];
    if verify && n.expected != "" && w.router then
      if w.accepts(s.tick) then (MarkCompleted(Asked(s), id), Succeeded)
      else (Put(Asked(s), id, n.(status := Verifying, retries := k + 1)), Again)
    else (MarkCompleted(s, id), Succeeded)
  }

  /** One pass of the loop in `_execute_node`. */
  function TryOnce(s: Sys, w: World, id: Id, verify: bool, k: nat): (Sys, Try)
    requires id in s.plan.nodes
  {
    var s1 := Poll(s, w);
    if s1.cancelled then (s1, GaveUp)
    else
      var s2 := Call(s1, w);
      if w.executor && !w.succeeds(s1.tick, id, k) then
        (Put(s2, id, s2.plan.nodes[id].(retries := k + 1)), Again)
      else AfterCall(s2, w, id, verify, k)
  }

  /** The attempts of `_execute_node` from attempt `k` on, out of `max` retries. */
  function Attempts(s: Sys, w: World, id: Id, verify: bool, k: nat, max: nat): (Sys, bool)
    requires id in s.plan.nodes && k <= max + 1
    decreases max + 1 - k
  {
    if k == max + 1 then (MarkFailed(s, id), false)
    else
      var (t, outcome) := TryOnce(s, w, id, verify, k);
      match outcome
      case GaveUp => (t, false)
      case Succeeded => (t, true)
      case Again => Attempts(t, w, id, verify, k + 1, max)
  }

  function RunNode(s: Sys, w: World, id: Id, verify: bool): (Sys, bool)
    requires id in s.plan.nodes
  {
    var n := s.plan.nodes[id];
    Attempts(Put(s, id, n.(status := Running)).(runs := s.runs + 1), w, id, verify, 0, n.maxRetries)
  }

  /** `revise_plan` on the plan being run. */
  function Revise(s: Sys, w: World, id: Id): (Sys, bool)
    requires id in s.plan.nodes
  {
    var n := s.plan.nodes[id];
    if !w.router then (s, false)
    else if n.retries < n.maxRetries then (Put(s, id, n.(status := Pending)), true)
    else
      var s1 := Asked(Put(s, id, n.(status := Replanning)));
      match w.revision(s.tick)
      case Unusable => (s1, false)
      case KeepsExpectation => (Put(s1, id, n.(status := Pending)), true)
      case Expects(text) => (Put(s1, id, n.(status := Pending, expected := text)), true)
  }

  function TryReplan(s: Sys, w: World, id: Id): Sys
    requires id in s.plan.nodes
  {
    if s.plan.nodes[id].status != Completed && s.plan.replans < s.plan.maxReplans then
      var (t, revised) := Revise(s, w, id);
      if revised then
        var u := Put(t, id, t.plan.nodes[id].(status := Pending));
        u.(plan := u.plan.(replans := u.plan.replans + 1))
      else t
    else s
  }

  // ----- one round

  ghost predicate AllIn(batch: seq<Id>, p: Plan) {
    forall id | id in batch :: id in p.nodes
  }

  /** One node of a sequential round: executed, and replanned if that failed. */
  function SequentialStep(s: Sys, w: World, verify: bool, id: Id): (t: Sys)
    requires id in s.plan.nodes
    ensures t.plan.nodes.Keys == s.plan.nodes.Keys
  {
    KeysKept(s, w, id, verify);
    var (s1, ok) := RunNode(s, w, id, verify);
    if ok then s1 else TryReplan(s1, w, id)
  }

  /** The batch of a sequential round. */
  function SequentialBatch(s: Sys, w: World, verify: bool, batch: seq<Id>): (t: Sys)
    requires AllIn(batch, s.plan)
    ensures t.plan.nodes.Keys == s.plan.nodes.Keys
    decreases |batch|
  {
    if batch == [] then s
    else
      var s1 := Poll(s, w);
      if s1.cancelled then s1
      else SequentialBatch(SequentialStep(s1, w, verify, batch[0]), w, verify, batch[1..])
  }

  lemma SequentialBatchAt(s: Sys, w: World, verify: bool, ids: seq<Id>, i: nat)
    requires i <= |ids| && AllIn(ids[i..], s.plan)
    ensures
      var s1 := s.(cancelled := s.cancelled || w.cancels(s.tick), tick := s.tick + 1);
      SequentialBatch(s, w, verify, ids[i..]) ==
        if i == |ids| then s
        else if s1.cancelled then s1
        else SequentialBatch(SequentialStep(s1, w, verify, ids[i]), w, verify, ids[i + 1..])
  {
    hide SequentialStep;
    if i < |ids| { assert ids[i..][0] == ids[i] && ids[i..][1..] == ids[i + 1..]; }
  }

  /** The pool: every node of the batch is executed, in completion order. */
  function PoolBatch(s: Sys, w: World, verify: bool, batch: seq<Id>): (r: (Sys, seq<bool>))
    requires AllIn(batch, s.plan)
    ensures r.0.plan.nodes.Keys == s.plan.nodes.Keys && |r.1| == |batch|
    decreases |batch|
  {
    if batch == [] then (s, [])
    else
      KeysKept(s, w, batch[0], verify);
      var (s1, ok) := RunNode(s, w, batch[0], verify);
      var (s2, oks) := PoolBatch(s1, w, verify, batch[1..]);
      (s2, [ok] + oks)
  }

  lemma PoolBatchAt(s: Sys, w: World, verify: bool, ids: seq<Id>, i: nat, done: seq<bool>)
    requires i <= |ids| && AllIn(ids[i..], s.plan)
    ensures
      var (s2, oks) := PoolBatch(s, w, verify, ids[i..]);
      if i == |ids| then (s, done) == (s2, done + oks)
      else
        var (s1, ok) := RunNode(s, w, ids[i], verify);
        AllIn(ids[i + 1..], s1.plan) ==>
          var (s3, rest) := PoolBatch(s1, w, verify, ids[i + 1..]);
          (s3, (done + [ok]) + rest) == (s2, done + oks)
  {
    hide RunNode;
    if i < |ids| {
      assert ids[i..][0] == ids[i] && ids[i..][1..] == ids[i + 1..];
      var (s1, ok) := RunNode(s, w, ids[i], verify);
      if AllIn(ids[i + 1..], s1.plan) {
        var (s3, rest) := PoolBatch(s1, w, verify, ids[i + 1..]);
        assert (done + [ok]) + rest == done + ([ok] + rest);
      }
    } else {
      assert done + [] == done;
    }
  }

  function ReplanAll(s: Sys, w: World, batch: seq<Id>, oks: seq<bool>): (t: Sys)
    requires AllIn(batch, s.plan) && |oks| == |batch|
    ensures t.plan.nodes.Keys == s.plan.nodes.Keys
    decreases |batch|
  {
    if batch == [] then s
    else ReplanAll(if oks[0] then s else TryReplan(s, w, batch[0]), w, batch[1..], oks[1..])
  }

  lemma {:induction false} AttemptsKeepKeys(s: Sys, w: World, id: Id, verify: bool, k: nat, max: nat)
    requires id in s.plan.nodes && k <= max + 1
    ensures Attempts(s, w, id, verify, k, max).0.plan.nodes.Keys == s.plan.nodes.Keys
    decreases max + 1 - k
  {
    if k <= max {
      var (t, outcome) := TryOnce(s, w, id, verify, k);
      if outcome == Again {
        AttemptsKeepKeys(t, w, id, verify, k + 1, max);
      }
    }
  }

  lemma KeysKept(s: Sys, w: World, id: Id, verify: bool)
    requires id in s.plan.nodes
    ensures RunNode(s, w, id, verify).0.plan.nodes.Keys == s.plan.nodes.Keys
  {
    var n := s.plan.nodes[id];
    var s0 := Put(s, id, n.(status := Running)).(runs := s.runs + 1);
    AttemptsKeepKeys(s0, w, id, verify, 0, n.maxRetries);
  }
}
