/** Without an AI router, a plan ends the same way however its steps are interleaved. */
module Confluence {
  import opened Collections
  import opened Graphs
  import opened PlanModel
  import opened PlanRuns
  import opened PlanTheorems

  /** No router, no cancellation, and attempt `k` of node `id` succeeds exactly when `f(id, k)`. */
  ghost predicate Steady(w: World, f: (Id, nat) -> bool) {
    && !w.router && Scheduling(w) && (forall t :: !w.cancels(t))
    && forall t, id, k :: w.succeeds(t, id, k) == f(id, k)
  }

  /** Some attempt of `id` from the `k`-th on succeeds. */
  ghost predicate Wins(executor: bool, f: (Id, nat) -> bool, id: Id, k: nat, max: nat) {
    executor ==> exists j: nat :: k <= j <= max && f(id, j)
  }

  ghost function Winners(p: Plan, executor: bool, f: (Id, nat) -> bool): set<Id> {
    set id | id in p.nodes && Wins(executor, f, id, 0, p.nodes[id].maxRetries)
  }

  /** `c` contains every succeeding node all of whose in-plan dependencies it contains. */
  ghost predicate RuleClosed(g: Graph, winners: set<Id>, c: set<Id>) {
    forall id | id in winners && DepsWithin(g, id, c) :: id in c
  }

  ghost predicate DepsWithin(g: Graph, id: Id, c: set<Id>) {
    forall d | Edge(g, id, d) :: d in c
  }

  ghost predicate LeastRuleClosed(g: Graph, winners: set<Id>, c: set<Id>) {
    RuleClosed(g, winners, c) && BelowEveryClosed(g, winners, c)
  }

  ghost predicate BelowEveryClosed(g: Graph, winners: set<Id>, c: set<Id>) {
    forall c' | RuleClosed(g, winners, c') :: c <= c'
  }

  lemma LeastIsUnique(g: Graph, winners: set<Id>, c: set<Id>, c': set<Id>)
    requires LeastRuleClosed(g, winners, c) && LeastRuleClosed(g, winners, c')
    ensures c == c'
  {
  }

  // ----- one node

  lemma {:induction false} SteadyAttempts(s: Sys, w: World, f: (Id, nat) -> bool, id: Id, verify: bool,
                                          k: nat, max: nat)
    requires Steady(w, f) && !s.cancelled && id in s.plan.nodes && k <= max + 1
    ensures
      var (t, ok) := Attempts(s, w, id, verify, k, max);
      !t.cancelled && (ok <==> if k <= max then Wins(w.executor, f, id, k, max) else false)
    decreases max + 1 - k
  {
    if k <= max {
      var (t, outcome) := TryOnce(s, w, id, verify, k);
      if outcome == Again {
        SteadyAttempts(t, w, f, id, verify, k + 1, max);
        assert !f(id, k);
      }
    }
  }

  /** What a steady run keeps. */
  ghost predicate OnCourse(s: Sys, winners: set<Id>) {
    var p := s.plan;
    && !s.cancelled
    && (forall id | id in p.nodes :: p.nodes[id].status in {Pending, Completed, Failed})
    && (forall id | id in p.nodes && p.nodes[id].status == Failed :: id !in winners && DepsMet(p, id))
    && (forall id :: id in p.failed <==> id in p.nodes && p.nodes[id].status == Failed)
    && BelowEveryClosed(PlanGraph(p), winners, p.completed)
  }

  lemma SteadyNode(s: Sys, w: World, f: (Id, nat) -> bool, id: Id, verify: bool, winners: set<Id>)
    requires Steady(w, f) && Sound(s) && OnCourse(s, winners)
    requires id in s.plan.nodes && IsReady(s.plan, id)
    requires id in winners <==> Wins(w.executor, f, id, 0, s.plan.nodes[id].maxRetries)
    ensures
      var (t, ok) := RunNode(s, w, id, verify);
      NodeRan(s, t, id, ok) && Sound(t) && SameShape(s.plan, t.plan) && OnCourse(t, winners)
  {
    hide RunNode, Sound, Steady, OnCourse, SameShape, Wins, NodeRan;
    assert !s.cancelled by { OnCourseIsLive(s, winners); }
    SteadyOutcome(s, w, f, id, verify);
    RunNodeAdvances(s, w, id, verify, 0);
    var (t, ok) := RunNode(s, w, id, verify);
    StaysOnCourse(s, t, id, ok, winners);
  }

  lemma OnCourseIsLive(s: Sys, winners: set<Id>)
    requires OnCourse(s, winners)
    ensures !s.cancelled
  {
  }

  lemma SteadyOutcome(s: Sys, w: World, f: (Id, nat) -> bool, id: Id, verify: bool)
    requires Steady(w, f) && !s.cancelled && id in s.plan.nodes
    ensures
      var (t, ok) := RunNode(s, w, id, verify);
      !t.cancelled && (ok <==> Wins(w.executor, f, id, 0, s.plan.nodes[id].maxRetries))
  {
    hide Steady, Wins;
    var n := s.plan.nodes[id];
    var s0 := Put(s, id, n.(status := Running)).(runs := s.runs + 1);
    SteadyAttempts(s0, w, f, id, verify, 0, n.maxRetries);
  }

  lemma StaysOnCourse(s: Sys, t: Sys, id: Id, ok: bool, winners: set<Id>)
    requires Sound(s) && OnCourse(s, winners) && id in s.plan.nodes && IsReady(s.plan, id)
    requires NodeRan(s, t, id, ok) && Sound(t) && SameShape(s.plan, t.plan)
    requires (ok <==> id in winners) && !t.cancelled
    ensures OnCourse(t, winners)
  {
    var p, q := s.plan, t.plan;
    SameGraph(p, q);
    forall c | RuleClosed(PlanGraph(q), winners, c) ensures q.completed <= c {
      assert p.completed <= c;
      if ok {
        assert DepsWithin(PlanGraph(p), id, c);
      }
    }
    forall x | x in q.nodes && q.nodes[x].status == Failed ensures x !in winners && DepsMet(q, x) {
      assert DepsMet(p, x);
    }
  }

  // ----- one round

  /** Who wins, for every plan of the given shape. */
  ghost predicate WinnersOf(p: Plan, w: World, f: (Id, nat) -> bool, winners: set<Id>) {
    forall id | id in p.nodes ::
      id in winners <==> Wins(w.executor, f, id, 0, p.nodes[id].maxRetries)
  }

  lemma {:induction false} SteadySequential(s: Sys, w: World, f: (Id, nat) -> bool, verify: bool,
                                            batch: seq<Id>, winners: set<Id>)
    requires Steady(w, f) && Sound(s) && OnCourse(s, winners) && WinnersOf(s.plan, w, f, winners)
    requires BatchReady(s.plan, batch)
    ensures OnCourse(SequentialBatch(s, w, verify, batch), winners)
    decreases |batch|
  {
    hide RunNode, Sound, SameShape, OnCourse, BelowEveryClosed, Wins;
    if batch != [] {
      var id, s1 := batch[0], Poll(s, w);
      assert OnCourse(s1, winners) && Sound(s1) && !s1.cancelled by { SteadyPoll(s, w, f, winners); }
      assert id in batch;
      KeysKept(s1, w, id, verify);
      SteadyNode(s1, w, f, id, verify, winners);
      var (s2, ok) := RunNode(s1, w, id, verify);
      OthersStayReady(s.plan, s2.plan, batch);
      ShapeKeepsWinners(s.plan, s2.plan, w, f, winners);
      SteadySequential(s2, w, f, verify, batch[1..], winners);
    }
  }

  lemma SteadyPoll(s: Sys, w: World, f: (Id, nat) -> bool, winners: set<Id>)
    requires Steady(w, f) && OnCourse(s, winners) && Sound(s)
    ensures OnCourse(Poll(s, w), winners) && Sound(Poll(s, w)) && !Poll(s, w).cancelled
  {
  }

  lemma ShapeKeepsWinners(p: Plan, q: Plan, w: World, f: (Id, nat) -> bool, winners: set<Id>)
    requires SameShape(p, q) && WinnersOf(p, w, f, winners)
    ensures WinnersOf(q, w, f, winners)
  {
  }

  lemma {:induction false} SteadyPool(s: Sys, w: World, f: (Id, nat) -> bool, verify: bool,
                                      batch: seq<Id>, winners: set<Id>)
    requires Steady(w, f) && Sound(s) && OnCourse(s, winners) && WinnersOf(s.plan, w, f, winners)
    requires BatchReady(s.plan, batch)
    ensures OnCourse(PoolBatch(s, w, verify, batch).0, winners)
    decreases |batch|
  {
    hide RunNode, Sound, SameShape, OnCourse, BelowEveryClosed, Wins;
    if batch != [] {
      var id := batch[0];
      assert id in batch;
      KeysKept(s, w, id, verify);
      SteadyNode(s, w, f, id, verify, winners);
      var (s1, ok) := RunNode(s, w, id, verify);
      OthersStayReady(s.plan, s1.plan, batch);
      ShapeKeepsWinners(s.plan, s1.plan, w, f, winners);
      SteadyPool(s1, w, f, verify, batch[1..], winners);
    }
  }

  lemma {:induction false} NoRouterNoReplan(s: Sys, w: World, batch: seq<Id>, oks: seq<bool>)
    requires !w.router && AllIn(batch, s.plan) && |oks| == |batch|
    ensures ReplanAll(s, w, batch, oks) == s
    decreases |batch|
  {
    if batch != [] {
      NoRouterNoReplan(s, w, batch[1..], oks[1..]);
    }
  }

  lemma SteadyRound(mode: Mode, s: Sys, w: World, f: (Id, nat) -> bool, verify: bool, batch: seq<Id>,
                    winners: set<Id>)
    requires Steady(w, f) && Sound(s) && OnCourse(s, winners) && WinnersOf(s.plan, w, f, winners)
    requires BatchReady(s.plan, batch)
    ensures OnCourse(Round(mode, s, w, verify, batch), winners)
  {
    hide SequentialBatch, PoolBatch, ReplanAll, BelowEveryClosed, Wins;
    var s1 := s.(rounds := s.rounds + [Elems(batch)]);
    match mode {
      case Sequential => SteadySequential(s1, w, f, verify, batch, winners);
      case Parallel =>
        var order, s0 := w.finishing(s1.tick, batch), Asked(s1);
        PermutationIsReady(s.plan, batch, order);
        PoolBatchAdvances(s0, w, verify, order, 0);
        SteadyPool(s0, w, f, verify, order, winners);
        var (s2, oks) := PoolBatch(s0, w, verify, order);
        NoRouterNoReplan(s2, w, order, oks);
    }
  }

  // ----- the whole run

  lemma {:induction false} SteadyRun(mode: Mode, s: Sys, w: World, f: (Id, nat) -> bool, verify: bool,
                                     winners: set<Id>)
    requires Steady(w, f) && Sound(s) && OnCourse(s, winners) && WinnersOf(s.plan, w, f, winners)
    ensures OnCourse(Run(mode, s, w, verify), winners)
    decreases Fuel(s.plan)
  {
    hide Round, Ready, CallsWithin, BelowEveryClosed, Wins;
    SteadyPoll(s, w, f, winners);
    var s1 := Poll(s, w);
    ReadyIsReady(s1.plan);
    var batch := Ready(s1.plan);
    if batch != [] {
      RoundAdvances(mode, s1, w, verify, batch, 0);
      SteadyRound(mode, s1, w, f, verify, batch, winners);
      var s2 := Round(mode, s1, w, verify, batch);
      ShapeKeepsWinners(s1.plan, s2.plan, w, f, winners);
      SteadyRun(mode, s2, w, f, verify, winners);
    } else {
      FinishStaysOnCourse(s1, w, f, winners);
    }
  }

  lemma FinishStaysOnCourse(s: Sys, w: World, f: (Id, nat) -> bool, winners: set<Id>)
    requires Steady(w, f) && OnCourse(s, winners)
    ensures OnCourse(Finish(s, w), winners)
  {
    var p, q := s.plan, Finish(s, w).plan;
    assert PlanGraph(p) == PlanGraph(q) by { assert DepsOf(p) == DepsOf(q); }
    forall id | id in q.nodes && DepsMet(p, id) ensures DepsMet(q, id) {}
  }

  /** How a steady run leaves a plan: what completes is the least set that contains every succeeding
      node whose in-plan dependencies it contains; what it is blocked from stays PENDING. */
  ghost predicate EndsAsDetermined(p: Plan, winners: set<Id>, c: set<Id>) {
    && LeastRuleClosed(PlanGraph(p), winners, c)
    && p.completed == c
    && p.failed == (set id | id in p.nodes && id !in c && DepsWithin(PlanGraph(p), id, c))
    && forall id | id in p.nodes :: p.nodes[id].status == DeterminedStatus(PlanGraph(p), c, id)
  }

  ghost function DeterminedStatus(g: Graph, c: set<Id>, id: Id): NodeStatus {
    if id in c then Completed else if DepsWithin(g, id, c) then Failed else Pending
  }

  lemma OnCourseEndsAsDetermined(t: Sys, winners: set<Id>)
    requires Sound(t) && OnCourse(t, winners) && Ready(t.plan) == [] && winners <= t.plan.nodes.Keys
    ensures EndsAsDetermined(t.plan, winners, t.plan.completed)
  {
    hide BelowEveryClosed, Ready, DepsWithin, DepsMet, NoDup;
    var p, g, c := t.plan, PlanGraph(t.plan), t.plan.completed;
    assert forall id | id in p.nodes :: !IsReady(p, id) by { NothingReady(p); }
    forall id | id in p.nodes ensures DepsMet(p, id) <==> DepsWithin(g, id, c) {
      DepsMetMeansWithin(t, id);
    }
    assert RuleClosed(g, winners, c);
    assert p.failed == set id | id in p.nodes && id !in c && DepsWithin(g, id, c);
  }

  lemma NothingReady(p: Plan)
    requires Listed(p.order, p.nodes.Keys) && Ready(p) == []
    ensures forall id | id in p.nodes :: !IsReady(p, id)
  {
    ReadyIsReady(p);
    forall id | id in p.nodes ensures !IsReady(p, id) {
      assert id !in Elems(Ready(p));
    }
  }

  lemma DepsMetMeansWithin(t: Sys, id: Id)
    requires Sound(t) && id in t.plan.nodes
    ensures DepsMet(t.plan, id) <==> DepsWithin(PlanGraph(t.plan), id, t.plan.completed)
  {
    var p, g := t.plan, PlanGraph(t.plan);
    if DepsWithin(g, id, p.completed) {
      forall d | d in p.nodes[id].deps && d in p.nodes ensures p.nodes[d].status == Completed {
        assert Edge(g, id, d);
      }
    }
  }

  lemma SteadyRunIsDetermined(mode: Mode, p: Plan, w: World, f: (Id, nat) -> bool, verify: bool, tick: nat)
    requires Fresh(p) && Steady(w, f)
    ensures
      var t := Run(mode, Start(p, tick), w, verify);
      && !t.cancelled && SameShape(p, t.plan)
      && EndsAsDetermined(t.plan, Winners(p, w.executor, f), t.plan.completed)
      && t.plan.status == Outcome(false, t.plan)
  {
    hide Run, Ready;
    FreshIsStartable(p);
    var s, winners := Start(p, tick), Winners(p, w.executor, f);
    RunAdvances(mode, s, w, verify, 0);
    assert OnCourse(s, winners);
    SteadyRun(mode, s, w, f, verify, winners);
    OnCourseEndsAsDetermined(Run(mode, s, w, verify), winners);
  }

  /** Sequential or on a pool, in any completion order: the same node statuses, the same completed
      and failed sets, the same plan status. */
  lemma RunsAreConfluent(p: Plan, f: (Id, nat) -> bool, mode: Mode, w: World, verify: bool, tick: nat,
                         mode': Mode, w': World, verify': bool, tick': nat)
    requires Fresh(p) && Steady(w, f) && Steady(w', f) && w.executor == w'.executor
    ensures
      var q := Run(mode, Start(p, tick), w, verify).plan;
      var q' := Run(mode', Start(p, tick'), w', verify').plan;
      && q.nodes.Keys == q'.nodes.Keys == p.nodes.Keys
      && (forall id | id in p.nodes :: q.nodes[id].status == q'.nodes[id].status)
      && q.completed == q'.completed && q.failed == q'.failed && q.status == q'.status
  {
    hide Run, EndsAsDetermined, Wins, Outcome, PlanGraph;
    SteadyRunIsDetermined(mode, p, w, f, verify, tick);
    SteadyRunIsDetermined(mode', p, w', f, verify', tick');
    var q := Run(mode, Start(p, tick), w, verify).plan;
    var q' := Run(mode', Start(p, tick'), w', verify').plan;
    SameGraph(p, q);
    SameGraph(p, q');
    assert Winners(p, w.executor, f) == Winners(p, w'.executor, f);
    DeterminedIsUnique(q, q', Winners(p, w.executor, f));
  }

  lemma DeterminedIsUnique(q: Plan, q': Plan, winners: set<Id>)
    requires q.nodes.Keys == q'.nodes.Keys && PlanGraph(q) == PlanGraph(q')
    requires EndsAsDetermined(q, winners, q.completed) && EndsAsDetermined(q', winners, q'.completed)
    ensures forall id | id in q.nodes :: q.nodes[id].status == q'.nodes[id].status
    ensures q.completed == q'.completed && q.failed == q'.failed
    ensures Outcome(false, q) == Outcome(false, q')
  {
    LeastIsUnique(PlanGraph(q), winners, q.completed, q'.completed);
    forall id | id in q.nodes ensures q.nodes[id].status == q'.nodes[id].status {
      assert id in q'.nodes.Keys;
    }
    assert q.failed == q'.failed;
    assert |q.nodes| == |q.nodes.Keys| && |q'.nodes| == |q'.nodes.Keys|;
  }
}
