/** A step that fails, is replanned and then succeeds leaves a complete plan whose status is PARTIAL. */
module PartialSuccess {
  import opened Collections
  import opened Graphs
  import opened PlanModel
  import opened PlanRuns
  import opened PlanTheorems

  /** While every executor call raises, `_execute_node` uses up its retries and marks the node failed. */
  lemma {:induction false} AttemptsAllRaise(s: Sys, w: World, id: Id, verify: bool, k: nat, max: nat)
    requires id in s.plan.nodes && k <= max + 1 && w.executor && !s.cancelled
    requires forall t :: !w.cancels(t)
    requires forall t: nat, x: Id, j: nat | t < s.tick + 2 * (max + 1 - k) :: !w.succeeds(t, x, j)
    ensures
      var (t, ok) := Attempts(s, w, id, verify, k, max);
      && !ok && !t.cancelled && t.tick == s.tick + 2 * (max + 1 - k)
      && t.plan == MarkFailed(s, id).plan.(nodes := t.plan.nodes)
      && t.plan.nodes == s.plan.nodes[id := s.plan.nodes[id].(
           status := Failed, retries := if k <= max then max + 1 else s.plan.nodes[id].retries)]
    decreases max + 1 - k
  {
    if k <= max {
      var (t, outcome) := TryOnce(s, w, id, verify, k);
      AttemptsAllRaise(t, w, id, verify, k + 1, max);
    }
  }

  /** One step with the default three retries. */
  const STEP: Id := "step1"

  function OneStep(): Plan {
    Plan(map[STEP := Node([], 3, "", Pending, 0)], [STEP], {}, {}, 0, 5, PlanExecuting)
  }

  /** The executor raises until the first revision has been given. */
  function LateExecutor(): World {
    World(true, true, (t, id, k) => t >= 11, t => true, t => KeepsExpectation, t => false, (t, batch) => batch)
  }

  lemma FirstAttempts(s: Sys)
    requires s == Sys(OneStep(), false, 2, 0, 0, s.rounds)
    ensures
      var (t, ok) := RunNode(s, LateExecutor(), STEP, true);
      && !ok && !t.cancelled && t.tick == 10
      && t.plan == OneStep().(nodes := map[STEP := Node([], 3, "", Failed, 4)], failed := {STEP})
  {
    var w := LateExecutor();
    var s0 := Put(s, STEP, s.plan.nodes[STEP].(status := Running)).(runs := s.runs + 1);
    AttemptsAllRaise(s0, w, STEP, true, 0, 3);
    var t := RunNode(s, w, STEP, true).0;
    assert t.plan.nodes == map[STEP := Node([], 3, "", Failed, 4)];
  }

  lemma FirstRound(s: Sys)
    requires s == Sys(OneStep(), false, 1, 0, 0, s.rounds)
    ensures
      var t := SequentialBatch(s, LateExecutor(), true, [STEP]);
      && t.plan == OneStep().(nodes := map[STEP := Node([], 3, "", Pending, 4)], failed := {STEP}, replans := 1)
      && !t.cancelled && t.tick == 11
  {
    hide RunNode, TryReplan, LateExecutor;
    var w, s1 := LateExecutor(), Poll(s, LateExecutor());
    LateFacts();
    FirstAttempts(s1);
    KeysKept(s1, w, STEP, true);
    FirstReplan(RunNode(s1, w, STEP, true).0);
    assert [STEP][1..] == [];
  }

  lemma LateFacts()
    ensures forall t :: !LateExecutor().cancels(t)
  {
  }

  lemma FirstReplan(s: Sys)
    requires s.plan == OneStep().(nodes := map[STEP := Node([], 3, "", Failed, 4)], failed := {STEP})
    requires !s.cancelled && s.tick == 10
    ensures
      var t := TryReplan(s, LateExecutor(), STEP);
      && t.plan == OneStep().(nodes := map[STEP := Node([], 3, "", Pending, 4)], failed := {STEP}, replans := 1)
      && !t.cancelled && t.tick == 11
  {
    assert TryReplan(s, LateExecutor(), STEP).plan.nodes == map[STEP := Node([], 3, "", Pending, 4)];
  }

  lemma SecondRound(s: Sys)
    requires s.plan.nodes == map[STEP := Node([], 3, "", Pending, 4)] && !s.cancelled && s.tick == 12
    requires s.plan.completed == {} && s.plan.failed == {STEP}
    ensures
      var t := SequentialBatch(s, LateExecutor(), true, [STEP]);
      && t.plan.nodes == map[STEP := Node([], 3, "", Completed, 4)] && t.plan.failed == {STEP}
      && t.plan.order == s.plan.order && !t.cancelled
  {
    hide RunNode, TryReplan, LateExecutor;
    LateFacts();
    LateAttempt(Poll(s, LateExecutor()));
    assert [STEP][1..] == [];
  }

  lemma LateAttempt(s: Sys)
    requires s.plan.nodes == map[STEP := Node([], 3, "", Pending, 4)] && !s.cancelled && s.tick == 13
    ensures
      var (t, ok) := RunNode(s, LateExecutor(), STEP, true);
      && ok && t.plan.nodes == map[STEP := Node([], 3, "", Completed, 4)] && t.plan.failed == s.plan.failed
      && t.plan.order == s.plan.order && !t.cancelled
  {
    var w := LateExecutor();
    var s0 := Put(s, STEP, s.plan.nodes[STEP].(status := Running)).(runs := s.runs + 1);
    var (t, outcome) := TryOnce(s0, w, STEP, true, 0);
    assert outcome == Succeeded;
    assert t.plan.nodes == map[STEP := Node([], 3, "", Completed, 4)];
  }

  lemma ReadyStep(p: Plan)
    requires p.nodes.Keys == {STEP} && p.order == [STEP] && p.nodes[STEP].deps == []
    ensures Elems(p.order) == p.nodes.Keys
    ensures Ready(p) == if p.nodes[STEP].status == Pending then [STEP] else []
  {
    assert forall d :: d !in p.nodes[STEP].deps;
    assert p.order[..0] == [] && ReadyAmong(p, []) == [];
    assert [] + [STEP] == [STEP];
  }

  /** A turn of the loop that finds `batch` ready. */
  lemma OneMoreRound(mode: Mode, s: Sys, w: World, verify: bool, batch: seq<Id>)
    requires Sound(s) && Scheduling(w) && !Poll(s, w).cancelled && batch != []
    requires Elems(s.plan.order) == s.plan.nodes.Keys && Ready(s.plan) == batch
    ensures AllIn(batch, s.plan)
    ensures
      var t := Round(mode, Poll(s, w), w, verify, batch);
      Sound(t) && Run(mode, s, w, verify) == Run(mode, t, w, verify)
  {
    hide Round, ReadyAmong;
    ReadyIsReady(s.plan);
    SamePlanAdvances(s, Poll(s, w), 0);
    RoundAdvances(mode, Poll(s, w), w, verify, batch, 0);
  }

  lemma ReplannedSuccessEndsPartial()
    ensures Fresh(OneStep()) && Scheduling(LateExecutor())
    ensures
      var t := Run(Sequential, Start(OneStep(), 0), LateExecutor(), true);
      !t.cancelled && IsComplete(t.plan) && t.plan.status == PlanPartial
  {
    var w, s := LateExecutor(), Start(OneStep(), 0);
    assert Fresh(OneStep()) by { assert Elems([STEP]) == {STEP}; }
    FreshIsStartable(OneStep());
    StartedIsSound(OneStep(), 0);
    var s1 := Poll(s, w);
    ReadyStep(s.plan);
    var r1 := Round(Sequential, s1, w, true, [STEP]);
    FirstRound(s1.(rounds := s1.rounds + [Elems([STEP])]));
    hide Run, LateExecutor, Fresh, Sound, ReadyAmong, IsReady, Startable, SequentialBatch;
    OneMoreRound(Sequential, s, w, true, [STEP]);
    SecondTurn(r1);
    hide Round;
    FinalStatusAccounting(Sequential, OneStep(), w, true, 0);
  }

  lemma SecondTurn(r1: Sys)
    requires Sound(r1) && r1.plan.nodes == map[STEP := Node([], 3, "", Pending, 4)] && r1.plan.order == [STEP]
    requires r1.plan.completed == {} && r1.plan.failed == {STEP} && !r1.cancelled && r1.tick == 11
    ensures Scheduling(LateExecutor())
    ensures
      var t := Run(Sequential, r1, LateExecutor(), true);
      !t.cancelled && IsComplete(t.plan) && t.plan.failed == {STEP}
  {
    var w := LateExecutor();
    var s2 := Poll(r1, w);
    ReadyStep(s2.plan);
    RoundAdvances(Sequential, s2, w, true, [STEP], 0);
    SecondRound(s2.(rounds := s2.rounds + [Elems([STEP])]));
    var r2 := Round(Sequential, s2, w, true, [STEP]);
    assert Run(Sequential, r1, w, true) == Run(Sequential, r2, w, true);
    ReadyStep(Poll(r2, w).plan);
  }
}
