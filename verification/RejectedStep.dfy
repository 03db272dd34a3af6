/** A step whose executor calls all return and whose verifications are all rejected: it uses up its
retries and the plan FAILS, in either mode. */
module RejectedStep {
  import opened Collections
  import opened Graphs
  import opened PlanModel
  import opened PlanRuns
  import opened PlanTheorems
  import opened PartialSuccess
  import opened NodeOutcomes
  import opened PlanSteps

  /** One step with the default three retries that expects an open window. */
  function Expecting(status: NodeStatus, retries: nat): map<Id, Node> {
    map[STEP := Node([], 3, "window open", status, retries)]
  }

  function WindowPlan(): Plan {
    Plan(Expecting(Pending, 0), [STEP], {}, {}, 0, 5, PlanPlanning)
  }

  /** Every executor call returns, every verification is rejected and no revision is usable. */
  function Rejecting(): World {
    World(true, true, (t, id, k) => true, t => false, t => Unusable, t => false, (t, batch) => batch)
  }

  lemma RejectedNode(s: Sys)
    requires s.plan.nodes == Expecting(Pending, 0) && !s.cancelled
    ensures
      var (t, ok) := RunNode(s, Rejecting(), STEP, true);
      && !ok && !t.cancelled && t.runs == s.runs + 1 && t.calls == s.calls + 4
      && t.plan == s.plan.(nodes := Expecting(Failed, 4), failed := s.plan.failed + {STEP})
  {
    var w := Rejecting();
    NoneAccepted(s.tick);
    hide RunNode, AttemptPasses;
    NodeOutcome(s, w, STEP, true);
    assert s.plan.nodes[STEP := s.plan.nodes[STEP].(status := Failed, retries := 4)] == Expecting(Failed, 4);
  }

  lemma NoneAccepted(t: nat)
    ensures forall i: nat :: !AttemptPasses(Rejecting(), STEP, true, t, i)
    ensures forall u :: !Rejecting().cancels(u)
  {
  }

  /** The revision being unusable, the failed node is left REPLANNING. */
  lemma RejectedReplan(s: Sys)
    requires s.plan.nodes == Expecting(Failed, 4) && s.plan.replans < s.plan.maxReplans
    ensures
      var t := TryReplan(s, Rejecting(), STEP);
      t.plan == s.plan.(nodes := Expecting(Replanning, 4)) && t.cancelled == s.cancelled
      && t.runs == s.runs && t.calls == s.calls
  {
    ReplanOutcome(s, Rejecting(), STEP);
    assert s.plan.nodes[STEP := s.plan.nodes[STEP].(status := Replanning)] == Expecting(Replanning, 4);
  }

  lemma RejectedRound(mode: Mode, s: Sys)
    requires s.plan == WindowPlan().(status := PlanExecuting) && !s.cancelled
    ensures Scheduling(Rejecting())
    ensures
      var t := Round(mode, s, Rejecting(), true, [STEP]);
      && !t.cancelled && t.runs == s.runs + 1 && t.calls == s.calls + 4
      && t.plan == s.plan.(nodes := Expecting(Replanning, 4), failed := {STEP})
  {
    var w := Rejecting();
    var s1 := s.(rounds := s.rounds + [Elems([STEP])]);
    NoneAccepted(0);
    assert [STEP][1..] == [] && {} + {STEP} == {STEP};
    match mode {
      case Sequential =>
        var s2 := Poll(s1, w);
        RejectedNode(s2);
        RejectedReplan(RunNode(s2, w, STEP, true).0);
      case Parallel =>
        var s2 := Asked(s1);
        RejectedNode(s2);
        RejectedReplan(RunNode(s2, w, STEP, true).0);
        assert [false] + [] == [false] && [false][1..] == [];
        assert PoolBatch(RunNode(s2, w, STEP, true).0, w, true, []).1 == [];
    }
    hide RunNode, TryReplan;
  }

  /** With the node REPLANNING nothing is ready, and nothing has completed. */
  lemma RejectedEnd(mode: Mode, s: Sys)
    requires Sound(s) && !s.cancelled
    requires s.plan == WindowPlan().(status := PlanExecuting, nodes := Expecting(Replanning, 4), failed := {STEP})
    ensures Scheduling(Rejecting())
    ensures
      var t := Run(mode, s, Rejecting(), true);
      && !t.cancelled && t.plan == s.plan.(status := PlanFailed) && t.runs == s.runs && t.calls == s.calls
  {
    hide Round, Sound;
    ReadyStep(Poll(s, Rejecting()).plan);
  }

  /** The run ends FAILED after one execution of four calls; nothing has completed. */
  lemma RejectedStepFails(mode: Mode)
    ensures Fresh(WindowPlan()) && Startable(WindowPlan()) && Scheduling(Rejecting())
    ensures
      var t := Run(mode, Start(WindowPlan(), 0), Rejecting(), true);
      && !t.cancelled && t.plan.status == PlanFailed && t.runs == 1 && t.calls == 4
      && t.plan.completed == {} && t.plan.failed == {STEP} && t.plan.nodes == Expecting(Replanning, 4)
  {
    assert Fresh(WindowPlan()) by { assert Elems([STEP]) == {STEP}; }
    FreshIsStartable(WindowPlan());
    StartedIsSound(WindowPlan(), 0);
    NoneAccepted(0);
    var w, s := Rejecting(), Start(WindowPlan(), 0);
    var s1 := Poll(s, w);
    ReadyStep(s1.plan);
    RejectedRound(mode, s1);
    hide Run, Round, Rejecting, Fresh, Sound, ReadyAmong, IsReady, Startable;
    OneMoreRound(mode, s, w, true, [STEP]);
    RejectedEnd(mode, Round(mode, s1, w, true, [STEP]));
  }
}
