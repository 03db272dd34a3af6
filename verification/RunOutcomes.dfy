/** How the nodes of a run end, told from the answers of the executor, the verification and the router. */
module RunOutcomes {
  import opened Collections
  import opened Graphs
  import opened TopologicalSort
  import opened PlanModel
  import opened PlanRuns
  import opened PlanTheorems
  import opened NodeOutcomes
  import opened PlanSteps

  // ----- what a completed node has behind it

  /** Some attempt within the retry limit returned and, where verification applies, was accepted. */
  ghost predicate SomeAttemptPassed(w: World, id: Id, applies: bool, max: nat) {
    exists t: nat, k: nat :: k <= max && Passes(w, id, applies, t, k)
  }

  /** `text` is what a node expecting `original` may come to expect. */
  ghost predicate MayExpect(w: World, original: string, text: string) {
    text == original || exists u :: w.revision(u) == Expects(text)
  }

  /** Without looking at cancellation: only an attempt that passes completes a node. */
  lemma {:induction false} SucceedingPassed(s: Sys, w: World, id: Id, verify: bool, k: nat, max: nat)
    requires id in s.plan.nodes && k <= max + 1
    ensures
      Attempts(s, w, id, verify, k, max).1 ==>
        SomeAttemptPassed(w, id, Applies(s.plan.nodes[id], w, verify), max)
    decreases max + 1 - k
  {
    hide SomeAttemptPassed;
    if k <= max {
      var (t, outcome) := TryOnce(s, w, id, verify, k);
      OneTry(s, w, id, verify, k, max);
      if outcome == PlanModel.Again { SucceedingPassed(t, w, id, verify, k + 1, max); }
    }
  }

  lemma OneTry(s: Sys, w: World, id: Id, verify: bool, k: nat, max: nat)
    requires id in s.plan.nodes && k <= max
    ensures
      var (t, outcome) := TryOnce(s, w, id, verify, k);
      && (outcome == Succeeded ==> SomeAttemptPassed(w, id, Applies(s.plan.nodes[id], w, verify), max))
      && (outcome == PlanModel.Again ==>
            id in t.plan.nodes && t.plan.nodes[id].expected == s.plan.nodes[id].expected)
  {
    if TryOnce(s, w, id, verify, k).1 == Succeeded {
      assert Passes(w, id, Applies(s.plan.nodes[id], w, verify), s.tick, k);
    }
  }

  /** `n` is where a run from `m` may have brought a node: it expects what it did or what a revision asked
      for, and if it has COMPLETED, an attempt passed. */
  ghost predicate Earned(w: World, verify: bool, id: Id, m: Node, n: Node) {
    && n.deps == m.deps && n.maxRetries == m.maxRetries && MayExpect(w, m.expected, n.expected)
    && (n.status == Completed && m.status != Completed ==>
          SomeAttemptPassed(w, id, Applies(n, w, verify), n.maxRetries))
  }

  ghost predicate AllEarned(p: Plan, w: World, verify: bool, q: Plan) {
    q.nodes.Keys == p.nodes.Keys && forall id | id in p.nodes :: Earned(w, verify, id, p.nodes[id], q.nodes[id])
  }

  lemma RunNodeEarns(p: Plan, s: Sys, w: World, verify: bool, id: Id)
    requires id in s.plan.nodes && IsReady(s.plan, id) && AllEarned(p, w, verify, s.plan)
    ensures AllEarned(p, w, verify, RunNode(s, w, id, verify).0.plan)
  {
    RunNodeRuns(s, w, id, verify);
    var n := s.plan.nodes[id];
    var s0 := Put(s, id, n.(status := Running)).(runs := s.runs + 1);
    SucceedingPassed(s0, w, id, verify, 0, n.maxRetries);
    hide Attempts, SomeAttemptPassed, MayExpect, IsReady;
  }

  lemma ReplanEarns(p: Plan, s: Sys, w: World, verify: bool, id: Id)
    requires id in s.plan.nodes && AllEarned(p, w, verify, s.plan)
    requires s.plan.nodes[id].status != Pending && s.plan.nodes[id].status != Completed
    ensures AllEarned(p, w, verify, TryReplan(s, w, id).plan)
  {
    ReplanOutcome(s, w, id);
    hide TryReplan, SomeAttemptPassed;
  }

  lemma StepsEarn(p: Plan, w: World, verify: bool)
    ensures StepsKeep(w, verify, (q: Plan) => AllEarned(p, w, verify, q))
  {
    var inv := (q: Plan) => AllEarned(p, w, verify, q);
    hide RunNode, TryReplan, IsReady, Sound, Earned;
    forall s, id | Sound(s) && Justified(s, w) && id in s.plan.nodes && IsReady(s.plan, id) && inv(s.plan)
      ensures inv(RunNode(s, w, id, verify).0.plan)
    {
      RunNodeEarns(p, s, w, verify, id);
    }
    forall s, id | Sound(s) && Justified(s, w) && id in s.plan.nodes && inv(s.plan)
      && s.plan.nodes[id].status != Pending && s.plan.nodes[id].status != Completed
      ensures inv(TryReplan(s, w, id).plan)
    {
      ReplanEarns(p, s, w, verify, id);
    }
  }

  /** In every run, cancelled or not: a node that becomes COMPLETED has had an attempt within its retry
      limit that returned and, where verification applies to what it expects, was accepted. */
  lemma CompletedMeansPassed(mode: Mode, p: Plan, w: World, verify: bool, tick: nat)
    requires Startable(p) && Scheduling(w)
    ensures
      var t := Run(mode, Start(p, tick), w, verify);
      && t.plan.nodes.Keys == p.nodes.Keys
      && forall id | id in p.nodes :: Earned(w, verify, id, p.nodes[id], t.plan.nodes[id])
  {
    var inv := (q: Plan) => AllEarned(p, w, verify, q);
    StepsEarn(p, w, verify);
    StartedIsSound(p, tick);
    assert inv(Start(p, tick).plan);
    RunKeeps(mode, Start(p, tick), w, verify, inv);
  }

  /** A node whose every verification is rejected never completes, unless a revision asks for no
      verification. */
  lemma RejectedNeverCompletes(mode: Mode, p: Plan, w: World, tick: nat, id: Id)
    requires Startable(p) && Scheduling(w) && id in p.nodes && p.nodes[id].status != Completed
    requires w.router && p.nodes[id].expected != "" && forall u :: !w.accepts(u) && w.revision(u) != Expects("")
    ensures
      var t := Run(mode, Start(p, tick), w, true);
      id in t.plan.nodes && t.plan.nodes[id].status != Completed && id !in t.plan.completed
  {
    StartedIsSound(p, tick);
    hide Run, StepsKeep, Startable;
    CompletedMeansPassed(mode, p, w, true, tick);
    EveryRunIsSafe(mode, p, w, true, tick);
    var t := Run(mode, Start(p, tick), w, true);
    assert Earned(w, true, id, p.nodes[id], t.plan.nodes[id]);
  }

  // ----- how every node of an uncancelled run ends

  /** Of an execution begun at tick `t`, some attempt within the retry limit passes. */
  ghost predicate Won(w: World, id: Id, applies: bool, t: nat, max: nat) {
    exists k: nat :: k <= max && AttemptPasses(w, id, applies, t, k)
  }

  /** A COMPLETED node has had an execution with a passing attempt; one that FAILED or is REPLANNING has
      had one in which every attempt up to the limit failed, and has counted those. */
  ghost predicate Settled(w: World, verify: bool, id: Id, n: Node) {
    var applies := Applies(n, w, verify);
    && (n.status == Completed ==> exists t :: Won(w, id, applies, t, n.maxRetries))
    && (n.status == Failed || n.status == Replanning ==>
          n.retries == n.maxRetries + 1 && exists t :: !Won(w, id, applies, t, n.maxRetries))
  }

  ghost predicate AllSettled(w: World, verify: bool, q: Plan) {
    forall id | id in q.nodes :: Settled(w, verify, id, q.nodes[id])
  }

  lemma RunNodeSettles(s: Sys, w: World, verify: bool, id: Id)
    requires id in s.plan.nodes && AllSettled(w, verify, s.plan) && !s.cancelled && forall t :: !w.cancels(t)
    ensures AllSettled(w, verify, RunNode(s, w, id, verify).0.plan)
  {
    hide RunNode, AttemptPasses, FirstPass, Settled, EndsCompleted, EndsFailed;
    NodeOutcome(s, w, id, verify);
    var n, r := s.plan.nodes[id], RunNode(s, w, id, verify);
    var j := FirstPass(w, id, Applies(n, w, verify), s.tick, 0, n.maxRetries);
    OneSettles(s.plan, r.0.plan, w, verify, id, s.tick, r.1, if j == 0 then n.retries else j);
  }

  lemma OneSettles(p: Plan, q: Plan, w: World, verify: bool, id: Id, t: nat, ok: bool, retries: nat)
    requires id in p.nodes && AllSettled(w, verify, p)
    requires var n := p.nodes[id];
      if ok then EndsCompleted(p, q, id, retries) && Won(w, id, Applies(n, w, verify), t, n.maxRetries)
      else EndsFailed(p, q, id, n.maxRetries + 1) && !Won(w, id, Applies(n, w, verify), t, n.maxRetries)
    ensures AllSettled(w, verify, q)
  {
    assert Applies(q.nodes[id], w, verify) == Applies(p.nodes[id], w, verify);
    hide Won, Applies;
  }

  lemma ReplanSettles(s: Sys, w: World, verify: bool, id: Id)
    requires id in s.plan.nodes && AllSettled(w, verify, s.plan) && Sound(s) && !s.cancelled
    requires s.plan.nodes[id].status != Pending && s.plan.nodes[id].status != Completed
    ensures AllSettled(w, verify, TryReplan(s, w, id).plan)
  {
    ReplanOutcome(s, w, id);
    hide TryReplan, Won, Settled, Listed, Recorded, Closed;
    assert s.plan.nodes[id].status in {Failed, Replanning};
    var n, m := s.plan.nodes[id], TryReplan(s, w, id).plan.nodes[id];
    assert Settled(w, verify, id, n);
    assert m.status == Pending || m == n || m == n.(status := Replanning);
    ReplanningSettled(w, verify, id, n, m);
  }

  lemma ReplanningSettled(w: World, verify: bool, id: Id, n: Node, m: Node)
    requires Settled(w, verify, id, n) && n.status in {Failed, Replanning}
    requires m.status == Pending || m == n || m == n.(status := Replanning)
    ensures Settled(w, verify, id, m)
  {
    hide Won;
    if m.status == Replanning {
      assert Applies(m, w, verify) == Applies(n, w, verify);
      var t :| !Won(w, id, Applies(n, w, verify), t, n.maxRetries);
      assert !Won(w, id, Applies(m, w, verify), t, m.maxRetries);
    }
  }

  lemma StepsSettle(w: World, verify: bool)
    requires forall t :: !w.cancels(t)
    ensures StepsKeep(w, verify, (q: Plan) => AllSettled(w, verify, q))
  {
    var inv := (q: Plan) => AllSettled(w, verify, q);
    hide RunNode, TryReplan, IsReady, Sound, Settled;
    forall s, id | Sound(s) && Justified(s, w) && id in s.plan.nodes && IsReady(s.plan, id) && inv(s.plan)
      ensures inv(RunNode(s, w, id, verify).0.plan)
    {
      RunNodeSettles(s, w, verify, id);
    }
    forall s, id | Sound(s) && Justified(s, w) && id in s.plan.nodes && inv(s.plan)
      && s.plan.nodes[id].status != Pending && s.plan.nodes[id].status != Completed
      ensures inv(TryReplan(s, w, id).plan)
    {
      ReplanSettles(s, w, verify, id);
    }
  }

  /** A run that nobody cancels leaves every node PENDING, COMPLETED after an execution of which an attempt
      passed, or FAILED or REPLANNING after one of which all `max_retries + 1` attempts failed. */
  lemma NodesEndAsAnswered(mode: Mode, p: Plan, w: World, verify: bool, tick: nat)
    requires Fresh(p) && Scheduling(w) && forall t :: !w.cancels(t)
    ensures Startable(p)
    ensures
      var t := Run(mode, Start(p, tick), w, verify);
      && !t.cancelled && t.plan.nodes.Keys == p.nodes.Keys
      && forall id | id in p.nodes ::
           t.plan.nodes[id].status in {Pending, Completed, Failed, Replanning}
           && Settled(w, verify, id, t.plan.nodes[id])
  {
    hide StepsKeep, Settled;
    FreshIsStartable(p);
    StartedIsSound(p, tick);
    var s := Start(p, tick);
    var inv := (q: Plan) => AllSettled(w, verify, q);
    StepsSettle(w, verify);
    FreshSettled(p, w, verify);
    assert inv(s.plan);
    RunKeeps(mode, s, w, verify, inv);
    NeverCancelled(mode, s, w, verify);
    assert !s.cancelled;
    hide *;
    RunAdvances(mode, s, w, verify, 0);
    EndStatuses(p, tick, Run(mode, s, w, verify), w, verify);
  }

  lemma EndStatuses(p: Plan, tick: nat, t: Sys, w: World, verify: bool)
    requires Advances(Start(p, tick), t, 0)
    requires !t.cancelled && AllSettled(w, verify, t.plan)
    ensures t.plan.nodes.Keys == p.nodes.Keys
    ensures forall id | id in p.nodes ::
      t.plan.nodes[id].status in {Pending, Completed, Failed, Replanning} && Settled(w, verify, id, t.plan.nodes[id])
  {
    hide Settled, CallsWithin, PendingIds, Closed, Listed, Recorded;
  }

  lemma FreshSettled(p: Plan, w: World, verify: bool)
    requires Fresh(p)
    ensures AllSettled(w, verify, Start(p, 0).plan)
  {
  }

  lemma {:induction false} NeverCancelled(mode: Mode, s: Sys, w: World, verify: bool)
    requires Sound(s) && Scheduling(w) && !s.cancelled && forall t :: !w.cancels(t)
    ensures !Run(mode, s, w, verify).cancelled
    decreases Fuel(s.plan)
  {
    hide Round, ReadyAmong, CallsWithin;
    var s1 := Poll(s, w);
    ReadyIsReady(s1.plan);
    var batch := Ready(s1.plan);
    if batch != [] {
      RoundAdvances(mode, s1, w, verify, batch, 0);
      RoundJustified(mode, s1, w, verify, batch);
      NeverCancelled(mode, Round(mode, s1, w, verify, batch), w, verify);
    }
  }

  lemma RoundJustified(mode: Mode, s: Sys, w: World, verify: bool, batch: seq<Id>)
    requires Sound(s) && Justified(s, w) && BatchReady(s.plan, batch) && Scheduling(w)
    ensures Justified(Round(mode, s, w, verify, batch), w)
  {
    var inv := (q: Plan) => true;
    RoundKeeps(mode, s, w, verify, batch, inv);
  }
}
