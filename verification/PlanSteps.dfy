/** What replanning, cancelling and finishing do, and what whole runs keep, told from the world's answers. */
module PlanSteps {
  import opened Collections
  import opened Graphs
  import opened TopologicalSort
  import opened PlanModel
  import opened PlanRuns
  import opened PlanTheorems
  import opened NodeOutcomes

  // ----- replanning one node

  /** The plan with `id` PENDING again under the given expectation, one replan spent. */
  function Again(p: Plan, id: Id, expected: string): Plan
    requires id in p.nodes
  {
    p.(nodes := p.nodes[id := p.nodes[id].(status := Pending, expected := expected)], replans := p.replans + 1)
  }

  /** A node that did not complete is replanned exactly while replans are left and a router is configured:
      at once if it has retries left, else as the router's reply says. */
  lemma ReplanOutcome(s: Sys, w: World, id: Id)
    requires id in s.plan.nodes && s.plan.nodes[id].status != Completed
    ensures
      var n, t := s.plan.nodes[id], TryReplan(s, w, id);
      && t.cancelled == s.cancelled && t.runs == s.runs && t.calls == s.calls && t.rounds == s.rounds
      && if s.plan.replans >= s.plan.maxReplans || !w.router then t == s
         else if n.retries < n.maxRetries then t.tick == s.tick && t.plan == Again(s.plan, id, n.expected)
         else
           && t.tick == s.tick + 1
           && match w.revision(s.tick)
              case Unusable => t.plan == s.plan.(nodes := s.plan.nodes[id := n.(status := Replanning)])
              case KeepsExpectation => t.plan == Again(s.plan, id, n.expected)
              case Expects(text) => t.plan == Again(s.plan, id, text)
  {
    var n := s.plan.nodes[id];
    var r, u := n.(status := Replanning), n.(status := Pending);
    assert s.plan.nodes[id := u][id := u] == s.plan.nodes[id := u];
    assert s.plan.nodes[id := r][id := u] == s.plan.nodes[id := u];
    if w.revision(s.tick).Expects? {
      var v := u.(expected := w.revision(s.tick).text);
      assert s.plan.nodes[id := r][id := v][id := v] == s.plan.nodes[id := v];
    }
  }

  // ----- cancelling

  /** Once cancelled, a node's execution makes no call and leaves the node RUNNING. */
  lemma CancelledNode(s: Sys, w: World, id: Id, verify: bool)
    requires id in s.plan.nodes && s.cancelled
    ensures
      var (t, ok) := RunNode(s, w, id, verify);
      && !ok && t.cancelled && t.calls == s.calls
      && t.plan == s.plan.(nodes := s.plan.nodes[id := s.plan.nodes[id].(status := Running)])
  {
  }

  /** A run that is cancelled when it polls executes nothing more and ends CANCELLED. */
  lemma CancelledRunStops(mode: Mode, s: Sys, w: World, verify: bool)
    requires Sound(s) && Scheduling(w) && (s.cancelled || w.cancels(s.tick))
    ensures
      var t := Run(mode, s, w, verify);
      && t.cancelled && t.plan == s.plan.(status := PlanCancelled)
      && t.runs == s.runs && t.calls == s.calls && t.rounds == s.rounds
  {
    hide Round, Ready;
  }

  /** A sequential round stops before the next node once cancelled. */
  lemma CancelledBatchStops(s: Sys, w: World, verify: bool, batch: seq<Id>)
    requires AllIn(batch, s.plan) && (s.cancelled || w.cancels(s.tick))
    ensures
      var t := SequentialBatch(s, w, verify, batch);
      t.plan == s.plan && t.runs == s.runs && t.calls == s.calls
  {
  }

  // ----- the order of a round

  /** The ready nodes come in execution order. */
  lemma {:induction false} ReadyFollowsOrder(p: Plan, order: seq<Id>)
    requires NoDup(order) && forall id | id in order :: id in p.nodes
    ensures
      var ready := ReadyAmong(p, order);
      forall i, j, a, b | 0 <= i < j < |ready| && 0 <= a < |order| && 0 <= b < |order|
        && order[a] == ready[i] && order[b] == ready[j] :: a < b
    decreases |order|
  {
    hide IsReady;
    if order != [] {
      var init, last := order[..|order| - 1], order[|order| - 1];
      ReadyFollowsOrder(p, init);
      ReadyAmongIsReady(p, init);
      var ready, before := ReadyAmong(p, order), ReadyAmong(p, init);
      forall i, j, a, b | 0 <= i < j < |ready| && 0 <= a < |order| && 0 <= b < |order|
        && order[a] == ready[i] && order[b] == ready[j] ensures a < b
      {
        assert ready[i] == before[i] && before[i] in before;
        assert before[i] in init;
        if b < |init| {
          assert order[b] == init[b];
          if j < |before| {
            assert init[a] == before[i] && init[b] == before[j];
          }
        }
      }
    }
  }

  /** A sequential round executes its nodes in order, each after the ones before it have been executed and
      replanned; once cancelled it executes nothing more. */
  lemma {:induction false} SequentialInOrder(s: Sys, w: World, verify: bool, batch: seq<Id>, i: nat)
    requires i < |batch| && AllIn(batch, s.plan)
    ensures AllIn(batch[..i], s.plan) && AllIn(batch[..i + 1], s.plan)
    ensures
      var t, u := SequentialBatch(s, w, verify, batch[..i]), SequentialBatch(s, w, verify, batch[..i + 1]);
      && batch[i] in t.plan.nodes
      && (t.cancelled ==> u.plan == t.plan && u.runs == t.runs && u.calls == t.calls && u.cancelled)
      && (!t.cancelled ==>
            u == if w.cancels(t.tick) then Poll(t, w) else SequentialStep(Poll(t, w), w, verify, batch[i]))
    decreases i
  {
    hide SequentialStep;
    assert forall id | id in batch[..i] || id in batch[..i + 1] :: id in batch;
    var s1 := Poll(s, w);
    if i == 0 {
      var one := batch[..1];
      assert batch[..0] == [] && one[0] == batch[0] && one[1..] == [];
    } else if !s1.cancelled {
      var s2 := SequentialStep(s1, w, verify, batch[0]);
      SequentialInOrder(s2, w, verify, batch[1..], i - 1);
      assert batch[..i][1..] == batch[1..][..i - 1] && batch[..i + 1][1..] == batch[1..][..i];
      assert batch[..i][0] == batch[0] == batch[..i + 1][0] && batch[1..][i - 1] == batch[i];
    }
  }

  /** The nodes are executed one after the other, through the states `ss`. */
  ghost predicate Executes(ss: seq<Sys>, w: World, verify: bool, order: seq<Id>, oks: seq<bool>) {
    && |ss| == |order| + 1 && |oks| == |order|
    && forall i | 0 <= i < |order| ::
         order[i] in ss[i].plan.nodes && (ss[i + 1], oks[i]) == RunNode(ss[i], w, order[i], verify)
  }

  /** Those that failed are replanned one after the other. */
  ghost predicate Replans(ss: seq<Sys>, w: World, order: seq<Id>, oks: seq<bool>) {
    && |ss| == |order| + 1 && |oks| == |order|
    && forall i | 0 <= i < |order| ::
         order[i] in ss[i].plan.nodes && ss[i + 1] == if oks[i] then ss[i] else TryReplan(ss[i], w, order[i])
  }

  lemma {:induction false} PoolExecutes(s: Sys, w: World, verify: bool, order: seq<Id>) returns (ss: seq<Sys>)
    requires AllIn(order, s.plan)
    ensures
      var (t, oks) := PoolBatch(s, w, verify, order);
      Executes(ss, w, verify, order, oks) && ss[0] == s && ss[|order|] == t
    decreases |order|
  {
    hide RunNode;
    if order == [] {
      ss := [s];
    } else {
      KeysKept(s, w, order[0], verify);
      var (s1, ok) := RunNode(s, w, order[0], verify);
      var rest := PoolExecutes(s1, w, verify, order[1..]);
      var oks := PoolBatch(s1, w, verify, order[1..]).1;
      ss := [s] + rest;
      forall i | 0 <= i < |order| ensures
        order[i] in ss[i].plan.nodes && (ss[i + 1], ([ok] + oks)[i]) == RunNode(ss[i], w, order[i], verify)
      {
        if i > 0 { assert order[i] == order[1..][i - 1] && ss[i] == rest[i - 1] && ss[i + 1] == rest[i]; }
      }
    }
  }

  lemma {:induction false} ReplansFollow(s: Sys, w: World, order: seq<Id>, oks: seq<bool>) returns (ss: seq<Sys>)
    requires AllIn(order, s.plan) && |oks| == |order|
    ensures Replans(ss, w, order, oks) && ss[0] == s && ss[|order|] == ReplanAll(s, w, order, oks)
    decreases |order|
  {
    hide TryReplan;
    if order == [] {
      ss := [s];
    } else {
      ReplanKeepsKeys(s, w, order[0]);
      var s1 := if oks[0] then s else TryReplan(s, w, order[0]);
      var rest := ReplansFollow(s1, w, order[1..], oks[1..]);
      ss := [s] + rest;
      forall i | 0 <= i < |order| ensures
        order[i] in ss[i].plan.nodes && ss[i + 1] == if oks[i] then ss[i] else TryReplan(ss[i], w, order[i])
      {
        if i > 0 { assert order[i] == order[1..][i - 1] && oks[i] == oks[1..][i - 1] && ss[i] == rest[i - 1]; }
      }
    }
  }

  /** A pool round executes all of its nodes, cancelled or not, in the order in which they finish, and only
      then replans those that failed, in the same order. */
  lemma PoolRoundSteps(s: Sys, w: World, verify: bool, batch: seq<Id>)
    returns (order: seq<Id>, oks: seq<bool>, runs: seq<Sys>, replans: seq<Sys>)
    requires Scheduling(w) && AllIn(batch, s.plan)
    ensures multiset(order) == multiset(batch)
    ensures Executes(runs, w, verify, order, oks) && Replans(replans, w, order, oks)
    ensures runs[0].plan == s.plan && runs[|order|] == replans[0]
    ensures replans[|order|] == Round(Parallel, s, w, verify, batch)
  {
    hide PoolBatch, ReplanAll;
    var s0 := Asked(s.(rounds := s.rounds + [Elems(batch)]));
    order := w.finishing(s.tick, batch);
    SameMembers(order, batch);
    runs := PoolExecutes(s0, w, verify, order);
    var (t, results) := PoolBatch(s0, w, verify, order);
    oks := results;
    replans := ReplansFollow(t, w, order, oks);
  }

  lemma ReplanKeepsKeys(s: Sys, w: World, id: Id)
    requires id in s.plan.nodes
    ensures TryReplan(s, w, id).plan.nodes.Keys == s.plan.nodes.Keys
  {
  }

  // ----- induction over runs

  /** Only the cancelling thread cancels. */
  ghost predicate Justified(s: Sys, w: World) {
    s.cancelled ==> exists t :: w.cancels(t)
  }

  lemma {:induction false} AttemptsJustified(s: Sys, w: World, id: Id, verify: bool, k: nat, max: nat)
    requires id in s.plan.nodes && k <= max + 1 && Justified(s, w)
    ensures Justified(Attempts(s, w, id, verify, k, max).0, w)
    decreases max + 1 - k
  {
    if k <= max {
      var (t, outcome) := TryOnce(s, w, id, verify, k);
      assert Justified(t, w);
      if outcome == PlanModel.Again { AttemptsJustified(t, w, id, verify, k + 1, max); }
    }
  }

  lemma RunNodeJustified(s: Sys, w: World, verify: bool, id: Id)
    requires id in s.plan.nodes && Justified(s, w)
    ensures Justified(RunNode(s, w, id, verify).0, w)
  {
    var n := s.plan.nodes[id];
    AttemptsJustified(Put(s, id, n.(status := Running)).(runs := s.runs + 1), w, id, verify, 0, n.maxRetries);
  }

  /** Executing a ready node keeps `inv`. */
  ghost predicate NodeRunsKeep(w: World, verify: bool, inv: Plan -> bool) {
    forall s, id | Sound(s) && Justified(s, w) && id in s.plan.nodes && IsReady(s.plan, id) && inv(s.plan) ::
      inv(RunNode(s, w, id, verify).0.plan)
  }

  /** Replanning a node that did not complete keeps `inv`. */
  ghost predicate ReplansKeep(w: World, inv: Plan -> bool) {
    forall s, id | Sound(s) && Justified(s, w) && id in s.plan.nodes && inv(s.plan)
      && s.plan.nodes[id].status != Pending && s.plan.nodes[id].status != Completed ::
      inv(TryReplan(s, w, id).plan)
  }

  ghost predicate StatusIsIgnored(inv: Plan -> bool) {
    forall p, st | inv(p) :: inv(p.(status := st))
  }

  ghost predicate StepsKeep(w: World, verify: bool, inv: Plan -> bool) {
    NodeRunsKeep(w, verify, inv) && ReplansKeep(w, inv) && StatusIsIgnored(inv)
  }

  lemma NodeRunKeeps(s: Sys, w: World, verify: bool, id: Id, inv: Plan -> bool)
    requires StepsKeep(w, verify, inv) && Sound(s) && Justified(s, w)
    requires id in s.plan.nodes && IsReady(s.plan, id) && inv(s.plan)
    ensures inv(RunNode(s, w, id, verify).0.plan)
  {
  }

  lemma ReplanKeeps(s: Sys, w: World, verify: bool, id: Id, inv: Plan -> bool)
    requires StepsKeep(w, verify, inv) && Sound(s) && Justified(s, w) && id in s.plan.nodes && inv(s.plan)
    requires s.plan.nodes[id].status != Pending && s.plan.nodes[id].status != Completed
    ensures inv(TryReplan(s, w, id).plan)
  {
  }

  lemma {:induction false} SequentialKeeps(s: Sys, w: World, verify: bool, batch: seq<Id>, inv: Plan -> bool)
    requires StepsKeep(w, verify, inv) && Sound(s) && Justified(s, w) && BatchReady(s.plan, batch) && inv(s.plan)
    ensures var t := SequentialBatch(s, w, verify, batch); inv(t.plan) && Justified(t, w)
    decreases |batch|
  {
    hide RunNode, TryReplan, Sound, SameShape, StepsKeep, CallsWithin, PendingIds;
    if batch != [] {
      var id, s1 := batch[0], Poll(s, w);
      SamePlanAdvances(s, s1, 0);
      if !s1.cancelled {
        assert id in batch;
        KeysKept(s1, w, id, verify);
        RunNodeAdvances(s1, w, id, verify, 0);
        NodeRunKeeps(s1, w, verify, id, inv);
        RunNodeJustified(s1, w, verify, id);
        var (s2, ok) := RunNode(s1, w, id, verify);
        if !ok {
          TryReplanAdvances(s2, w, id, 0);
          AdvancesTransitively(s1, s2, TryReplan(s2, w, id), 0);
          ReplanKeeps(s2, w, verify, id, inv);
        }
        var s3 := if ok then s2 else TryReplan(s2, w, id);
        OthersStayReady(s.plan, s3.plan, batch);
        SequentialKeeps(s3, w, verify, batch[1..], inv);
      }
    }
  }

  lemma {:induction false} PoolKeeps(s: Sys, w: World, verify: bool, batch: seq<Id>, inv: Plan -> bool)
    requires StepsKeep(w, verify, inv) && Sound(s) && Justified(s, w) && BatchReady(s.plan, batch) && inv(s.plan)
    ensures var t := PoolBatch(s, w, verify, batch).0; inv(t.plan) && Justified(t, w)
    decreases |batch|
  {
    hide RunNode, Sound, SameShape, StepsKeep, CallsWithin, PendingIds;
    if batch != [] {
      var id := batch[0];
      assert id in batch;
      KeysKept(s, w, id, verify);
      RunNodeAdvances(s, w, id, verify, 0);
      NodeRunKeeps(s, w, verify, id, inv);
      RunNodeJustified(s, w, verify, id);
      var (s1, ok) := RunNode(s, w, id, verify);
      OthersStayReady(s.plan, s1.plan, batch);
      PoolKeeps(s1, w, verify, batch[1..], inv);
    }
  }

  lemma PoolLeftTail(p: Plan, q: Plan, batch: seq<Id>, oks: seq<bool>)
    requires batch != [] && PoolLeft(p, batch, oks) && OthersSame(p, q, batch[0])
    ensures PoolLeft(q, batch[1..], oks[1..])
  {
    forall i | 0 <= i < |batch[1..]| ensures
      && batch[1..][i] in q.nodes && q.nodes[batch[1..][i]].status != Pending
      && (oks[1..][i] <==> q.nodes[batch[1..][i]].status == Completed)
    {
      assert batch[1..][i] == batch[i + 1] != batch[0];
    }
  }

  lemma {:induction false} ReplanAllKeeps(s: Sys, w: World, verify: bool, batch: seq<Id>, oks: seq<bool>,
                                          inv: Plan -> bool)
    requires StepsKeep(w, verify, inv) && Sound(s) && Justified(s, w) && inv(s.plan)
    requires PoolLeft(s.plan, batch, oks) && AllIn(batch, s.plan)
    ensures var t := ReplanAll(s, w, batch, oks); inv(t.plan) && Justified(t, w)
    decreases |batch|
  {
    hide TryReplan, Sound, SameShape, StepsKeep, CallsWithin, PendingIds;
    if batch != [] {
      if !oks[0] {
        TryReplanAdvances(s, w, batch[0], 0);
        ReplanKeeps(s, w, verify, batch[0], inv);
      }
      var s1 := if oks[0] then s else TryReplan(s, w, batch[0]);
      PoolLeftTail(s.plan, s1.plan, batch, oks);
      ReplanAllKeeps(s1, w, verify, batch[1..], oks[1..], inv);
    }
  }

  lemma RoundKeeps(mode: Mode, s: Sys, w: World, verify: bool, batch: seq<Id>, inv: Plan -> bool)
    requires StepsKeep(w, verify, inv) && Sound(s) && Justified(s, w) && inv(s.plan)
    requires BatchReady(s.plan, batch) && Scheduling(w)
    ensures var t := Round(mode, s, w, verify, batch); inv(t.plan) && Justified(t, w)
  {
    hide SequentialBatch, PoolBatch, ReplanAll, SameShape, CallsWithin, PendingIds, StepsKeep;
    var s1 := s.(rounds := s.rounds + [Elems(batch)]);
    match mode {
      case Sequential => SequentialKeeps(s1, w, verify, batch, inv);
      case Parallel =>
        var order, s0 := w.finishing(s1.tick, batch), Asked(s1);
        PermutationIsReady(s.plan, batch, order);
        PoolBatchAdvances(s0, w, verify, order, 0);
        PoolKeeps(s0, w, verify, order, inv);
        var (s2, oks) := PoolBatch(s0, w, verify, order);
        ReplanAllKeeps(s2, w, verify, order, oks, inv);
    }
  }

  /** What every single step keeps, every run keeps. */
  lemma {:induction false} RunKeeps(mode: Mode, s: Sys, w: World, verify: bool, inv: Plan -> bool)
    requires StepsKeep(w, verify, inv) && Sound(s) && Justified(s, w) && Scheduling(w) && inv(s.plan)
    ensures inv(Run(mode, s, w, verify).plan)
    decreases if s.cancelled then 0 else 1, Fuel(s.plan)
  {
    hide Round, ReadyAmong, CallsWithin, NodeRunsKeep, ReplansKeep;
    var s1 := Poll(s, w);
    SamePlanAdvances(s, s1, 0);
    if !s1.cancelled {
      ReadyIsReady(s1.plan);
      var batch := Ready(s1.plan);
      if batch != [] {
        RoundAdvances(mode, s1, w, verify, batch, 0);
        RoundKeeps(mode, s1, w, verify, batch, inv);
        RunKeeps(mode, Round(mode, s1, w, verify, batch), w, verify, inv);
      }
    }
  }
}
