/** A helpful router: replanning goes on until every node that failed is pending again or the replans
are used up. */
module Replanning {
  import opened Collections
  import opened Graphs
  import opened TopologicalSort
  import opened PlanModel
  import opened PlanRuns
  import opened PlanTheorems
  import opened PlanSteps
  import opened RunOutcomes

  /** A router that never fails to revise, and nobody cancels. */
  ghost predicate Helpful(w: World) {
    w.router && Scheduling(w) && forall t :: !w.cancels(t) && w.revision(t) != Unusable
  }

  predicate Troubled(p: Plan, id: Id) {
    id in p.nodes && (p.nodes[id].status == Failed || p.nodes[id].status == PlanModel.Replanning)
  }

  /** Only nodes of `ids` are FAILED or REPLANNING, unless no replan is left. */
  ghost predicate TroubleWithin(p: Plan, ids: set<Id>) {
    p.replans == p.maxReplans || forall id | Troubled(p, id) :: id in ids
  }

  lemma NodeTroubles(s: Sys, t: Sys, w: World, id: Id, ok: bool, ids: set<Id>)
    requires id in s.plan.nodes && NodeRan(s, t, id, ok) && TroubleWithin(s.plan, ids)
    ensures TroubleWithin(t.plan, if ok then ids else ids + {id})
  {
  }

  /** A helpful router puts a node that failed back to PENDING while replans are left. */
  lemma HelpfulReplan(s: Sys, w: World, id: Id, ids: set<Id>)
    requires Helpful(w) && Sound(s) && id in s.plan.nodes && TroubleWithin(s.plan, ids + {id})
    requires s.plan.nodes[id].status != Pending && s.plan.nodes[id].status != Completed
    ensures TroubleWithin(TryReplan(s, w, id).plan, ids)
  {
    ReplanOutcome(s, w, id);
    hide TryReplan, Listed, Closed, Recorded, Quiet;
    var p, q := s.plan, TryReplan(s, w, id).plan;
    if p.replans < p.maxReplans {
      assert q.nodes[id].status == Pending;
      forall x | Troubled(q, x) ensures x in ids {
        assert x != id && Troubled(p, x);
      }
    }
  }

  lemma {:induction false} SequentialHelped(s: Sys, w: World, verify: bool, batch: seq<Id>)
    requires Helpful(w) && Sound(s) && !s.cancelled && BatchReady(s.plan, batch) && TroubleWithin(s.plan, {})
    ensures var t := SequentialBatch(s, w, verify, batch); TroubleWithin(t.plan, {}) && !t.cancelled
    decreases |batch|
  {
    hide RunNode, TryReplan, Sound, SameShape, TroubleWithin, CallsWithin, PendingIds;
    if batch != [] {
      var id, s1 := batch[0], Poll(s, w);
      SamePlanAdvances(s, s1, 0);
      assert id in batch;
      KeysKept(s1, w, id, verify);
      RunNodeAdvances(s1, w, id, verify, 0);
      RunNodeJustified(s1, w, verify, id);
      var (s2, ok) := RunNode(s1, w, id, verify);
      NodeTroubles(s1, s2, w, id, ok, {});
      if !ok {
        TryReplanAdvances(s2, w, id, 0);
        AdvancesTransitively(s1, s2, TryReplan(s2, w, id), 0);
        HelpfulReplan(s2, w, id, {});
      }
      var s3 := if ok then s2 else TryReplan(s2, w, id);
      OthersStayReady(s.plan, s3.plan, batch);
      SequentialHelped(s3, w, verify, batch[1..]);
    }
  }

  ghost function Lost(batch: seq<Id>, oks: seq<bool>): set<Id>
    requires |oks| == |batch|
  {
    set i | 0 <= i < |batch| && !oks[i] :: batch[i]
  }

  lemma NothingLost()
    ensures Lost([], []) == {}
  {
  }

  lemma LostCons(batch: seq<Id>, oks: seq<bool>)
    requires batch != [] && |oks| == |batch|
    ensures Lost(batch, oks) == Lost(batch[1..], oks[1..]) + if oks[0] then {} else {batch[0]}
  {
    forall x ensures x in Lost(batch, oks) <==> x in Lost(batch[1..], oks[1..]) || (!oks[0] && x == batch[0]) {
      if x in Lost(batch, oks) {
        var i :| 0 <= i < |batch| && !oks[i] && batch[i] == x;
        assert i > 0 ==> batch[1..][i - 1] == x && !oks[1..][i - 1];
      }
      if x in Lost(batch[1..], oks[1..]) {
        var i :| 0 <= i < |batch| - 1 && !oks[1..][i] && batch[1..][i] == x;
        assert batch[i + 1] == x && !oks[i + 1];
      }
    }
  }

  lemma {:induction false} PoolTroubles(s: Sys, w: World, verify: bool, batch: seq<Id>, ids: set<Id>)
    requires Helpful(w) && Sound(s) && !s.cancelled && BatchReady(s.plan, batch) && TroubleWithin(s.plan, ids)
    ensures
      var (t, oks) := PoolBatch(s, w, verify, batch);
      TroubleWithin(t.plan, ids + Lost(batch, oks)) && !t.cancelled
    decreases |batch|
  {
    hide RunNode, Sound, SameShape, TroubleWithin, Lost, CallsWithin, PendingIds;
    if batch == [] {
      NothingLost();
      assert ids + Lost([], []) == ids;
    } else {
      var id := batch[0];
      assert id in batch;
      KeysKept(s, w, id, verify);
      RunNodeAdvances(s, w, id, verify, 0);
      RunNodeJustified(s, w, verify, id);
      var (s1, ok) := RunNode(s, w, id, verify);
      NodeTroubles(s, s1, w, id, ok, ids);
      OthersStayReady(s.plan, s1.plan, batch);
      var more := if ok then ids else ids + {id};
      PoolTroubles(s1, w, verify, batch[1..], more);
      var (s2, oks) := PoolBatch(s1, w, verify, batch[1..]);
      assert ([ok] + oks)[1..] == oks;
      LostCons(batch, [ok] + oks);
      assert more + Lost(batch[1..], oks) == ids + Lost(batch, [ok] + oks);
    }
  }

  lemma {:induction false} ReplanAllHelped(s: Sys, w: World, batch: seq<Id>, oks: seq<bool>)
    requires Helpful(w) && Sound(s) && PoolLeft(s.plan, batch, oks) && AllIn(batch, s.plan)
    requires TroubleWithin(s.plan, Lost(batch, oks))
    ensures TroubleWithin(ReplanAll(s, w, batch, oks).plan, {})
    decreases |batch|
  {
    hide TryReplan, Sound, SameShape, TroubleWithin, Lost, CallsWithin, PendingIds, Helpful;
    if batch == [] {
      NothingLost();
    } else {
      var id, rest := batch[0], Lost(batch[1..], oks[1..]);
      LostCons(batch, oks);
      if !oks[0] {
        TryReplanAdvances(s, w, id, 0);
        HelpfulReplan(s, w, id, rest);
      } else {
        assert Lost(batch, oks) == rest;
      }
      var s1 := if oks[0] then s else TryReplan(s, w, id);
      PoolLeftTail(s.plan, s1.plan, batch, oks);
      ReplanAllHelped(s1, w, batch[1..], oks[1..]);
    }
  }

  lemma RoundHelped(mode: Mode, s: Sys, w: World, verify: bool, batch: seq<Id>)
    requires Helpful(w) && Sound(s) && !s.cancelled && BatchReady(s.plan, batch) && TroubleWithin(s.plan, {})
    ensures var t := Round(mode, s, w, verify, batch); TroubleWithin(t.plan, {}) && !t.cancelled
  {
    hide SequentialBatch, PoolBatch, ReplanAll, SameShape, CallsWithin, PendingIds, TroubleWithin, Lost;
    var s1 := s.(rounds := s.rounds + [Elems(batch)]);
    match mode {
      case Sequential => SequentialHelped(s1, w, verify, batch);
      case Parallel =>
        var order, s0 := w.finishing(s1.tick, batch), Asked(s1);
        PermutationIsReady(s.plan, batch, order);
        PoolBatchAdvances(s0, w, verify, order, 0);
        PoolTroubles(s0, w, verify, order, {});
        var (s2, oks) := PoolBatch(s0, w, verify, order);
        assert {} + Lost(order, oks) == Lost(order, oks);
        ReplanAllAdvances(s2, w, order, oks, 0);
        ReplanAllHelped(s2, w, order, oks);
    }
  }

  lemma {:induction false} RunHelped(mode: Mode, s: Sys, w: World, verify: bool)
    requires Helpful(w) && Sound(s) && !s.cancelled && TroubleWithin(s.plan, {})
    ensures var t := Run(mode, s, w, verify); TroubleWithin(t.plan, {}) && !t.cancelled
    decreases Fuel(s.plan)
  {
    hide Round, ReadyAmong, CallsWithin;
    var s1 := Poll(s, w);
    ReadyIsReady(s1.plan);
    var batch := Ready(s1.plan);
    if batch != [] {
      RoundAdvances(mode, s1, w, verify, batch, 0);
      RoundHelped(mode, s1, w, verify, batch);
      RunHelped(mode, Round(mode, s1, w, verify, batch), w, verify);
    }
  }

  /** With a router that always revises, a run of an acyclic fresh plan in either mode completes every
      node or has used up the replans. */
  lemma CompletesOrUsesUpReplans(mode: Mode, p: Plan, w: World, verify: bool, tick: nat)
    requires Fresh(p) && Helpful(w)
    ensures Startable(p)
    ensures
      var t := Run(mode, Start(p, tick), w, verify);
      && !t.cancelled
      && (t.plan.replans < p.maxReplans ==> forall id :: !Troubled(t.plan, id))
      && (t.plan.replans < p.maxReplans && Acyclic(PlanGraph(p)) ==> t.plan.completed == p.nodes.Keys)
  {
    hide Run, Ready, Outcome, PendingIds, CallsWithin, Acyclic;
    FreshIsStartable(p);
    var s := Start(p, tick);
    RunHelped(mode, s, w, verify);
    RunAdvances(mode, s, w, verify, 0);
    var t := Run(mode, s, w, verify);
    SameGraph(p, t.plan);
    if t.plan.replans < p.maxReplans && Acyclic(PlanGraph(p)) { UntroubledCompletes(t); }
  }

  lemma StuckIsTroubled(p: Plan, b: Id)
    requires Acyclic(PlanGraph(p)) && Stuck(p, b)
    ensures Troubled(p, b)
  {
  }

  lemma UntroubledCompletes(t: Sys)
    requires Sound(t) && !t.cancelled && Acyclic(PlanGraph(t.plan)) && Ready(t.plan) == []
    requires forall id :: !Troubled(t.plan, id)
    ensures t.plan.completed == t.plan.nodes.Keys
  {
    hide Ready, PlanGraph, Reaches;
    var p := t.plan;
    forall id | id in p.nodes ensures p.nodes[id].status == Completed {
      assert !Troubled(p, id);
      if p.nodes[id].status == Pending {
        WaitingLeadsToTrouble(p, id);
        var b :| Stuck(p, b);
        StuckIsTroubled(p, b);
      }
    }
    assert p.completed == p.nodes.Keys;
  }
}
