/** Whole runs of a plan, sequential or on a pool, and what every run keeps. */
module PlanRuns {
  import opened Collections
  import opened Graphs
  import opened TopologicalSort
  import opened PlanModel

  // ----- what holds between any two node executions

  function PendingIds(p: Plan): set<Id> {
    set id | id in p.nodes && p.nodes[id].status == Pending
  }

  function CompletedIds(p: Plan): set<Id> {
    set id | id in p.nodes && p.nodes[id].status == Completed
  }

  ghost predicate SameShape(p: Plan, q: Plan) {
    && p.nodes.Keys == q.nodes.Keys && p.order == q.order && p.maxReplans == q.maxReplans
    && forall id | id in p.nodes ::
         p.nodes[id].deps == q.nodes[id].deps && p.nodes[id].maxRetries == q.nodes[id].maxRetries
  }

  /** No node is in the middle of being executed; what failed has been recorded as failed. */
  ghost predicate Quiet(p: Plan) {
    forall id | id in p.nodes ::
      && p.nodes[id].status != Running && p.nodes[id].status != Verifying && p.nodes[id].status != Skipped
      && (p.nodes[id].status == Failed || p.nodes[id].status == Replanning ==> id in p.failed)
  }

  ghost predicate Listed(order: seq<Id>, ids: set<Id>) {
    NoDup(order) && Elems(order) == ids
  }

  /** `completed_nodes` is the set of COMPLETED nodes. */
  ghost predicate Recorded(p: Plan) {
    forall id :: id in p.completed <==> id in p.nodes && p.nodes[id].status == Completed
  }

  /** A COMPLETED node's in-plan dependencies are COMPLETED. */
  ghost predicate Closed(p: Plan) {
    forall id | id in p.nodes && p.nodes[id].status == Completed :: DepsMet(p, id)
  }

  ghost predicate Sound(s: Sys) {
    var p := s.plan;
    && Listed(p.order, p.nodes.Keys) && p.failed <= p.nodes.Keys && p.replans <= p.maxReplans
    && Recorded(p) && Closed(p) && (!s.cancelled ==> Quiet(p))
  }

  /** No node may use more than `m` retries, and the executor calls so far respect that. */
  ghost predicate CallsWithin(s: Sys, m: nat) {
    && (forall id | id in s.plan.nodes :: s.plan.nodes[id].maxRetries <= m)
    && s.calls <= s.runs * (m + 1)
  }

  /** How `t` may differ from an earlier moment `s` of the same run. */
  ghost predicate Advances(s: Sys, t: Sys, m: nat) {
    && Sound(t) && SameShape(s.plan, t.plan)
    && s.plan.completed <= t.plan.completed && s.plan.failed <= t.plan.failed
    && (s.cancelled ==> t.cancelled) && s.runs <= t.runs && s.plan.replans <= t.plan.replans
    && t.runs + |PendingIds(t.plan)| + s.plan.replans == s.runs + |PendingIds(s.plan)| + t.plan.replans
    && (CallsWithin(s, m) ==> CallsWithin(t, m))
  }

  lemma AdvancesTransitively(s: Sys, t: Sys, u: Sys, m: nat)
    requires Advances(s, t, m) && Advances(t, u, m)
    ensures Advances(s, u, m)
  {
    hide CallsWithin, Sound;
  }

  /** Polling, asking and logging leave the plan alone. */
  lemma SamePlanAdvances(s: Sys, t: Sys, m: nat)
    requires Sound(s) && t.plan == s.plan && (s.cancelled ==> t.cancelled)
    requires t.runs == s.runs && t.calls == s.calls
    ensures Advances(s, t, m)
  {
    if CallsWithin(s, m) { SameCalls(s, t, m); }
  }

  ghost predicate OthersSame(p: Plan, q: Plan, id: Id) {
    p.nodes.Keys == q.nodes.Keys && forall x | x in p.nodes && x != id :: q.nodes[x] == p.nodes[x]
  }

  // ----- one node execution

  /** Executing `id`: only `id` moves; it ends COMPLETED or, unless cancelled midway, FAILED. */
  ghost predicate NodeRan(s: Sys, t: Sys, id: Id, ok: bool)
    requires id in s.plan.nodes
  {
    && OthersSame(s.plan, t.plan, id)
    && var n := t.plan.nodes[id];
    && n.deps == s.plan.nodes[id].deps && n.maxRetries == s.plan.nodes[id].maxRetries
    && n.expected == s.plan.nodes[id].expected
    && t.plan.order == s.plan.order && t.plan.replans == s.plan.replans
    && t.plan.maxReplans == s.plan.maxReplans && t.plan.status == s.plan.status
    && t.plan.completed == (if ok then s.plan.completed + {id} else s.plan.completed)
    && t.plan.failed == (if n.status == Failed then s.plan.failed + {id} else s.plan.failed)
    && (if ok then n.status == Completed
        else n.status == Failed || (t.cancelled && (n.status == Running || n.status == Verifying)))
    && (s.cancelled ==> t.cancelled) && t.rounds == s.rounds
  }

  /** A pass that asks for another touches only `id` and the counters. */
  ghost predicate Retrying(s: Sys, t: Sys, id: Id)
    requires id in s.plan.nodes
  {
    && id in t.plan.nodes && t.plan == s.plan.(nodes := s.plan.nodes[id := t.plan.nodes[id]])
    && var m, n := s.plan.nodes[id], t.plan.nodes[id];
    && n.deps == m.deps && n.maxRetries == m.maxRetries && n.expected == m.expected
    && (n.status == m.status || n.status == Verifying)
    && (s.cancelled ==> t.cancelled) && t.rounds == s.rounds
  }

  lemma TryOnceRuns(s: Sys, w: World, id: Id, verify: bool, k: nat)
    requires id in s.plan.nodes
    requires s.plan.nodes[id].status == Running || s.plan.nodes[id].status == Verifying
    ensures
      var (t, outcome) := TryOnce(s, w, id, verify, k);
      && t.runs == s.runs && t.calls <= s.calls + 1
      && (match outcome
          case GaveUp => NodeRan(s, t, id, false)
          case Succeeded => NodeRan(s, t, id, true)
          case Again => Retrying(s, t, id))
  {
  }

  lemma NodeRanAfterRetry(s: Sys, r: Sys, t: Sys, id: Id, ok: bool)
    requires id in s.plan.nodes && Retrying(s, r, id) && NodeRan(r, t, id, ok)
    ensures NodeRan(s, t, id, ok)
  {
  }

  lemma {:induction false} AttemptsRun(s: Sys, w: World, id: Id, verify: bool, k: nat, max: nat)
    requires id in s.plan.nodes && k <= max + 1
    requires s.plan.nodes[id].status == Running || s.plan.nodes[id].status == Verifying
    ensures
      var (t, ok) := Attempts(s, w, id, verify, k, max);
      NodeRan(s, t, id, ok) && t.runs == s.runs && t.calls <= s.calls + (max + 1 - k)
    decreases max + 1 - k
  {
    if k <= max {
      TryOnceRuns(s, w, id, verify, k);
      var (r, outcome) := TryOnce(s, w, id, verify, k);
      if outcome == Again {
        AttemptsRun(r, w, id, verify, k + 1, max);
        var (t, ok) := Attempts(r, w, id, verify, k + 1, max);
        NodeRanAfterRetry(s, r, t, id, ok);
      }
    }
  }

  lemma RunNodeRuns(s: Sys, w: World, id: Id, verify: bool)
    requires id in s.plan.nodes && s.plan.nodes[id].status == Pending
    ensures
      var (t, ok) := RunNode(s, w, id, verify);
      && NodeRan(s, t, id, ok) && t.runs == s.runs + 1
      && t.calls <= s.calls + s.plan.nodes[id].maxRetries + 1
  {
    var n := s.plan.nodes[id];
    AttemptsRun(Put(s, id, n.(status := Running)).(runs := s.runs + 1), w, id, verify, 0, n.maxRetries);
  }

  lemma NodeRanKeepsSound(s: Sys, t: Sys, id: Id, ok: bool)
    requires Sound(s) && id in s.plan.nodes && IsReady(s.plan, id) && NodeRan(s, t, id, ok)
    ensures Sound(t) && SameShape(s.plan, t.plan)
    ensures PendingIds(t.plan) == PendingIds(s.plan) - {id}
  {
    hide Listed, Closed, DepsMet, Recorded;
    StaysClosed(s.plan, t.plan, id);
    StaysRecorded(s.plan, t.plan, id);
    if !t.cancelled { StaysQuiet(s.plan, t.plan, id); }
    assert PendingIds(t.plan) == PendingIds(s.plan) - {id};
  }

  lemma StaysRecorded(p: Plan, q: Plan, id: Id)
    requires Recorded(p) && id in p.nodes && OthersSame(p, q, id) && p.nodes[id].status != Completed
    requires q.completed == if q.nodes[id].status == Completed then p.completed + {id} else p.completed
    ensures Recorded(q)
  {
  }

  lemma StaysQuiet(p: Plan, q: Plan, id: Id)
    requires Quiet(p) && id in p.nodes && OthersSame(p, q, id) && p.failed <= q.failed
    requires q.nodes[id].status in {Pending, Completed, Failed, Replanning}
    requires q.nodes[id].status == Failed || q.nodes[id].status == Replanning ==> id in q.failed
    ensures Quiet(q)
  {
  }

  /** Moving a node that was not COMPLETED, to COMPLETED only when its dependencies are met, keeps
      the completed nodes closed. */
  lemma StaysClosed(p: Plan, q: Plan, id: Id)
    requires Closed(p) && id in p.nodes && OthersSame(p, q, id) && q.nodes[id].deps == p.nodes[id].deps
    requires p.nodes[id].status != Completed && (q.nodes[id].status == Completed ==> DepsMet(p, id))
    ensures Closed(q)
  {
    forall x | x in q.nodes && q.nodes[x].status == Completed ensures DepsMet(q, x) {
      if x == id { assert DepsMet(p, id); } else { assert DepsMet(p, x); }
    }
  }

  lemma NodeRanAdvances(s: Sys, t: Sys, id: Id, ok: bool, m: nat)
    requires Sound(s) && id in s.plan.nodes && IsReady(s.plan, id) && NodeRan(s, t, id, ok)
    requires t.runs == s.runs + 1 && t.calls <= s.calls + s.plan.nodes[id].maxRetries + 1
    ensures Advances(s, t, m)
  {
    hide Sound, DepsMet, CallsWithin;
    NodeRanKeepsSound(s, t, id, ok);
    if CallsWithin(s, m) { OneMoreRun(s, t, id, m); }
  }

  lemma OneMoreRun(s: Sys, t: Sys, id: Id, m: nat)
    requires CallsWithin(s, m) && SameShape(s.plan, t.plan) && id in s.plan.nodes
    requires t.runs == s.runs + 1 && t.calls <= s.calls + s.plan.nodes[id].maxRetries + 1
    ensures CallsWithin(t, m)
  {
    assert t.runs * (m + 1) == s.runs * (m + 1) + (m + 1);
  }

  lemma SameCalls(s: Sys, t: Sys, m: nat)
    requires CallsWithin(s, m) && SameShape(s.plan, t.plan) && t.runs == s.runs && t.calls == s.calls
    ensures CallsWithin(t, m)
  {
  }

  lemma RunNodeAdvances(s: Sys, w: World, id: Id, verify: bool, m: nat)
    requires Sound(s) && id in s.plan.nodes && IsReady(s.plan, id)
    ensures
      var (t, ok) := RunNode(s, w, id, verify);
      NodeRan(s, t, id, ok) && Advances(s, t, m) && t.runs > s.runs
  {
    RunNodeRuns(s, w, id, verify);
    hide RunNode;
    var (t, ok) := RunNode(s, w, id, verify);
    NodeRanAdvances(s, t, id, ok, m);
  }

  // ----- one replanning

  /** A replan puts `id` back to PENDING for one of the `maxReplans`, or leaves it failed. */
  ghost predicate Replanned(s: Sys, t: Sys, id: Id)
    requires id in s.plan.nodes
  {
    && OthersSame(s.plan, t.plan, id)
    && var m, n := s.plan.nodes[id], t.plan.nodes[id];
    && n.deps == m.deps && n.maxRetries == m.maxRetries
    && t.plan.order == s.plan.order && t.plan.maxReplans == s.plan.maxReplans
    && t.plan.completed == s.plan.completed && t.plan.failed == s.plan.failed
    && (if n.status == Pending then t.plan.replans == s.plan.replans + 1 <= s.plan.maxReplans
        else (n.status == m.status || n.status == Replanning) && t.plan.replans == s.plan.replans)
    && t.rounds == s.rounds && t.runs == s.runs && t.calls == s.calls && t.cancelled == s.cancelled
  }

  lemma ReviseMoves(s: Sys, w: World, id: Id)
    requires id in s.plan.nodes
    ensures
      var (t, revised) := Revise(s, w, id);
      && id in t.plan.nodes && t.plan == s.plan.(nodes := s.plan.nodes[id := t.plan.nodes[id]])
      && t == s.(plan := t.plan, tick := t.tick)
      && var m, n := s.plan.nodes[id], t.plan.nodes[id];
      && n.deps == m.deps && n.maxRetries == m.maxRetries
      && if revised then n.status == Pending else n.status == m.status || n.status == Replanning
  {
  }

  lemma TryReplanReplans(s: Sys, w: World, id: Id)
    requires id in s.plan.nodes
    requires s.plan.nodes[id].status != Pending && s.plan.nodes[id].status != Completed
    ensures Replanned(s, TryReplan(s, w, id), id)
  {
    ReviseMoves(s, w, id);
    hide Revise;
    var n := Revise(s, w, id).0.plan.nodes[id];
    assert s.plan.nodes[id := n][id := n.(status := Pending)] == s.plan.nodes[id := n.(status := Pending)];
  }

  lemma ReplannedAdvances(s: Sys, t: Sys, id: Id, m: nat)
    requires Sound(s) && id in s.plan.nodes && Replanned(s, t, id)
    requires s.plan.nodes[id].status != Pending && s.plan.nodes[id].status != Completed
    ensures Advances(s, t, m) && OthersSame(s.plan, t.plan, id)
  {
    hide Listed, Closed, DepsMet, Recorded, CallsWithin, PendingIds;
    var p, q := s.plan, t.plan;
    StaysClosed(p, q, id);
    StaysRecorded(p, q, id);
    if !t.cancelled { StaysQuiet(p, q, id); }
    if CallsWithin(s, m) { SameCalls(s, t, m); }
    ReplannedPending(p, q, id);
  }

  lemma ReplannedPending(p: Plan, q: Plan, id: Id)
    requires id in p.nodes && p.nodes[id].status != Pending && OthersSame(p, q, id)
    ensures |PendingIds(q)| == |PendingIds(p)| + if q.nodes[id].status == Pending then 1 else 0
  {
    var a, b := PendingIds(p), PendingIds(q);
    assert id !in a && forall x | x != id :: x in a <==> x in b;
    if id in b {
      assert b == a + {id};
    } else {
      assert b == a;
    }
  }

  lemma TryReplanAdvances(s: Sys, w: World, id: Id, m: nat)
    requires Sound(s) && id in s.plan.nodes
    requires s.plan.nodes[id].status != Pending && s.plan.nodes[id].status != Completed
    ensures
      var t := TryReplan(s, w, id);
      && Advances(s, t, m) && OthersSame(s.plan, t.plan, id) && t.rounds == s.rounds && t.runs == s.runs
      && t.cancelled == s.cancelled && t.plan.nodes[id].status != Completed
  {
    TryReplanReplans(s, w, id);
    hide TryReplan;
    ReplannedAdvances(s, TryReplan(s, w, id), id, m);
  }

  // ----- one round

  ghost predicate BatchReady(p: Plan, batch: seq<Id>) {
    NoDup(batch) && forall id | id in batch :: id in p.nodes && IsReady(p, id)
  }

  /** Moving one pending node disturbs no other ready node. */
  lemma OthersStayReady(p: Plan, q: Plan, batch: seq<Id>)
    requires batch != [] && BatchReady(p, batch) && SameShape(p, q) && OthersSame(p, q, batch[0])
    ensures BatchReady(q, batch[1..])
  {
    forall id | id in batch[1..] ensures id in q.nodes && IsReady(q, id) {
      var i :| 0 <= i < |batch[1..]| && batch[1..][i] == id;
      assert id == batch[i + 1] && id in batch && IsReady(p, id);
    }
  }

  lemma {:induction false} SequentialBatchAdvances(s: Sys, w: World, verify: bool, batch: seq<Id>, m: nat)
    requires Sound(s) && BatchReady(s.plan, batch)
    ensures
      var t := SequentialBatch(s, w, verify, batch);
      && Advances(s, t, m) && t.rounds == s.rounds
      && (batch != [] ==> t.runs > s.runs || t.cancelled)
    decreases |batch|
  {
    hide RunNode, TryReplan, Sound, SameShape, CallsWithin, PendingIds;
    SamePlanAdvances(s, s, m);
    if batch != [] {
      var id, s1 := batch[0], Poll(s, w);
      SamePlanAdvances(s, s1, m);
      if !s1.cancelled {
        assert id in batch;
        KeysKept(s1, w, id, verify);
        RunNodeAdvances(s1, w, id, verify, m);
        var (s2, ok) := RunNode(s1, w, id, verify);
        var s3 := if ok then s2 else TryReplan(s2, w, id);
        if !ok {
          TryReplanAdvances(s2, w, id, m);
          AdvancesTransitively(s1, s2, s3, m);
        }
        OthersStayReady(s.plan, s3.plan, batch);
        SequentialBatchAdvances(s3, w, verify, batch[1..], m);
        var t := SequentialBatch(s3, w, verify, batch[1..]);
        AdvancesTransitively(s1, s3, t, m);
        AdvancesTransitively(s, s1, t, m);
      }
    }
  }

  /** Where a pool leaves the nodes of its batch. */
  ghost predicate PoolLeft(p: Plan, batch: seq<Id>, oks: seq<bool>) {
    && |oks| == |batch| && NoDup(batch)
    && forall i | 0 <= i < |batch| ::
         && batch[i] in p.nodes && p.nodes[batch[i]].status != Pending
         && (oks[i] <==> p.nodes[batch[i]].status == Completed)
  }

  lemma {:induction false} PoolBatchAdvances(s: Sys, w: World, verify: bool, batch: seq<Id>, m: nat)
    requires Sound(s) && BatchReady(s.plan, batch)
    ensures
      var (t, oks) := PoolBatch(s, w, verify, batch);
      && Advances(s, t, m) && t.rounds == s.rounds && PoolLeft(t.plan, batch, oks)
      && (forall id | id in s.plan.nodes && id !in batch :: t.plan.nodes[id] == s.plan.nodes[id])
      && (batch != [] ==> t.runs > s.runs)
    decreases |batch|
  {
    hide RunNode, Sound, SameShape, CallsWithin, PendingIds;
    SamePlanAdvances(s, s, m);
    if batch != [] {
      var id := batch[0];
      assert id in batch;
      KeysKept(s, w, id, verify);
      RunNodeAdvances(s, w, id, verify, m);
      var (s1, ok) := RunNode(s, w, id, verify);
      OthersStayReady(s.plan, s1.plan, batch);
      PoolBatchAdvances(s1, w, verify, batch[1..], m);
      var (s2, oks) := PoolBatch(s1, w, verify, batch[1..]);
      AdvancesTransitively(s, s1, s2, m);
      assert id !in batch[1..];
      PoolLeftCons(s1.plan, s2.plan, batch, ok, oks);
      forall x | x in s.plan.nodes && x !in batch ensures s2.plan.nodes[x] == s.plan.nodes[x] {
        assert x !in batch[1..] && x != id;
      }
    }
  }

  lemma PoolLeftCons(p: Plan, q: Plan, batch: seq<Id>, ok: bool, oks: seq<bool>)
    requires batch != [] && NoDup(batch) && PoolLeft(q, batch[1..], oks)
    requires batch[0] in p.nodes && batch[0] in q.nodes && q.nodes[batch[0]] == p.nodes[batch[0]]
    requires p.nodes[batch[0]].status != Pending && (ok <==> p.nodes[batch[0]].status == Completed)
    ensures PoolLeft(q, batch, [ok] + oks)
  {
    forall i | 0 <= i < |batch| ensures
      && batch[i] in q.nodes && q.nodes[batch[i]].status != Pending
      && (([ok] + oks)[i] <==> q.nodes[batch[i]].status == Completed)
    {
      if i > 0 { assert batch[i] == batch[1..][i - 1]; }
    }
  }

  lemma {:induction false} ReplanAllAdvances(s: Sys, w: World, batch: seq<Id>, oks: seq<bool>, m: nat)
    requires Sound(s) && PoolLeft(s.plan, batch, oks)
    requires AllIn(batch, s.plan)
    ensures
      var t := ReplanAll(s, w, batch, oks);
      && Advances(s, t, m) && t.rounds == s.rounds && t.runs == s.runs && t.cancelled == s.cancelled
    decreases |batch|
  {
    hide TryReplan, Sound, SameShape, CallsWithin, PendingIds;
    SamePlanAdvances(s, s, m);
    if batch != [] {
      var s1 := if oks[0] then s else TryReplan(s, w, batch[0]);
      if !oks[0] { TryReplanAdvances(s, w, batch[0], m); }
      assert PoolLeft(s1.plan, batch[1..], oks[1..]) by {
        forall i | 0 <= i < |batch[1..]| ensures
          && batch[1..][i] in s1.plan.nodes && s1.plan.nodes[batch[1..][i]].status != Pending
          && (oks[1..][i] <==> s1.plan.nodes[batch[1..][i]].status == Completed)
        {
          assert batch[1..][i] == batch[i + 1] != batch[0];
        }
      }
      ReplanAllAdvances(s1, w, batch[1..], oks[1..], m);
      AdvancesTransitively(s, s1, ReplanAll(s1, w, batch[1..], oks[1..]), m);
    }
  }

  lemma PermutationIsReady(p: Plan, batch: seq<Id>, order: seq<Id>)
    requires BatchReady(p, batch) && multiset(order) == multiset(batch)
    ensures BatchReady(p, order) && |order| == |batch| && Elems(order) == Elems(batch)
  {
    assert |order| == |multiset(order)| == |batch|;
    forall x ensures x in order <==> x in batch {
      assert x in multiset(order) <==> x in multiset(batch);
    }
    forall i, j | 0 <= i < j < |order| ensures order[i] != order[j] {
      if order[i] == order[j] {
        TwiceInMultiset(order, i, j);
        OnceInMultiset(batch, order[i]);
      }
    }
  }

  lemma TwiceInMultiset(q: seq<Id>, i: nat, j: nat)
    requires i < j < |q| && q[i] == q[j]
    ensures multiset(q)[q[i]] >= 2
  {
    assert q == q[..j] + [q[j]] + q[j + 1..];
    assert q[..j][i] == q[i] && q[i] in multiset(q[..j]);
  }

  lemma OnceInMultiset(q: seq<Id>, x: Id)
    requires NoDup(q)
    ensures multiset(q)[x] <= 1
  {
    if q != [] {
      assert q == [q[0]] + q[1..];
      OnceInMultiset(q[1..], x);
      assert q[0] !in q[1..];
    }
  }

  /** One turn of the loop, after `ready` has been found not to be empty. */
  function Round(mode: Mode, s: Sys, w: World, verify: bool, batch: seq<Id>): (t: Sys)
    requires Scheduling(w) && AllIn(batch, s.plan)
  {
    var s1 := s.(rounds := s.rounds + [Elems(batch)]);
    match mode
    case Sequential => SequentialBatch(s1, w, verify, batch)
    case Parallel =>
      var order := w.finishing(s1.tick, batch);
      SameMembers(order, batch);
      var (s2, oks) := PoolBatch(Asked(s1), w, verify, order);
      ReplanAll(s2, w, order, oks)
  }

  lemma SameMembers(order: seq<Id>, batch: seq<Id>)
    requires multiset(order) == multiset(batch)
    ensures forall x :: x in order <==> x in batch
  {
    forall x ensures x in order <==> x in batch {
      assert x in multiset(order) <==> x in multiset(batch);
    }
  }

  lemma RoundAdvances(mode: Mode, s: Sys, w: World, verify: bool, batch: seq<Id>, m: nat)
    requires Sound(s) && BatchReady(s.plan, batch) && Scheduling(w)
    ensures
      var t := Round(mode, s, w, verify, batch);
      && Advances(s, t, m) && t.rounds == s.rounds + [Elems(batch)]
      && (batch != [] ==> t.runs > s.runs || t.cancelled)
  {
    hide SequentialBatch, PoolBatch, ReplanAll, Sound, SameShape, CallsWithin, PendingIds;
    var s1 := s.(rounds := s.rounds + [Elems(batch)]);
    match mode {
      case Sequential =>
        SamePlanAdvances(s, s1, m);
        SequentialBatchAdvances(s1, w, verify, batch, m);
        AdvancesTransitively(s, s1, SequentialBatch(s1, w, verify, batch), m);
      case Parallel =>
        var order, s0 := w.finishing(s1.tick, batch), Asked(s1);
        PermutationIsReady(s.plan, batch, order);
        SamePlanAdvances(s, s0, m);
        PoolBatchAdvances(s0, w, verify, order, m);
        var (s2, oks) := PoolBatch(s0, w, verify, order);
        AdvancesTransitively(s, s0, s2, m);
        ReplanAllAdvances(s2, w, order, oks, m);
        AdvancesTransitively(s, s2, ReplanAll(s2, w, order, oks), m);
    }
  }

  // ----- the loop

  lemma {:induction false} ReadyAmongIsReady(p: Plan, order: seq<Id>)
    requires NoDup(order) && forall id | id in order :: id in p.nodes
    ensures BatchReady(p, ReadyAmong(p, order))
    ensures forall id :: id in ReadyAmong(p, order) <==> id in order && IsReady(p, id)
    decreases |order|
  {
    if order != [] {
      hide IsReady;
      var init, last := order[..|order| - 1], order[|order| - 1];
      ReadyAmongIsReady(p, init);
      assert last !in init && order == init + [last];
      assert forall id :: id in ReadyAmong(p, order) <==> id in order && IsReady(p, id);
    }
  }

  lemma ReadyIsReady(p: Plan)
    requires NoDup(p.order) && Elems(p.order) == p.nodes.Keys
    ensures forall id | id in p.order :: id in p.nodes
    ensures BatchReady(p, Ready(p)) && AllIn(Ready(p), p)
    ensures Elems(Ready(p)) == set id | id in p.nodes && IsReady(p, id)
  {
    assert forall id :: id in p.order <==> id in Elems(p.order);
    ReadyAmongIsReady(p, p.order);
  }

  function Ready(p: Plan): seq<Id>
    requires Elems(p.order) == p.nodes.Keys
  {
    assert forall id | id in p.order :: id in Elems(p.order);
    ReadyAmong(p, p.order)
  }

  function Outcome(cancelled: bool, p: Plan): PlanStatus {
    if cancelled then PlanCancelled
    else if |p.failed| == 0 && |p.completed| == |p.nodes| then PlanCompleted
    else if |p.completed| > 0 then PlanPartial
    else PlanFailed
  }

  function Finish(s: Sys, w: World): Sys {
    var t := Poll(s, w);
    t.(plan := t.plan.(status := Outcome(t.cancelled, t.plan)))
  }

  lemma FinishAdvances(s: Sys, w: World, m: nat)
    requires Sound(s)
    ensures Advances(s, Finish(s, w), m)
  {
    hide Outcome, CallsWithin;
    if CallsWithin(s, m) { SameCalls(s, Finish(s, w), m); }
    assert PendingIds(Finish(s, w).plan) == PendingIds(s.plan);
  }

  /** Pending nodes plus remaining replans: every executed node uses one up. */
  function Fuel(p: Plan): int {
    |PendingIds(p)| + p.maxReplans - p.replans
  }

  function Run(mode: Mode, s: Sys, w: World, verify: bool): Sys
    requires Sound(s) && Scheduling(w)
    decreases if s.cancelled then 0 else 1, Fuel(s.plan)
  {
    var s1 := Poll(s, w);
    if s1.cancelled then Finish(s1, w)
    else
      ReadyIsReady(s1.plan);
      var batch := Ready(s1.plan);
      if batch == [] then Finish(s1, w)
      else
        RoundAdvances(mode, s1, w, verify, batch, 0);
        Run(mode, Round(mode, s1, w, verify, batch), w, verify)
  }

  /** Every run, whatever the world does, keeps `Sound`, conserves executions against pending nodes
      and replans, and stops with nothing ready unless it was cancelled. */
  lemma {:induction false} RunAdvances(mode: Mode, s: Sys, w: World, verify: bool, m: nat)
    requires Sound(s) && Scheduling(w)
    ensures
      var t := Run(mode, s, w, verify);
      && Advances(s, t, m)
      && t.plan.status == Outcome(t.cancelled, t.plan)
      && (!t.cancelled ==> Ready(t.plan) == [])
    decreases if s.cancelled then 0 else 1, Fuel(s.plan)
  {
    hide Round, ReadyAmong, CallsWithin;
    var s1 := Poll(s, w);
    SamePlanAdvances(s, s1, m);
    FinishAdvances(s1, w, m);
    AdvancesTransitively(s, s1, Finish(s1, w), m);
    if !s1.cancelled {
      ReadyIsReady(s1.plan);
      var batch := Ready(s1.plan);
      if batch == [] {
        ReadyIgnoresPlanStatus(s1.plan, Finish(s1, w).plan, s1.plan.order);
      } else {
        RoundAdvances(mode, s1, w, verify, batch, m);
        var s2 := Round(mode, s1, w, verify, batch);
        RunAdvances(mode, s2, w, verify, m);
        AdvancesTransitively(s1, s2, Run(mode, s2, w, verify), m);
      }
    }
  }

  lemma ReadyIgnoresPlanStatus(p: Plan, q: Plan, order: seq<Id>)
    requires p.nodes == q.nodes && forall id | id in order :: id in p.nodes
    ensures ReadyAmong(p, order) == ReadyAmong(q, order)
  {
  }

  lemma SoundIsListed(s: Sys)
    requires Sound(s)
    ensures Listed(s.plan.order, s.plan.nodes.Keys)
  {
  }

  /** One turn of the loop from `s`: either another round was run, or the loop is left at `t`. */
  ghost predicate Turned(mode: Mode, s: Sys, w: World, verify: bool, more: bool, t: Sys)
    requires Sound(s) && Scheduling(w)
  {
    var s1 := Poll(s, w);
    ReadyIsReady(s1.plan);
    var batch := Ready(s1.plan);
    if !s1.cancelled && batch != [] then more && t == Round(mode, s1, w, verify, batch)
    else !more && t == (if s1.cancelled then s1.(plan := s1.plan.(status := PlanCancelled)) else s1)
  }

  lemma TurnProgress(mode: Mode, s: Sys, w: World, verify: bool, more: bool, t: Sys)
    requires Sound(s) && Scheduling(w) && Turned(mode, s, w, verify, more, t)
    ensures more ==> Sound(t) && Run(mode, t, w, verify) == Run(mode, s, w, verify)
    ensures more ==> (s.cancelled ==> t.cancelled) && 0 <= Fuel(s.plan)
    ensures more ==> Fuel(t.plan) < Fuel(s.plan) || (t.cancelled && !s.cancelled)
    ensures !more ==> Finish(t, w) == Run(mode, s, w, verify)
  {
    hide Round, ReadyAmong;
    var s1 := Poll(s, w);
    ReadyIsReady(s1.plan);
    var batch := Ready(s1.plan);
    if more {
      RoundAdvances(mode, s1, w, verify, batch, 0);
    }
  }
}
