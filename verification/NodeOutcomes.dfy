/** How executing one node ends, told from the answers of the executor and the verification alone. */
module NodeOutcomes {
  import opened Collections
  import opened Graphs
  import opened PlanModel
  import opened PlanRuns

  /** Attempt `k`, begun at tick `t`, returns and, where verification applies, is accepted. */
  predicate Passes(w: World, id: Id, applies: bool, t: nat, k: nat) {
    && (w.executor ==> w.succeeds(t + 1, id, k))
    && (applies ==> w.accepts(if w.executor then t + 2 else t + 1))
  }

  /** The tick at which attempt `k` begins, if the first begins at `t`: an attempt reads the flag, calls
      the executor, and asks for verification if the call returned and verification applies. */
  function Begins(w: World, id: Id, applies: bool, t: nat, k: nat): nat {
    if k == 0 then t
    else
      var b := Begins(w, id, applies, t, k - 1);
      b + 1 + (if w.executor then 1 else 0)
      + (if applies && (w.executor ==> w.succeeds(b + 1, id, k - 1)) then 1 else 0)
  }

  /** Attempt `k` of an execution begun at tick `t` passes. */
  predicate AttemptPasses(w: World, id: Id, applies: bool, t: nat, k: nat) {
    Passes(w, id, applies, Begins(w, id, applies, t, k), k)
  }

  /** The first attempt from `k` on that passes, or `max + 1`. */
  function FirstPass(w: World, id: Id, applies: bool, t: nat, k: nat, max: nat): (j: nat)
    requires k <= max + 1
    ensures k <= j <= max + 1
    ensures forall i | k <= i < j :: !AttemptPasses(w, id, applies, t, i)
    ensures j <= max ==> AttemptPasses(w, id, applies, t, j)
    decreases max + 1 - k
  {
    if k == max + 1 || AttemptPasses(w, id, applies, t, k) then k
    else FirstPass(w, id, applies, t, k + 1, max)
  }

  /** Whether a node's result is verified. */
  predicate Applies(n: Node, w: World, verify: bool) {
    verify && n.expected != "" && w.router
  }

  /** `id` has become COMPLETED, at attempt `j`, and nothing else has changed. */
  ghost predicate EndsCompleted(p: Plan, q: Plan, id: Id, retries: nat)
    requires id in p.nodes
  {
    q == p.(nodes := p.nodes[id := p.nodes[id].(status := Completed, retries := retries)],
            completed := p.completed + {id})
  }

  ghost predicate EndsFailed(p: Plan, q: Plan, id: Id, retries: nat)
    requires id in p.nodes
  {
    q == p.(nodes := p.nodes[id := p.nodes[id].(status := Failed, retries := retries)],
            failed := p.failed + {id})
  }

  /** One attempt without cancellation. */
  lemma OneAttempt(s: Sys, w: World, id: Id, verify: bool, k: nat)
    requires id in s.plan.nodes && !s.cancelled && !w.cancels(s.tick)
    ensures
      var n := s.plan.nodes[id];
      var applies := Applies(n, w, verify);
      var (t, outcome) := TryOnce(s, w, id, verify, k);
      && !t.cancelled && t.calls == s.calls + (if w.executor then 1 else 0) && t.runs == s.runs
      && (outcome == Succeeded <==> Passes(w, id, applies, s.tick, k))
      && (outcome == Again <==> !Passes(w, id, applies, s.tick, k))
      && (outcome == Succeeded ==> EndsCompleted(s.plan, t.plan, id, n.retries))
      && (outcome == Again ==>
            && t.tick == s.tick + 1 + (if w.executor then 1 else 0)
                 + (if applies && (w.executor ==> w.succeeds(s.tick + 1, id, k)) then 1 else 0)
            && id in t.plan.nodes && t.plan == s.plan.(nodes := s.plan.nodes[id := t.plan.nodes[id]])
            && t.plan.nodes[id].retries == k + 1 && t.plan.nodes[id].expected == n.expected
            && (forall st, r :: t.plan.nodes[id].(status := st, retries := r) == n.(status := st, retries := r)))
  {
  }

  lemma {:induction false} AttemptsOutcome(s: Sys, w: World, id: Id, verify: bool, k: nat, max: nat, t0: nat)
    requires id in s.plan.nodes && !s.cancelled && (forall t :: !w.cancels(t)) && k <= max + 1
    requires s.tick == Begins(w, id, Applies(s.plan.nodes[id], w, verify), t0, k)
    ensures
      var n := s.plan.nodes[id];
      var (t, ok) := Attempts(s, w, id, verify, k, max);
      var j := FirstPass(w, id, Applies(n, w, verify), t0, k, max);
      && !t.cancelled && (ok <==> j <= max) && t.runs == s.runs
      && t.calls == s.calls + (if !w.executor then 0 else if ok then j - k + 1 else j - k)
      && (ok ==> EndsCompleted(s.plan, t.plan, id, if j == k then n.retries else j))
      && (!ok ==> EndsFailed(s.plan, t.plan, id, if j == k then n.retries else j))
    decreases max + 1 - k
  {
    hide Passes, EndsCompleted, EndsFailed, TryOnce, MarkFailed, Begins;
    if k <= max {
      OneAttempt(s, w, id, verify, k);
      var (t, outcome) := TryOnce(s, w, id, verify, k);
      if outcome == Again {
        BeginsNext(w, id, Applies(s.plan.nodes[id], w, verify), t0, k);
        AttemptsOutcome(t, w, id, verify, k + 1, max, t0);
        var j := FirstPass(w, id, Applies(s.plan.nodes[id], w, verify), t0, k + 1, max);
        AgainThen(s.plan, t.plan, Attempts(t, w, id, verify, k + 1, max).0.plan, id, j);
      }
    } else {
      RetriesUsedUp(s, id);
    }
  }

  lemma BeginsNext(w: World, id: Id, applies: bool, t: nat, k: nat)
    ensures
      var b := Begins(w, id, applies, t, k);
      Begins(w, id, applies, t, k + 1) == b + 1 + (if w.executor then 1 else 0)
        + (if applies && (w.executor ==> w.succeeds(b + 1, id, k)) then 1 else 0)
  {
  }

  lemma RetriesUsedUp(s: Sys, id: Id)
    requires id in s.plan.nodes
    ensures
      var t := MarkFailed(s, id);
      && EndsFailed(s.plan, t.plan, id, s.plan.nodes[id].retries)
      && t.cancelled == s.cancelled && t.calls == s.calls && t.runs == s.runs
  {
  }

  /** What a further attempt makes of the plan is what it would have made without the first. */
  lemma AgainThen(p: Plan, r: Plan, q: Plan, id: Id, n: nat)
    requires id in p.nodes && id in r.nodes && r == p.(nodes := p.nodes[id := r.nodes[id]])
    requires forall st, k :: r.nodes[id].(status := st, retries := k) == p.nodes[id].(status := st, retries := k)
    ensures EndsCompleted(r, q, id, n) ==> EndsCompleted(p, q, id, n)
    ensures EndsFailed(r, q, id, n) ==> EndsFailed(p, q, id, n)
  {
    var done, lost := p.nodes[id].(status := Completed, retries := n), p.nodes[id].(status := Failed, retries := n);
    assert r.nodes[id := done] == p.nodes[id := done];
    assert r.nodes[id := lost] == p.nodes[id := lost];
  }

  /** Without cancellation, executing a node completes it exactly when some attempt up to its retry
      limit returns and, where verification applies, is accepted; the first such attempt is the last.
      Otherwise it has FAILED after exactly `max_retries + 1` attempts. */
  lemma NodeOutcome(s: Sys, w: World, id: Id, verify: bool)
    requires id in s.plan.nodes && !s.cancelled && (forall t :: !w.cancels(t))
    ensures
      var n := s.plan.nodes[id];
      var applies := Applies(n, w, verify);
      var (t, ok) := RunNode(s, w, id, verify);
      var j := FirstPass(w, id, applies, s.tick, 0, n.maxRetries);
      && (ok <==> exists i: nat :: i <= n.maxRetries && AttemptPasses(w, id, applies, s.tick, i))
      && (ok ==> EndsCompleted(s.plan, t.plan, id, if j == 0 then n.retries else j))
      && (!ok ==> EndsFailed(s.plan, t.plan, id, n.maxRetries + 1))
      && t.calls == s.calls + (if !w.executor then 0 else if ok then j + 1 else n.maxRetries + 1)
      && !t.cancelled && t.runs == s.runs + 1
  {
    hide AttemptPasses, Begins, EndsCompleted, EndsFailed, Attempts;
    var n := s.plan.nodes[id];
    var s0 := Put(s, id, n.(status := Running)).(runs := s.runs + 1);
    BeginsFirst(w, id, Applies(n, w, verify), s.tick);
    AttemptsOutcome(s0, w, id, verify, 0, n.maxRetries, s.tick);
    var j := FirstPass(w, id, Applies(n, w, verify), s.tick, 0, n.maxRetries);
    AgainThen(s.plan, s0.plan, RunNode(s, w, id, verify).0.plan, id, if j == 0 then n.retries else j);
    SomePasses(w, id, Applies(n, w, verify), s.tick, n.maxRetries);
  }

  lemma SomePasses(w: World, id: Id, applies: bool, t: nat, max: nat)
    ensures FirstPass(w, id, applies, t, 0, max) <= max <==>
      exists i: nat :: i <= max && AttemptPasses(w, id, applies, t, i)
  {
    hide AttemptPasses;
    var j := FirstPass(w, id, applies, t, 0, max);
    if exists i: nat :: i <= max && AttemptPasses(w, id, applies, t, i) {
      var i: nat :| i <= max && AttemptPasses(w, id, applies, t, i);
      assert !(i < j) && AttemptPasses(w, id, applies, t, j);
    }
  }

  lemma BeginsFirst(w: World, id: Id, applies: bool, t: nat)
    ensures Begins(w, id, applies, t, 0) == t
  {
  }
}
