/** Executing delegated tasks layer by layer (`AgentCollaborationHub.execute_parallel`). */
module CollaborationHub {
  import opened Collections
  import opened Graphs
  import opened TaskLayers

  datatype TaskStatus = Waiting | Delegated | InProgress | Done | Errored | Reviewing

  /** What the executor function does with a task: return a result, or raise. */
  datatype Outcome = Returned(result: string) | Raised(error: string)

  class DelegatedTask {
    const taskId: Id
    const dependsOn: seq<Id>
    var status: TaskStatus
    var result: Option<Outcome>

    constructor (taskId: Id, dependsOn: seq<Id>)
      ensures this.taskId == taskId && this.dependsOn == dependsOn && status == Waiting && result == None
    {
      this.taskId, this.dependsOn, status, result := taskId, dependsOn, Waiting, None;
    }

    ghost predicate SettledAs(o: Outcome)
      reads this
    {
      result == Some(o) && status == if o.Returned? then Done else Errored
    }
  }

  /** What the hub does with a task: hand it to the pool, or take its result. */
  datatype Event = Started(id: Id) | Ended(id: Id)

  /** The tasks that have ended, in order. */
  function Log(events: seq<Event>): seq<Id> {
    if events == [] then []
    else
      var init, last := events[..|events| - 1], events[|events| - 1];
      if last.Ended? then Log(init) + [last.id] else Log(init)
  }

  lemma LogNext(events: seq<Event>, e: Event)
    ensures Log(events + [e]) == if e.Ended? then Log(events) + [e.id] else Log(events)
  {
    assert (events + [e])[..|events|] == events;
  }

  /** Every task starts after all the tasks it depends on have ended. */
  ghost predicate StartsAfterDependencies(deps: Graph, events: seq<Event>) {
    forall i, d | 0 <= i < |events| && events[i].Started? && d in Needs(deps, events[i].id) ::
      d in Log(events[..i])
  }

  /** Every task ends after it has started. */
  ghost predicate EndsAfterStart(events: seq<Event>) {
    forall i | 0 <= i < |events| && events[i].Ended? :: Started(events[i].id) in events[..i]
  }

  /** How many of the listed tasks return. */
  function Successes(ids: seq<Id>, outcome: Id -> Outcome): nat {
    if ids == [] then 0
    else Successes(ids[..|ids| - 1], outcome) + if outcome(ids[|ids| - 1]).Returned? then 1 else 0
  }

  lemma {:induction false} SuccessesAdd(a: seq<Id>, b: seq<Id>, outcome: Id -> Outcome)
    ensures Successes(a + b, outcome) == Successes(a, outcome) + Successes(b, outcome)
    decreases |b|
  {
    if b == [] {
      assert a + b == a;
    } else {
      var init := b[..|b| - 1];
      assert (a + b)[..|a + b| - 1] == a + init;
      SuccessesAdd(a, init, outcome);
    }
  }

  function Returning(ids: set<Id>, outcome: Id -> Outcome): set<Id> {
    set id | id in ids && outcome(id).Returned?
  }

  lemma OneMoreReturning(ids: set<Id>, id: Id, outcome: Id -> Outcome)
    requires id !in ids
    ensures |Returning(ids + {id}, outcome)| == |Returning(ids, outcome)| + if outcome(id).Returned? then 1 else 0
  {
    assert Returning(ids + {id}, outcome)
      == if outcome(id).Returned? then Returning(ids, outcome) + {id} else Returning(ids, outcome);
  }

  /** The number of tasks that returned does not depend on the order. */
  lemma {:induction false} SuccessesCount(ids: seq<Id>, outcome: Id -> Outcome)
    requires NoDup(ids)
    ensures Successes(ids, outcome) == |Returning(Elems(ids), outcome)|
    decreases |ids|
  {
    if ids == [] {
      assert Returning(Elems(ids), outcome) == {};
    } else {
      var init, last := ids[..|ids| - 1], ids[|ids| - 1];
      hide Returning;
      SuccessesCount(init, outcome);
      AppendFresh(init, last);
      assert init + [last] == ids && last !in Elems(init);
      OneMoreReturning(Elems(init), last, outcome);
    }
  }

  function Starts(ids: seq<Id>): (r: seq<Event>)
    ensures |r| == |ids| && forall i | 0 <= i < |ids| :: r[i] == Started(ids[i])
  {
    seq(|ids|, i requires 0 <= i < |ids| => Started(ids[i]))
  }

  function Ends(ids: seq<Id>): (r: seq<Event>)
    ensures |r| == |ids| && forall i | 0 <= i < |ids| :: r[i] == Ended(ids[i])
  {
    seq(|ids|, i requires 0 <= i < |ids| => Ended(ids[i]))
  }

  lemma {:induction false} LogOfStarts(events: seq<Event>, ids: seq<Id>)
    ensures Log(events + Starts(ids)) == Log(events)
    decreases |ids|
  {
    hide Log;
    if ids == [] {
      assert events + Starts(ids) == events;
    } else {
      var init := ids[..|ids| - 1];
      LogOfStarts(events, init);
      assert events + Starts(ids) == events + Starts(init) + [Started(ids[|ids| - 1])];
      LogNext(events + Starts(init), Started(ids[|ids| - 1]));
    }
  }

  lemma {:induction false} LogOfEnds(events: seq<Event>, ids: seq<Id>)
    ensures Log(events + Ends(ids)) == Log(events) + ids
    decreases |ids|
  {
    hide Log, Ends;
    if ids == [] {
      assert events + Ends(ids) == events;
    } else {
      var init, last := ids[..|ids| - 1], ids[|ids| - 1];
      LogOfEnds(events, init);
      assert events + Ends(ids) == events + Ends(init) + [Ended(last)];
      LogNext(events + Ends(init), Ended(last));
      assert Log(events) + init + [last] == Log(events) + ids;
    }
  }

  /** All of a layer starts, then all of it ends. */
  lemma LayerEnds(events: seq<Event>, layer: seq<Id>, order: seq<Id>)
    requires EndsAfterStart(events) && Elems(order) == Elems(layer)
    ensures
      var more := events + Starts(layer) + Ends(order);
      Log(more) == Log(events) + order && EndsAfterStart(more)
  {
    hide Log;
    var mid, more := events + Starts(layer), events + Starts(layer) + Ends(order);
    LogOfStarts(events, layer);
    LogOfEnds(mid, order);
    forall i | 0 <= i < |more| && more[i].Ended? ensures Started(more[i].id) in more[..i] {
      if i < |events| {
        assert more[..i] == events[..i] && more[i] == events[i];
      } else {
        assert more[i].id in Elems(order);
        var j :| 0 <= j < |layer| && layer[j] == more[i].id;
        assert more[..i][|events| + j] == Started(layer[j]);
      }
    }
  }

  lemma LayerStarts(deps: Graph, events: seq<Event>, layer: seq<Id>, order: seq<Id>)
    requires StartsAfterDependencies(deps, events) && forall t | t in layer :: Needs(deps, t) <= Elems(Log(events))
    ensures StartsAfterDependencies(deps, events + Starts(layer) + Ends(order))
  {
    hide Log, Needs;
    var more := events + Starts(layer) + Ends(order);
    forall i, d | 0 <= i < |more| && more[i].Started? && d in Needs(deps, more[i].id) ensures d in Log(more[..i]) {
      if i < |events| {
        assert more[..i] == events[..i] && more[i] == events[i];
      } else {
        var j := i - |events|;
        assert more[i] == Started(layer[j]) && layer[j] in layer;
        assert more[..i] == events + Starts(layer[..j]);
        LogOfStarts(events, layer[..j]);
        assert d in Elems(Log(events));
      }
    }
  }

  lemma NoneSettled(taskMap: map<Id, DelegatedTask>, outcome: Id -> Outcome)
    ensures Log([]) == [] && Elems<Id>([]) == {} && Successes([], outcome) == 0 && AllSettled(taskMap, map[], outcome)
  {
  }

  lemma OneMoreSettled(order: seq<Id>, i: nat, outcome: Id -> Outcome)
    requires i < |order|
    ensures order[i] in Elems(order) && Elems(order[..i + 1]) == Elems(order[..i]) + {order[i]}
    ensures Successes(order[..i + 1], outcome) ==
      Successes(order[..i], outcome) + if outcome(order[i]).Returned? then 1 else 0
  {
    AppendFresh(order[..i], order[i]);
    assert order[..i + 1] == order[..i] + [order[i]] && order[..i + 1][..i] == order[..i];
  }

  /** The dependency sets of the tasks; of two tasks with one id, the later counts. */
  function DependencySets(taskMap: map<Id, DelegatedTask>): Graph {
    map id | id in taskMap :: Elems(taskMap[id].dependsOn)
  }

  /** The ids of the first `k` layers in completion order. */
  ghost predicate Covers(log: seq<Id>, layers: seq<seq<Id>>, k: nat)
    requires k <= |layers|
  {
    NoDup(log) && Elems(log) == Flatten(Sets(layers[..k]))
  }

  ghost function Sets(layers: seq<seq<Id>>): (s: seq<set<Id>>)
    ensures |s| == |layers| && forall i | 0 <= i < |layers| :: s[i] == Elems(layers[i])
  {
    seq(|layers|, i requires 0 <= i < |layers| => Elems(layers[i]))
  }

  lemma AppendDisjoint(log: seq<Id>, order: seq<Id>)
    requires NoDup(log) && NoDup(order) && Elems(log) !! Elems(order)
    ensures NoDup(log + order) && Elems(log + order) == Elems(log) + Elems(order)
  {
    var all := log + order;
    forall i, j | 0 <= i < j < |all| ensures all[i] != all[j] {
      if i < |log| <= j {
        assert all[i] in Elems(log) && all[j] in Elems(order);
      }
    }
    assert forall x :: x in all <==> x in log || x in order;
  }

  ghost predicate KeyedById(taskMap: map<Id, DelegatedTask>) {
    forall id | id in taskMap :: taskMap[id].taskId == id
  }

  /** The tasks with a result are those that have ended, each as its own execution did. */
  ghost predicate AllSettled(taskMap: map<Id, DelegatedTask>, results: map<Id, Outcome>, outcome: Id -> Outcome)
    reads taskMap.Values
  {
    forall id | id in results :: id in taskMap && results[id] == outcome(id) && taskMap[id].SettledAs(outcome(id))
  }

  /** The tasks of a layer finish in any order, each once. */
  ghost predicate FinishesEach(finishing: seq<Id> -> seq<Id>) {
    forall layer :: NoDup(layer) ==> NoDup(finishing(layer)) && Elems(finishing(layer)) == Elems(layer)
  }

  lemma LayerFinishes(finishing: seq<Id> -> seq<Id>, layer: seq<Id>)
    requires FinishesEach(finishing) && NoDup(layer)
    ensures NoDup(finishing(layer)) && Elems(finishing(layer)) == Elems(layer)
  {
    hide NoDup;
  }

  class AgentCollaborationHub {
    var tasksCompleted: nat
    ghost var events: seq<Event>

    constructor ()
      ensures tasksCompleted == 0 && events == []
    {
      tasksCompleted, events := 0, [];
    }

    /** Records how one task ended. */
    method Settle(taskId: Id, taskMap: map<Id, DelegatedTask>, outcome: Id -> Outcome, before: map<Id, Outcome>)
      returns (results: map<Id, Outcome>)
      requires KeyedById(taskMap) && AllSettled(taskMap, before, outcome) && taskId in taskMap
      modifies this, taskMap[taskId]
      ensures AllSettled(taskMap, results, outcome) && results.Keys == before.Keys + {taskId}
      ensures tasksCompleted == old(tasksCompleted) + if outcome(taskId).Returned? then 1 else 0
      ensures events == old(events) + [Ended(taskId)]
    {
      var task, o := taskMap[taskId], outcome(taskId);
      events := events + [Ended(taskId)];
      task.result := Some(o);
      if o.Returned? {
        task.status := Done;
        tasksCompleted := tasksCompleted + 1;
      } else {
        task.status := Errored;
      }
      results := before[taskId := o];
    }

    method Submit(layer: seq<Id>, taskMap: map<Id, DelegatedTask>)
      requires KeyedById(taskMap) && forall id | id in layer :: id in taskMap
      modifies this`events, taskMap.Values
      ensures forall id | id in taskMap && id !in layer ::
        taskMap[id].status == old(taskMap[id].status) && taskMap[id].result == old(taskMap[id].result)
      ensures forall id | id in layer :: taskMap[id].status == InProgress
      ensures events == old(events) + Starts(layer)
    {
      for i := 0 to |layer|
        invariant forall id | id in taskMap && id !in layer ::
          taskMap[id].status == old(taskMap[id].status) && taskMap[id].result == old(taskMap[id].result)
        invariant forall j | 0 <= j < i :: taskMap[layer[j]].status == InProgress
        invariant events == old(events) + Starts(layer[..i])
      {
        assert layer[i] in layer;
        taskMap[layer[i]].status := InProgress;
        events := events + [Started(layer[i])];
      }
    }

    /** Runs one layer; `order` is the order in which its tasks finish. */
    method RunLayer(layer: seq<Id>, order: seq<Id>, taskMap: map<Id, DelegatedTask>,
                    outcome: Id -> Outcome, before: map<Id, Outcome>)
      returns (results: map<Id, Outcome>)
      requires KeyedById(taskMap) && AllSettled(taskMap, before, outcome)
      requires Elems(order) == Elems(layer) <= taskMap.Keys && before.Keys !! Elems(layer)
      modifies this, taskMap.Values
      ensures results.Keys == before.Keys + Elems(layer)
      ensures AllSettled(taskMap, results, outcome)
      ensures tasksCompleted == old(tasksCompleted) + Successes(order, outcome)
      ensures events == old(events) + Starts(layer) + Ends(order)
    {
      assert forall id | id in layer :: id in Elems(layer);
      Submit(layer, taskMap);
      results := Collect(order, taskMap, outcome, before);
    }

    method Collect(order: seq<Id>, taskMap: map<Id, DelegatedTask>, outcome: Id -> Outcome,
                   before: map<Id, Outcome>)
      returns (results: map<Id, Outcome>)
      requires KeyedById(taskMap) && AllSettled(taskMap, before, outcome) && Elems(order) <= taskMap.Keys
      modifies this, taskMap.Values
      ensures results.Keys == before.Keys + Elems(order)
      ensures AllSettled(taskMap, results, outcome)
      ensures tasksCompleted == old(tasksCompleted) + Successes(order, outcome)
      ensures events == old(events) + Ends(order)
    {
      hide KeyedById, AllSettled, Successes, Elems;
      results := before;
      NoneSettled(map[], outcome);
      for i := 0 to |order|
        invariant results.Keys == before.Keys + Elems(order[..i])
        invariant AllSettled(taskMap, results, outcome)
        invariant tasksCompleted == old(tasksCompleted) + Successes(order[..i], outcome)
        invariant events == old(events) + Ends(order[..i])
      {
        OneMoreSettled(order, i, outcome);
        results := Settle(order[i], taskMap, outcome, results);
      }
      assert order[..|order|] == order;
    }

    /** `task_map`: of two tasks with one id, the later counts. */
    method ById(tasks: seq<DelegatedTask>) returns (byId: map<Id, DelegatedTask>)
      ensures KeyedById(byId) && IsTaskMap(tasks, byId)
    {
      byId := map[];
      for i := 0 to |tasks|
        invariant KeyedById(byId) && IsTaskMap(tasks[..i], byId)
      {
        byId := byId[tasks[i].taskId := tasks[i]];
        assert forall j | 0 <= j < i :: tasks[..i + 1][j] == tasks[..i][j];
      }
      assert tasks[..|tasks|] == tasks;
    }

    /** Every task is executed exactly once, whether or not what it depends on failed, and settled as it
        ended; on a complete acyclic graph each starts after everything it depends on has ended. */
    method ExecuteParallel(tasks: seq<DelegatedTask>, outcome: Id -> Outcome, finishing: seq<Id> -> seq<Id>)
      returns (results: map<Id, Outcome>, ghost taskMap: map<Id, DelegatedTask>, ghost trace: seq<Event>)
      requires FinishesEach(finishing)
      modifies this, tasks
      ensures IsTaskMap(tasks, taskMap)
      ensures results == map id | id in taskMap :: outcome(id)
      ensures forall id | id in taskMap ::
        && taskMap[id].result == Some(outcome(id))
        && taskMap[id].status == if outcome(id).Returned? then Done else Errored
      ensures forall t | t in tasks && t !in taskMap.Values :: unchanged(t)
      ensures events == old(events) + trace && |trace| == 2 * |taskMap| && EndsAfterStart(trace)
      ensures NoDup(Log(trace)) && Elems(Log(trace)) == taskMap.Keys
      ensures tasksCompleted == old(tasksCompleted) + |Returning(taskMap.Keys, outcome)|
      ensures WellFounded(taskMap) ==>
        forall i, d | 0 <= i < |trace| && trace[i].Started? && trace[i].id in taskMap
          && d in taskMap[trace[i].id].dependsOn :: d in Log(trace[..i])
    {
      hide *;
      var byId := ById(tasks);
      taskMap := byId;
      FromTasks(tasks, byId);
      results, trace := ExecuteAll(byId, outcome, finishing);
    }

    /** Finds the layers and runs them. */
    method ExecuteAll(taskMap: map<Id, DelegatedTask>, outcome: Id -> Outcome, finishing: seq<Id> -> seq<Id>)
      returns (results: map<Id, Outcome>, ghost trace: seq<Event>)
      requires FinishesEach(finishing) && KeyedById(taskMap)
      modifies this, taskMap.Values
      ensures results == map id | id in taskMap :: outcome(id)
      ensures forall id | id in taskMap ::
        && taskMap[id].result == Some(outcome(id))
        && taskMap[id].status == if outcome(id).Returned? then Done else Errored
      ensures events == old(events) + trace && |trace| == 2 * |taskMap| && EndsAfterStart(trace)
      ensures NoDup(Log(trace)) && Elems(Log(trace)) == taskMap.Keys
      ensures tasksCompleted == old(tasksCompleted) + |Returning(taskMap.Keys, outcome)|
      ensures WellFounded(taskMap) ==>
        forall i, d | 0 <= i < |trace| && trace[i].Started? && trace[i].id in taskMap
          && d in taskMap[trace[i].id].dependsOn :: d in Log(trace[..i])
    {
      hide *;
      var dependencies := DependencySets(taskMap);
      var layers := TopologicalLayers(taskMap.Keys, dependencies);
      SameIds(taskMap);
      StartCovering(dependencies, taskMap, layers);
      results, trace := RunLayers(layers, taskMap, outcome, finishing);
      AllRan(taskMap, layers, trace, results, outcome);
      if WellFounded(taskMap) { StartedInOrder(taskMap, layers, trace); }
    }

    /** Runs the layers one after the other. */
    method RunLayers(layers: seq<seq<Id>>, taskMap: map<Id, DelegatedTask>, outcome: Id -> Outcome,
                     finishing: seq<Id> -> seq<Id>)
      returns (results: map<Id, Outcome>, ghost trace: seq<Event>)
      requires FinishesEach(finishing)
      requires KeyedById(taskMap) && DependencySets(taskMap).Keys == taskMap.Keys
      requires Sets(layers) == Layers(DependencySets(taskMap))
      requires (forall k | 0 <= k < |layers| :: NoDup(layers[k])) && Ran(DependencySets(taskMap), layers, [], 0)
      modifies this, taskMap.Values
      ensures Ran(DependencySets(taskMap), layers, trace, |layers|) && results.Keys == Elems(Log(trace))
      ensures AllSettled(taskMap, results, outcome) && events == old(events) + trace
      ensures tasksCompleted == old(tasksCompleted) + Successes(Log(trace), outcome)
    {
      hide *;
      results, trace := map[], [];
      NoneSettled(taskMap, outcome);
      for k := 0 to |layers|
        invariant Ran(DependencySets(taskMap), layers, trace, k) && results.Keys == Elems(Log(trace))
        invariant AllSettled(taskMap, results, outcome) && events == old(events) + trace
        invariant tasksCompleted == old(tasksCompleted) + Successes(Log(trace), outcome)
      {
        var order := finishing(layers[k]);
        LayerFinishes(finishing, layers[k]);
        LayerIsNext(DependencySets(taskMap), layers, trace, k);
        results := RunLayer(layers[k], order, taskMap, outcome, results);
        RanNext(DependencySets(taskMap), layers, trace, order, k, outcome);
        trace := trace + Starts(layers[k]) + Ends(order);
      }
    }
  }

  /** The tasks depend on each other without cycles, and on no others. */
  ghost predicate WellFounded(taskMap: map<Id, DelegatedTask>) {
    var deps := map id | id in taskMap :: set d | d in taskMap[id].dependsOn;
    Acyclic(deps) && AllPresent(deps)
  }

  /** The first `k` layers have been run. */
  ghost predicate Ran(deps: Graph, layers: seq<seq<Id>>, trace: seq<Event>, k: nat)
    requires k <= |layers|
  {
    && Covers(Log(trace), layers, k) && |trace| == 2 * |Log(trace)| && EndsAfterStart(trace)
    && (Acyclic(deps) && AllPresent(deps) ==> StartsAfterDependencies(deps, trace))
  }

  lemma AllRan(taskMap: map<Id, DelegatedTask>, layers: seq<seq<Id>>, trace: seq<Event>, results: map<Id, Outcome>,
               outcome: Id -> Outcome)
    requires Sets(layers) == Layers(DependencySets(taskMap)) && Ran(DependencySets(taskMap), layers, trace, |layers|)
    requires results.Keys == Elems(Log(trace)) && AllSettled(taskMap, results, outcome)
    ensures NoDup(Log(trace)) && Elems(Log(trace)) == taskMap.Keys && EndsAfterStart(trace)
    ensures |trace| == 2 * |taskMap| && results == map id | id in taskMap :: outcome(id)
    ensures forall id | id in taskMap ::
      && taskMap[id].result == Some(outcome(id))
      && taskMap[id].status == if outcome(id).Returned? then Done else Errored
    ensures Successes(Log(trace), outcome) == |Returning(taskMap.Keys, outcome)|
  {
    hide NoDup, Acyclic, AllPresent, StartsAfterDependencies, Layers, Sets, Log, Successes, Returning, EndsAfterStart,
      AllSettled, Elems, Covers;
    assert DependencySets(taskMap).Keys == taskMap.Keys;
    AllCovered(DependencySets(taskMap), layers, Log(trace));
    SuccessesCount(Log(trace), outcome);
    SizeOfElems(Log(trace));
    assert |taskMap| == |taskMap.Keys|;
    EachAsItEnded(taskMap, results, outcome);
  }

  lemma EachAsItEnded(taskMap: map<Id, DelegatedTask>, results: map<Id, Outcome>, outcome: Id -> Outcome)
    requires results.Keys == taskMap.Keys && AllSettled(taskMap, results, outcome)
    ensures results == map id | id in taskMap :: outcome(id)
    ensures forall id | id in taskMap ::
      && taskMap[id].result == Some(outcome(id))
      && taskMap[id].status == if outcome(id).Returned? then Done else Errored
  {
  }

  lemma StartedInOrder(taskMap: map<Id, DelegatedTask>, layers: seq<seq<Id>>, trace: seq<Event>)
    requires Ran(DependencySets(taskMap), layers, trace, |layers|) && WellFounded(taskMap)
    ensures forall i, d | 0 <= i < |trace| && trace[i].Started? && trace[i].id in taskMap
      && d in taskMap[trace[i].id].dependsOn :: d in Log(trace[..i])
  {
    hide Covers, Acyclic, AllPresent, Log, EndsAfterStart;
    var deps := DependencySets(taskMap);
    assert deps == map id | id in taskMap :: set d | d in taskMap[id].dependsOn;
    forall i, d | 0 <= i < |trace| && trace[i].Started? && trace[i].id in taskMap
      && d in taskMap[trace[i].id].dependsOn ensures d in Log(trace[..i])
    {
      assert d in Needs(deps, trace[i].id);
    }
  }

  lemma {:induction false} SizeOfElems(ids: seq<Id>)
    requires NoDup(ids)
    ensures |Elems(ids)| == |ids|
    decreases |ids|
  {
    if ids != [] {
      var init, last := ids[..|ids| - 1], ids[|ids| - 1];
      SizeOfElems(init);
      AppendFresh(init, last);
      assert init + [last] == ids && last !in init;
    }
  }

  /** The values of `taskMap` are the last tasks of `tasks` with their ids. */
  ghost predicate IsTaskMap(tasks: seq<DelegatedTask>, taskMap: map<Id, DelegatedTask>) {
    && (forall i | 0 <= i < |tasks| :: tasks[i].taskId in taskMap)
    && (forall id | id in taskMap :: taskMap[id] in tasks && taskMap[id].taskId == id)
    && forall i | 0 <= i < |tasks| && (forall j | i < j < |tasks| :: tasks[j].taskId != tasks[i].taskId) ::
         taskMap[tasks[i].taskId] == tasks[i]
  }

  lemma FromTasks(tasks: seq<DelegatedTask>, taskMap: map<Id, DelegatedTask>)
    requires IsTaskMap(tasks, taskMap)
    ensures forall id | id in taskMap :: taskMap[id] in tasks
  {
  }

  lemma SameIds(taskMap: map<Id, DelegatedTask>)
    ensures DependencySets(taskMap).Keys == taskMap.Keys
  {
  }

  lemma StartCovering(deps: Graph, taskMap: map<Id, DelegatedTask>, layers: seq<seq<Id>>)
    requires deps == DependencySets(taskMap) && |layers| == |LayersFrom(deps, taskMap.Keys, {})|
    requires forall k | 0 <= k < |layers| :: Elems(layers[k]) == LayersFrom(deps, taskMap.Keys, {})[k]
    ensures Sets(layers) == Layers(deps) && Log([]) == [] && Ran(deps, layers, [], 0)
  {
    assert deps.Keys == taskMap.Keys;
  }

  lemma AllCovered(deps: Graph, layers: seq<seq<Id>>, log: seq<Id>)
    requires Sets(layers) == Layers(deps) && Covers(log, layers, |layers|)
    ensures NoDup(log) && Elems(log) == deps.Keys
  {
    EveryTaskInOneLayer(deps);
    assert layers[..|layers|] == layers;
  }

  lemma RanNext(deps: Graph, layers: seq<seq<Id>>, trace: seq<Event>, order: seq<Id>, k: nat, outcome: Id -> Outcome)
    requires k < |layers| && Sets(layers) == Layers(deps) && Ran(deps, layers, trace, k)
    requires NoDup(order) && NoDup(layers[k]) && Elems(order) == Elems(layers[k])
    ensures
      var more := trace + Starts(layers[k]) + Ends(order);
      && Ran(deps, layers, more, k + 1) && Elems(Log(more)) == Elems(Log(trace)) + Elems(order)
      && Successes(Log(more), outcome) == Successes(Log(trace), outcome) + Successes(order, outcome)
  {
    hide Acyclic, AllPresent, Layers, StartsAfterDependencies, EndsAfterStart, NoDup, Successes, Log;
    LayerIsNext(deps, layers, trace, k);
    AppendDisjoint(Log(trace), order);
    assert Sets(layers[..k + 1]) == Sets(layers[..k]) + [Elems(layers[k])];
    FlattenAppend(Sets(layers[..k]), Elems(layers[k]));
    SizeOfElems(order);
    SizeOfElems(layers[k]);
    SuccessesAdd(Log(trace), order, outcome);
    LayerEnds(trace, layers[k], order);
    if Acyclic(deps) && AllPresent(deps) { LayerStarts(deps, trace, layers[k], order); }
  }

  /** What the layering theorems say about the next layer to run. */
  lemma LayerIsNext(deps: Graph, layers: seq<seq<Id>>, trace: seq<Event>, k: nat)
    requires k < |layers| && Sets(layers) == Layers(deps) && Ran(deps, layers, trace, k)
    ensures Elems(layers[k]) <= deps.Keys && Elems(layers[k]) !! Elems(Log(trace)) && NoDup(Log(trace))
    ensures Acyclic(deps) && AllPresent(deps) ==> forall t | t in layers[k] :: Needs(deps, t) <= Elems(Log(trace))
  {
    hide Log;
    var log := Log(trace);
    assert Sets(layers[..k]) == Layers(deps)[..k];
    LayerAt(deps, deps.Keys, {}, k);
    assert Elems(layers[k]) == Layers(deps)[k];
    if Acyclic(deps) && AllPresent(deps) {
      LayerIsReadySet(deps, k);
      forall t | t in layers[k] ensures Needs(deps, t) <= Elems(log) {
        assert t in Elems(layers[k]);
      }
    }
  }
}
