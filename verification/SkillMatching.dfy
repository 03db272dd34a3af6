/** Which skill a command finds, told from the loaded skills alone. */
module SkillMatching {
  import opened Collections
  import opened TriggerIndex

  /** Trigger `j` of skill `i`, an enabled one whose first action has a name, reads `key` when normalised. */
  ghost predicate Triggers(norm: string -> string, skills: seq<Skill>, i: int, j: int, key: string) {
    && 0 <= i < |skills| && 0 <= j < |skills[i].triggers|
    && skills[i].enabled && skills[i].actions != [] && skills[i].actions[0] != ""
    && norm(skills[i].triggers[j]) == key
  }

  ghost predicate HasTrigger(norm: string -> string, skills: seq<Skill>, key: string) {
    exists i, j :: Triggers(norm, skills, i, j, key)
  }

  /** `t` is the first action of the last skill with the trigger. */
  ghost predicate LastWith(norm: string -> string, skills: seq<Skill>, key: string, t: Target) {
    exists i, j :: Triggers(norm, skills, i, j, key) && LastAt(norm, skills, i, key)
      && t == Target(skills[i].name, skills[i].actions[0])
  }

  ghost predicate LastAt(norm: string -> string, skills: seq<Skill>, i: int, key: string) {
    forall i', j' | Triggers(norm, skills, i', j', key) :: i' <= i
  }

  /** `key` is the first trigger, in the order of the skills and of their triggers, that the command starts
      with. */
  ghost predicate Earliest(norm: string -> string, skills: seq<Skill>, command: string, key: string) {
    exists i, j :: Triggers(norm, skills, i, j, key) && key <= command && NoneBefore(norm, skills, command, i, j)
  }

  ghost predicate NoneBefore(norm: string -> string, skills: seq<Skill>, command: string, i: int, j: int) {
    forall i', j', key' | Triggers(norm, skills, i', j', key') && key' <= command :: i < i' || (i == i' && j <= j')
  }

  /** Nothing is found exactly when the command starts with no trigger.  A trigger that is the whole command
      is preferred to one it starts with; of several skills with the chosen trigger the last is found. */
  ghost predicate Finds(norm: string -> string, skills: seq<Skill>, command: string, found: Option<Target>) {
    && (found.None? <==> forall i, j, key | Triggers(norm, skills, i, j, key) :: !(key <= command))
    && (found.Some? && HasTrigger(norm, skills, command) ==> LastWith(norm, skills, command, found.value))
    && (found.Some? && !HasTrigger(norm, skills, command) ==>
          exists key :: Earliest(norm, skills, command, key) && LastWith(norm, skills, key, found.value))
  }

  // ----- the last skill with a trigger

  lemma Shorter(norm: string -> string, skills: seq<Skill>, i: int, j: int, key: string)
    requires skills != []
    ensures
      var init := skills[..|skills| - 1];
      Triggers(norm, skills, i, j, key) <==>
        Triggers(norm, init, i, j, key) || (i == |skills| - 1 && Triggers(norm, skills, i, j, key))
    ensures Triggers(norm, skills[..|skills| - 1], i, j, key) ==> skills[..|skills| - 1][i] == skills[i]
  {
  }

  lemma {:induction false} LastAnsweringIsLast(norm: string -> string, skills: seq<Skill>, key: string)
    ensures LastAnswering(norm, skills, key).Some? <==> HasTrigger(norm, skills, key)
    ensures LastAnswering(norm, skills, key).Some? ==>
      LastWith(norm, skills, key, LastAnswering(norm, skills, key).value)
    decreases |skills|
  {
    hide Triggers, Answers;
    if skills != [] {
      var n, init := |skills| - 1, skills[..|skills| - 1];
      forall i, j ensures Triggers(norm, skills, i, j, key) <==>
        Triggers(norm, init, i, j, key) || (i == n && Triggers(norm, skills, i, j, key))
      {
        Shorter(norm, skills, i, j, key);
      }
      AnswersTriggers(norm, skills, key);
      TriggersInRange(norm, skills, key);
      TriggersInRange(norm, init, key);
      if Answers(norm, skills[n], key) {
        var j :| Triggers(norm, skills, n, j, key);
        assert LastAt(norm, skills, n, key);
      } else {
        LastAnsweringIsLast(norm, init, key);
        if HasTrigger(norm, init, key) {
          var t := LastAnswering(norm, init, key).value;
          var i, j :| Triggers(norm, init, i, j, key) && LastAt(norm, init, i, key)
            && t == Target(init[i].name, init[i].actions[0]);
          assert Triggers(norm, skills, i, j, key) && LastAt(norm, skills, i, key) && init[i] == skills[i];
        }
      }
    } else {
      TriggersInRange(norm, skills, key);
    }
  }

  lemma AnswersTriggers(norm: string -> string, skills: seq<Skill>, key: string)
    requires skills != []
    ensures
      var n := |skills| - 1;
      Answers(norm, skills[n], key) <==> exists j :: Triggers(norm, skills, n, j, key)
  {
    var n := |skills| - 1;
    if Answers(norm, skills[n], key) {
      var j :| 0 <= j < |skills[n].triggers| && norm(skills[n].triggers[j]) == key;
      assert Triggers(norm, skills, n, j, key);
    }
  }

  lemma TriggersInRange(norm: string -> string, skills: seq<Skill>, key: string)
    ensures forall i, j | Triggers(norm, skills, i, j, key) :: 0 <= i < |skills| && skills[i].actions != []
  {
  }

  // ----- the first trigger a command starts with

  lemma {:induction false} FirstOfIsFirst(norm: string -> string, triggers: seq<string>, command: string)
    ensures FirstOf(norm, triggers, command).None? <==>
      forall j | 0 <= j < |triggers| :: !(norm(triggers[j]) <= command)
    ensures FirstOf(norm, triggers, command).Some? ==>
      exists j :: 0 <= j < |triggers| && norm(triggers[j]) == FirstOf(norm, triggers, command).value
        && norm(triggers[j]) <= command && forall k | 0 <= k < j :: !(norm(triggers[k]) <= command)
    decreases |triggers|
  {
    if triggers != [] && !(norm(triggers[0]) <= command) {
      var rest := triggers[1..];
      FirstOfIsFirst(norm, rest, command);
      if FirstOf(norm, rest, command).Some? {
        var j :| 0 <= j < |rest| && norm(rest[j]) == FirstOf(norm, rest, command).value
          && norm(rest[j]) <= command && forall k | 0 <= k < j :: !(norm(rest[k]) <= command);
        assert triggers[j + 1] == rest[j];
        forall k | 0 <= k < j + 1 ensures !(norm(triggers[k]) <= command) {
          if k > 0 { assert triggers[k] == rest[k - 1]; }
        }
      } else {
        forall k | 0 <= k < |triggers| ensures !(norm(triggers[k]) <= command) {
          if k > 0 { assert triggers[k] == rest[k - 1]; }
        }
      }
    }
  }

  lemma {:induction false} FirstTriggerIsEarliest(norm: string -> string, skills: seq<Skill>, command: string)
    ensures FirstTrigger(norm, skills, command).None? <==>
      forall i, j, key | Triggers(norm, skills, i, j, key) :: !(key <= command)
    ensures FirstTrigger(norm, skills, command).Some? ==>
      Earliest(norm, skills, command, FirstTrigger(norm, skills, command).value)
    decreases |skills|
  {
    hide FirstOf, Triggers;
    if skills != [] {
      var init := skills[..|skills| - 1];
      FirstTriggerIsEarliest(norm, init, command);
      forall i, j, key ensures Triggers(norm, skills, i, j, key) <==>
        Triggers(norm, init, i, j, key) || (i == |init| && Triggers(norm, skills, i, j, key))
      {
        Shorter(norm, skills, i, j, key);
      }
      InRange(norm, init);
      InRange(norm, skills);
      if FirstTrigger(norm, init, command).Some? {
        var key := FirstTrigger(norm, init, command).value;
        var i, j :| Triggers(norm, init, i, j, key) && key <= command && NoneBefore(norm, init, command, i, j);
        assert Triggers(norm, skills, i, j, key) && NoneBefore(norm, skills, command, i, j);
      } else {
        EarliestInLast(norm, skills, init, command);
      }
    } else {
      InRange(norm, skills);
    }
  }

  lemma InRange(norm: string -> string, skills: seq<Skill>)
    ensures forall i, j, key | Triggers(norm, skills, i, j, key) :: 0 <= i < |skills|
  {
  }

  /** The triggers of the last skill, when the command starts with none before. */
  lemma EarliestInLast(norm: string -> string, skills: seq<Skill>, init: seq<Skill>, command: string)
    requires skills != [] && init == skills[..|skills| - 1]
    requires forall i, j, key | Triggers(norm, init, i, j, key) :: !(key <= command)
    ensures
      var s := skills[|skills| - 1];
      var first := if Live(s) then FirstOf(norm, s.triggers, command) else None;
      && (first.None? <==> forall i, j, key | Triggers(norm, skills, i, j, key) :: !(key <= command))
      && (first.Some? ==> Earliest(norm, skills, command, first.value))
  {
    hide FirstOf;
    var n := |skills| - 1;
    var s := skills[n];
    forall i, j, key | Triggers(norm, skills, i, j, key) && key <= command ensures i == n {
      Shorter(norm, skills, i, j, key);
    }
    FirstOfIsFirst(norm, s.triggers, command);
    if Live(s) && FirstOf(norm, s.triggers, command).Some? {
      var first := FirstOf(norm, s.triggers, command).value;
      var j :| 0 <= j < |s.triggers| && norm(s.triggers[j]) == first
        && norm(s.triggers[j]) <= command && forall k | 0 <= k < j :: !(norm(s.triggers[k]) <= command);
      assert Triggers(norm, skills, n, j, first) && NoneBefore(norm, skills, command, n, j);
    }
    if Live(s) && FirstOf(norm, s.triggers, command).None? {
      forall i, j, key | Triggers(norm, skills, i, j, key) ensures !(key <= command) {
        if i == n { assert norm(s.triggers[j]) == key; }
      }
    }
  }

  // ----- matching

  lemma DirectMatchFinds(norm: string -> string, skills: seq<Skill>, command: string)
    ensures Finds(norm, skills, command, DirectMatch(norm, skills, command))
  {
    hide Triggers, LastAnswering, FirstTrigger, LastAt, NoneBefore;
    LastAnsweringIsLast(norm, skills, command);
    FirstTriggerIsEarliest(norm, skills, command);
    if HasTrigger(norm, skills, command) {
      var i, j :| Triggers(norm, skills, i, j, command);
      assert command <= command;
    }
    if FirstTrigger(norm, skills, command).Some? {
      var key := FirstTrigger(norm, skills, command).value;
      LastAnsweringIsLast(norm, skills, key);
      var i, j :| Triggers(norm, skills, i, j, key) && key <= command && NoneBefore(norm, skills, command, i, j);
      assert HasTrigger(norm, skills, key);
    }
  }
}
