/** The skill trigger index (`integrations/openclaw_skills.py`): an insertion-ordered dictionary
filled from the enabled skills, and the direct scan it stands for. */
module TriggerIndex {
  import opened Collections

  /** A trigger's skill and action. */
  datatype Target = Target(skill: string, action: string)

  datatype Entry = Entry(key: string, target: Target)

  /** A loaded skill; `actions` are its action names in order, `path` its file. */
  datatype Skill = Skill(name: string, triggers: seq<string>, actions: seq<string>, path: string, enabled: bool)

  // ----- insertion-ordered dictionaries

  predicate DistinctKeys(index: seq<Entry>) {
    forall i, j | 0 <= i < j < |index| :: index[i].key != index[j].key
  }

  predicate HasKey(index: seq<Entry>, k: string) {
    exists i | 0 <= i < |index| :: index[i].key == k
  }

  /** `index[key] = target`: a key that is present keeps its place. */
  function Insert(index: seq<Entry>, e: Entry): seq<Entry> {
    if index == [] then [e]
    else if index[0].key == e.key then [e] + index[1..]
    else [index[0]] + Insert(index[1..], e)
  }

  function Build(es: seq<Entry>): seq<Entry> {
    if es == [] then [] else Insert(Build(es[..|es| - 1]), es[|es| - 1])
  }

  function Lookup(index: seq<Entry>, k: string): Option<Target> {
    if index == [] then None
    else if index[0].key == k then Some(index[0].target)
    else Lookup(index[1..], k)
  }

  /** The first key the command starts with. */
  function FirstPrefix(index: seq<Entry>, command: string): Option<string> {
    if index == [] then None
    else if index[0].key <= command then Some(index[0].key)
    else FirstPrefix(index[1..], command)
  }

  /** The last entry wins. */
  function LastTarget(es: seq<Entry>, k: string): Option<Target> {
    if es == [] then None
    else if es[|es| - 1].key == k then Some(es[|es| - 1].target)
    else LastTarget(es[..|es| - 1], k)
  }

  lemma {:induction false} InsertLookup(index: seq<Entry>, e: Entry, k: string)
    ensures Lookup(Insert(index, e), k) == if k == e.key then Some(e.target) else Lookup(index, k)
    decreases |index|
  {
    if index != [] && index[0].key != e.key {
      InsertLookup(index[1..], e, k);
    }
  }

  lemma {:induction false} InsertPrefix(index: seq<Entry>, e: Entry, command: string)
    ensures FirstPrefix(Insert(index, e), command) ==
      if FirstPrefix(index, command).Some? then FirstPrefix(index, command)
      else if e.key <= command then Some(e.key) else None
    decreases |index|
  {
    if index != [] && index[0].key != e.key {
      InsertPrefix(index[1..], e, command);
    }
  }

  lemma {:induction false} InsertKeepsDistinct(index: seq<Entry>, e: Entry)
    requires DistinctKeys(index)
    ensures DistinctKeys(Insert(index, e))
    ensures forall k :: HasKey(Insert(index, e), k) ==> k == e.key || HasKey(index, k)
    decreases |index|
  {
    if index != [] && index[0].key != e.key {
      var rest := Insert(index[1..], e);
      InsertKeepsDistinct(index[1..], e);
      assert Insert(index, e) == [index[0]] + rest;
      assert !HasKey(index[1..], index[0].key);
      assert !HasKey(rest, index[0].key);
      forall k | HasKey(Insert(index, e), k) ensures k == e.key || HasKey(index, k) {
        if k != index[0].key { assert HasKey(rest, k); }
      }
    }
  }

  /** The built index has one entry for each key, holds for each key the last target inserted, and
      meets keys in the order of their first insertion. */
  lemma {:induction false} BuildFacts(es: seq<Entry>, k: string, command: string)
    ensures DistinctKeys(Build(es))
    ensures Lookup(Build(es), k) == LastTarget(es, k)
    ensures FirstPrefix(Build(es), command) == FirstPrefix(es, command)
    decreases |es|
  {
    if es != [] {
      var init, e := es[..|es| - 1], es[|es| - 1];
      BuildFacts(init, k, command);
      InsertKeepsDistinct(Build(init), e);
      InsertLookup(Build(init), e, k);
      InsertPrefix(Build(init), e, command);
      PrefixOfAppend(init, e, command);
      assert es == init + [e];
    }
  }

  lemma {:induction false} PrefixOfAppend(es: seq<Entry>, e: Entry, command: string)
    ensures FirstPrefix(es + [e], command) ==
      if FirstPrefix(es, command).Some? then FirstPrefix(es, command)
      else if e.key <= command then Some(e.key) else None
    decreases |es|
  {
    if es != [] {
      assert (es + [e])[1..] == es[1..] + [e];
      PrefixOfAppend(es[1..], e, command);
    }
  }

  lemma {:induction false} LastTargetAppend(a: seq<Entry>, b: seq<Entry>, k: string)
    ensures LastTarget(a + b, k) == if LastTarget(b, k).Some? then LastTarget(b, k) else LastTarget(a, k)
    decreases |b|
  {
    if b == [] {
      assert a + b == a;
    } else {
      assert (a + b)[..|a + b| - 1] == a + b[..|b| - 1];
      LastTargetAppend(a, b[..|b| - 1], k);
    }
  }

  // ----- the entries of the enabled skills

  /** A skill whose triggers are indexed. */
  predicate Live(s: Skill) {
    s.enabled && s.actions != [] && s.actions[0] != ""
  }

  function TriggerEntries(norm: string -> string, triggers: seq<string>, t: Target): (es: seq<Entry>)
    ensures |es| == |triggers|
    ensures forall i | 0 <= i < |triggers| :: es[i] == Entry(norm(triggers[i]), t)
  {
    seq(|triggers|, i requires 0 <= i < |triggers| => Entry(norm(triggers[i]), t))
  }

  /** Every trigger, normalised, of every live skill, in order. */
  function Entries(norm: string -> string, skills: seq<Skill>): seq<Entry> {
    if skills == [] then []
    else
      Entries(norm, skills[..|skills| - 1]) + SkillEntries(norm, skills[|skills| - 1])
  }

  function SkillEntries(norm: string -> string, s: Skill): seq<Entry> {
    if Live(s) then TriggerEntries(norm, s.triggers, Target(s.name, s.actions[0])) else []
  }

  lemma NoEntries(norm: string -> string)
    ensures Build(Entries(norm, [])) == []
  {
  }

  lemma EntriesNext(norm: string -> string, skills: seq<Skill>, i: nat)
    requires i < |skills|
    ensures Entries(norm, skills[..i + 1]) == Entries(norm, skills[..i]) + SkillEntries(norm, skills[i])
  {
    assert skills[..i + 1][..i] == skills[..i];
  }

  lemma BuildNext(before: seq<Entry>, more: seq<Entry>, j: nat)
    requires j < |more|
    ensures Build(before + more[..j + 1]) == Insert(Build(before + more[..j]), more[j])
  {
    var es := before + more[..j + 1];
    assert es[..|es| - 1] == before + more[..j] && es[|es| - 1] == more[j];
  }

  // ----- the direct scan

  predicate Answers(norm: string -> string, s: Skill, key: string) {
    Live(s) && exists i | 0 <= i < |s.triggers| :: norm(s.triggers[i]) == key
  }

  /** The last live skill with that trigger, and its first action. */
  function LastAnswering(norm: string -> string, skills: seq<Skill>, key: string): Option<Target> {
    if skills == [] then None
    else if Answers(norm, skills[|skills| - 1], key) then
      Some(Target(skills[|skills| - 1].name, skills[|skills| - 1].actions[0]))
    else LastAnswering(norm, skills[..|skills| - 1], key)
  }

  /** The first trigger of the first live skill that the command starts with. */
  function FirstTrigger(norm: string -> string, skills: seq<Skill>, command: string): Option<string> {
    if skills == [] then None
    else
      var rest := FirstTrigger(norm, skills[..|skills| - 1], command);
      if rest.Some? || !Live(skills[|skills| - 1]) then rest
      else FirstOf(norm, skills[|skills| - 1].triggers, command)
  }

  function FirstOf(norm: string -> string, triggers: seq<string>, command: string): Option<string> {
    if triggers == [] then None
    else if norm(triggers[0]) <= command then Some(norm(triggers[0]))
    else FirstOf(norm, triggers[1..], command)
  }

  /** What `match` is meant to return for a normalised command. */
  function DirectMatch(norm: string -> string, skills: seq<Skill>, command: string): Option<Target> {
    var exact := LastAnswering(norm, skills, command);
    if exact.Some? then exact
    else
      match FirstTrigger(norm, skills, command)
      case None => None
      case Some(trigger) => LastAnswering(norm, skills, trigger)
  }

  /** What `match` computes from the index. */
  function IndexMatch(index: seq<Entry>, command: string): Option<Target> {
    var exact := Lookup(index, command);
    if exact.Some? then exact
    else
      match FirstPrefix(index, command)
      case None => None
      case Some(trigger) => Lookup(index, trigger)
  }

  lemma {:induction false} TriggerEntriesLast(norm: string -> string, triggers: seq<string>, t: Target, k: string)
    ensures LastTarget(TriggerEntries(norm, triggers, t), k) ==
      if exists i | 0 <= i < |triggers| :: norm(triggers[i]) == k then Some(t) else None
    decreases |triggers|
  {
    var es := TriggerEntries(norm, triggers, t);
    if triggers != [] {
      var init := triggers[..|triggers| - 1];
      assert es[..|es| - 1] == TriggerEntries(norm, init, t);
      TriggerEntriesLast(norm, init, t, k);
      if exists i | 0 <= i < |triggers| :: norm(triggers[i]) == k {
        var i :| 0 <= i < |triggers| && norm(triggers[i]) == k;
        if i < |init| { assert norm(init[i]) == k; }
      }
    }
  }

  lemma {:induction false} TriggerEntriesFirst(norm: string -> string, triggers: seq<string>, t: Target,
                                               command: string)
    ensures FirstPrefix(TriggerEntries(norm, triggers, t), command) == FirstOf(norm, triggers, command)
    decreases |triggers|
  {
    if triggers != [] {
      assert TriggerEntries(norm, triggers, t)[1..] == TriggerEntries(norm, triggers[1..], t);
      TriggerEntriesFirst(norm, triggers[1..], t, command);
    }
  }

  lemma {:induction false} PrefixOfConcat(a: seq<Entry>, b: seq<Entry>, command: string)
    ensures FirstPrefix(a + b, command) ==
      if FirstPrefix(a, command).Some? then FirstPrefix(a, command) else FirstPrefix(b, command)
    decreases |a|
  {
    if a == [] {
      assert a + b == b;
    } else {
      assert (a + b)[1..] == a[1..] + b;
      PrefixOfConcat(a[1..], b, command);
    }
  }

  lemma {:induction false} EntriesFacts(norm: string -> string, skills: seq<Skill>, k: string, command: string)
    ensures LastTarget(Entries(norm, skills), k) == LastAnswering(norm, skills, k)
    ensures FirstPrefix(Entries(norm, skills), command) == FirstTrigger(norm, skills, command)
    decreases |skills|
  {
    hide TriggerEntries, FirstOf;
    if skills != [] {
      var init, s := skills[..|skills| - 1], skills[|skills| - 1];
      EntriesFacts(norm, init, k, command);
      LastTargetAppend(Entries(norm, init), SkillEntries(norm, s), k);
      PrefixOfConcat(Entries(norm, init), SkillEntries(norm, s), command);
      SkillFacts(norm, s, k, command);
    }
  }

  lemma SkillFacts(norm: string -> string, s: Skill, k: string, command: string)
    ensures LastTarget(SkillEntries(norm, s), k) ==
      if Answers(norm, s, k) then Some(Target(s.name, s.actions[0])) else None
    ensures FirstPrefix(SkillEntries(norm, s), command) ==
      if Live(s) then FirstOf(norm, s.triggers, command) else None
  {
    if Live(s) {
      var t := Target(s.name, s.actions[0]);
      TriggerEntriesLast(norm, s.triggers, t, k);
      TriggerEntriesFirst(norm, s.triggers, t, command);
    }
  }

  /** Matching through the index is the direct scan: an exact trigger of the last skill that has it,
      else the earliest trigger that the command starts with. */
  lemma IndexMatchIsDirectMatch(norm: string -> string, skills: seq<Skill>, command: string)
    ensures IndexMatch(Build(Entries(norm, skills)), command) == DirectMatch(norm, skills, command)
  {
    var es := Entries(norm, skills);
    EntriesFacts(norm, skills, command, command);
    BuildFacts(es, command, command);
    match FirstPrefix(es, command) {
      case None =>
      case Some(trigger) =>
        EntriesFacts(norm, skills, trigger, command);
        BuildFacts(es, trigger, command);
    }
  }

  lemma {:induction false} AnsweringIsLoaded(norm: string -> string, skills: seq<Skill>, key: string)
    requires LastAnswering(norm, skills, key).Some?
    ensures
      var t := LastAnswering(norm, skills, key).value;
      exists i | 0 <= i < |skills| :: skills[i].name == t.skill && Live(skills[i]) && skills[i].actions[0] == t.action
    decreases |skills|
  {
    var init, s := skills[..|skills| - 1], skills[|skills| - 1];
    if !Answers(norm, s, key) {
      AnsweringIsLoaded(norm, init, key);
      var t := LastAnswering(norm, init, key).value;
      var i :| 0 <= i < |init| && init[i].name == t.skill && Live(init[i]) && init[i].actions[0] == t.action;
      assert skills[i] == init[i];
    }
  }
}
