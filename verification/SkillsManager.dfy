/** The skills manager: loaded skills and their trigger index, changed in place. */
module SkillsManager {
  import opened Collections
  import opened TriggerIndex
  import opened SkillList
  import opened SkillMatching

  class LoadedSkill {
    const name: string
    const triggers: seq<string>
    const actions: seq<string>
    const path: string
    var enabled: bool

    constructor (s: Skill)
      ensures View() == s
    {
      name, triggers, actions, path, enabled := s.name, s.triggers, s.actions, s.path, s.enabled;
    }

    ghost function View(): Skill
      reads this
    {
      Skill(name, triggers, actions, path, enabled)
    }
  }

  class SkillsManager {
    const norm: string -> string         // lower-casing and stripping
    var skills: seq<LoadedSkill>         // the dictionary of skills, in insertion order
    var triggerIndex: seq<Entry>         // the dictionary of triggers, in insertion order

    ghost predicate Valid()
      reads this
    {
      forall i, j | 0 <= i < j < |skills| :: skills[i].name != skills[j].name
    }

    ghost function View(): seq<Skill>
      reads this, skills
    {
      seq(|skills|, i requires 0 <= i < |skills| reads this, skills => skills[i].View())
    }

    /** The index is what a rebuild from the enabled skills would give. */
    ghost predicate IndexAgrees()
      reads this, skills
    {
      triggerIndex == Build(Entries(norm, View()))
    }

    constructor (norm: string -> string)
      ensures Valid() && IndexAgrees() && View() == [] && this.norm == norm
    {
      this.norm, skills, triggerIndex := norm, [], [];
    }

    /** The position of a name, or the number of skills. */
    method Find(name: string) returns (i: nat)
      ensures i <= |skills| && (forall j | 0 <= j < i :: skills[j].name != name)
      ensures i < |skills| ==> skills[i].name == name
    {
      i := 0;
      while i < |skills| && skills[i].name != name
        invariant i <= |skills| && forall j | 0 <= j < i :: skills[j].name != name
      {
        i := i + 1;
      }
    }

    /** Stores a parsed file; the index is not rebuilt. */
    method LoadSkillFile(parsed: Option<Skill>) returns (loaded: bool)
      requires Valid()
      modifies this`skills
      ensures Valid() && View() == StoreIfParsed(old(View()), parsed) && loaded == parsed.Some?
      ensures forall s | s in skills :: s in old(skills) || fresh(s)
    {
      hide Store;
      if parsed == None { return false; }
      var s := parsed.value;
      var i := Find(s.name);
      StoreAt(View(), s, i);
      var created := new LoadedSkill(s);
      skills := if i < |skills| then skills[i := created] else skills + [created];
      assert View() == StoreIfParsed(old(View()), parsed);
      loaded := true;
    }

    /** Rebuilds the index from the enabled skills. */
    method BuildTriggerIndex()
      requires Valid()
      modifies this`triggerIndex
      ensures Valid() && IndexAgrees() && View() == old(View())
    {
      hide Build, Entries, SkillEntries;
      triggerIndex := [];
      ghost var v := View();
      NoEntries(norm);
      for i := 0 to |skills|
        invariant View() == v && triggerIndex == Build(Entries(norm, v[..i]))
      {
        EntriesNext(norm, v, i);
        assert v[i] == skills[i].View();
        IndexSkill(skills[i], Entries(norm, v[..i]));
      }
      assert v[..|v|] == v;
    }

    /** Adds the triggers of one skill to an index that holds the entries `before`. */
    method IndexSkill(s: LoadedSkill, ghost before: seq<Entry>)
      requires triggerIndex == Build(before)
      modifies this`triggerIndex
      ensures triggerIndex == Build(before + SkillEntries(norm, s.View()))
    {
      ghost var more := SkillEntries(norm, s.View());
      assert before + more[..0] == before && before + [] == before;
      if s.enabled && s.actions != [] && s.actions[0] != "" {
        for j := 0 to |s.triggers|
          invariant triggerIndex == Build(before + more[..j])
        {
          BuildNext(before, more, j);
          triggerIndex := Insert(triggerIndex, Entry(norm(s.triggers[j]), Target(s.name, s.actions[0])));
        }
        assert more[..|more|] == more;
      }
    }

    /** Loads the skill files found, then rebuilds the index. */
    method LoadAll(files: seq<Option<Skill>>) returns (count: nat)
      requires Valid()
      modifies this
      ensures Valid() && IndexAgrees() && View() == StoreAll(old(View()), files)
      ensures Loaded(old(View()), files, View())
      ensures count == |ParsedAmong(files, |files|)|
    {
      hide Loaded, StoreAll, StoreIfParsed, ParsedAmong, IndexAgrees;
      count := 0;
      NothingYet(old(View()), files);
      for i := 0 to |files|
        invariant Valid() && View() == StoreAll(old(View()), files[..i])
        invariant count == |ParsedAmong(files, i)|
        invariant forall s | s in skills :: s in old(skills) || fresh(s)
      {
        var loaded := LoadSkillFile(files[i]);
        if loaded { count := count + 1; }
        OneMoreParsed(files, i);
        StoreAllNext(old(View()), files, i);
      }
      assert files[..|files|] == files;
      StoreAllLoads(old(View()), files);
      BuildTriggerIndex();
    }

    /** Reloads the skill of one file: what was loaded from it is dropped, even when it no longer
        parses. */
    method ReloadSkill(path: string, parsed: Option<Skill>)
      requires Valid() && (parsed.Some? ==> parsed.value.path == path)
      modifies this
      ensures Valid() && IndexAgrees()
      ensures View() == StoreIfParsed(DropPath(old(View()), path), parsed)
      ensures Reloaded(old(View()), path, parsed, View())
    {
      hide DropPath, StoreIfParsed, IndexAgrees, Reloaded;
      ReloadReloads(View(), path, parsed);
      DropSkillAt(path);
      var loaded := LoadSkillFile(parsed);
      BuildTriggerIndex();
    }

    /** Drops the first skill loaded from `path`; the index is not rebuilt. */
    method DropSkillAt(path: string)
      requires Valid()
      modifies this`skills
      ensures Valid() && View() == DropPath(old(View()), path)
      ensures forall s | s in skills :: s in old(skills)
    {
      hide DropPath;
      var i := 0;
      while i < |skills| && skills[i].path != path
        invariant i <= |skills| && forall j | 0 <= j < i :: skills[j].path != path
      {
        i := i + 1;
      }
      DropPathAt(View(), path, i);
      if i < |skills| { RemoveAt(i); }
    }

    method RemoveAt(i: nat)
      requires Valid() && i < |skills|
      modifies this`skills
      ensures Valid() && View() == old(View())[..i] + old(View())[i + 1..]
      ensures forall s | s in skills :: s in old(skills)
    {
      skills := skills[..i] + skills[i + 1..];
      assert View() == old(View())[..i] + old(View())[i + 1..];
    }

    method Enable(name: string, enabled: bool) returns (known: bool)
      requires Valid() && IndexAgrees()
      modifies this`triggerIndex, skills
      ensures Valid() && IndexAgrees() && skills == old(skills)
      ensures known <==> exists i | 0 <= i < |old(View())| :: old(View())[i].name == name
      ensures View() == if known then SetEnabled(old(View()), name, enabled) else old(View())
      ensures known ==> EnabledAt(old(View()), name, enabled, View())
    {
      hide SetEnabled, IndexAgrees;
      var i := Find(name);
      if i == |skills| {
        assert forall j | 0 <= j < |skills| :: View()[j].name == skills[j].name;
        return false;
      }
      SetEnabledAt(View(), name, enabled, i);
      assert View()[i].name == name;
      skills[i].enabled := enabled;
      assert View() == SetEnabled(old(View()), name, enabled);
      assert Named(old(View()), i, name);
      BuildTriggerIndex();
      known := true;
    }

    method EnableSkill(name: string) returns (known: bool)
      requires Valid() && IndexAgrees()
      modifies this`triggerIndex, skills
      ensures Valid() && IndexAgrees()
      ensures known <==> exists i | 0 <= i < |old(View())| :: old(View())[i].name == name
      ensures View() == if known then SetEnabled(old(View()), name, true) else old(View())
      ensures known ==> EnabledAt(old(View()), name, true, View())
    {
      known := Enable(name, true);
    }

    method DisableSkill(name: string) returns (known: bool)
      requires Valid() && IndexAgrees()
      modifies this`triggerIndex, skills
      ensures Valid() && IndexAgrees()
      ensures known <==> exists i | 0 <= i < |old(View())| :: old(View())[i].name == name
      ensures View() == if known then SetEnabled(old(View()), name, false) else old(View())
      ensures known ==> EnabledAt(old(View()), name, false, View())
    {
      known := Enable(name, false);
    }

    /** Uninstalls a skill; when its folder cannot be removed nothing changes. */
    method Uninstall(name: string, removed: bool) returns (done: bool)
      requires Valid() && IndexAgrees()
      modifies this
      ensures Valid() && IndexAgrees()
      ensures done <==> removed && exists i | 0 <= i < |old(View())| :: old(View())[i].name == name
      ensures View() == if done then DropName(old(View()), name) else old(View())
      ensures done ==> exists i :: Named(old(View()), i, name) && Without(old(View()), i, View())
    {
      hide DropName, IndexAgrees;
      ghost var v := View();
      var i := Find(name);
      assert forall j | 0 <= j < |skills| :: View()[j].name == skills[j].name;
      if i == |skills| || !removed { return false; }
      DropNameAt(View(), name, i);
      RemoveAt(i);
      assert Named(v, i, name) && Without(v, i, View());
      BuildTriggerIndex();
      done := true;
    }

    /** Finds the skill and action for a command; never meets a name or action that is not loaded. */
    method Match(command: string) returns (found: Option<(LoadedSkill, string)>)
      requires Valid() && IndexAgrees()
      ensures Finds(norm, View(), norm(command),
                    if found == None then None else Some(Target(found.value.0.name, found.value.1)))
      ensures found.None? <==> DirectMatch(norm, View(), norm(command)).None?
      ensures found.Some? ==>
        && found.value.0 in skills && found.value.0.enabled && found.value.1 in found.value.0.actions
        && DirectMatch(norm, View(), norm(command)) == Some(Target(found.value.0.name, found.value.1))
    {
      var key := norm(command);
      hide Finds;
      DirectMatchFinds(norm, View(), key);
      IndexMatchIsDirectMatch(norm, View(), key);
      var target := IndexMatch(triggerIndex, key);
      if target == None { return None; }
      DirectMatchIsLoaded(norm, View(), key);
      var i := Find(target.value.skill);
      ghost var k :| 0 <= k < |View()| && View()[k].name == target.value.skill && Live(View()[k]) &&
        View()[k].actions[0] == target.value.action;
      assert skills[k].name == target.value.skill;
      assert i == k;
      found := Some((skills[i], target.value.action));
    }
  }

  lemma DirectMatchIsLoaded(norm: string -> string, skills: seq<Skill>, command: string)
    requires DirectMatch(norm, skills, command).Some?
    ensures
      var t := DirectMatch(norm, skills, command).value;
      exists i | 0 <= i < |skills| :: skills[i].name == t.skill && Live(skills[i]) && skills[i].actions[0] == t.action
  {
    if LastAnswering(norm, skills, command).Some? {
      AnsweringIsLoaded(norm, skills, command);
    } else {
      AnsweringIsLoaded(norm, skills, FirstTrigger(norm, skills, command).value);
    }
  }
}
