/** The dictionary of loaded skills as a list in insertion order, and what loading, dropping and enabling do
to it. */
module SkillList {
  import opened Collections
  import opened TriggerIndex

  /** `self.skills[s.name] = s`: a name that is present keeps its place. */
  function Store(skills: seq<Skill>, s: Skill): seq<Skill> {
    if skills == [] then [s]
    else if skills[0].name == s.name then [s] + skills[1..]
    else [skills[0]] + Store(skills[1..], s)
  }

  function StoreIfParsed(skills: seq<Skill>, parsed: Option<Skill>): seq<Skill> {
    if parsed.Some? then Store(skills, parsed.value) else skills
  }

  function StoreAll(skills: seq<Skill>, files: seq<Option<Skill>>): seq<Skill> {
    if files == [] then skills else StoreIfParsed(StoreAll(skills, files[..|files| - 1]), files[|files| - 1])
  }

  /** The positions before `n` of files that parsed. */
  function ParsedAmong(files: seq<Option<Skill>>, n: nat): set<nat>
    requires n <= |files|
  {
    set i: nat | i < n && files[i].Some?
  }

  lemma OneMoreParsed(files: seq<Option<Skill>>, i: nat)
    requires i < |files|
    ensures |ParsedAmong(files, i + 1)| == |ParsedAmong(files, i)| + if files[i].Some? then 1 else 0
  {
    assert ParsedAmong(files, i + 1) == ParsedAmong(files, i) + if files[i].Some? then {i} else {};
  }

  lemma StoreAllNext(skills: seq<Skill>, files: seq<Option<Skill>>, i: nat)
    requires i < |files|
    ensures StoreAll(skills, files[..i + 1]) == StoreIfParsed(StoreAll(skills, files[..i]), files[i])
  {
    assert files[..i + 1][..i] == files[..i];
  }

  lemma NothingYet(skills: seq<Skill>, files: seq<Option<Skill>>)
    ensures StoreAll(skills, files[..0]) == skills && ParsedAmong(files, 0) == {}
  {
  }

  /** Drops the first skill loaded from `path`. */
  function DropPath(skills: seq<Skill>, path: string): seq<Skill> {
    if skills == [] then []
    else if skills[0].path == path then skills[1..]
    else [skills[0]] + DropPath(skills[1..], path)
  }

  function DropName(skills: seq<Skill>, name: string): seq<Skill> {
    if skills == [] then []
    else if skills[0].name == name then skills[1..]
    else [skills[0]] + DropName(skills[1..], name)
  }

  function SetEnabled(skills: seq<Skill>, name: string, enabled: bool): seq<Skill> {
    if skills == [] then []
    else if skills[0].name == name then [skills[0].(enabled := enabled)] + skills[1..]
    else [skills[0]] + SetEnabled(skills[1..], name, enabled)
  }

  lemma {:induction false} StoreAt(skills: seq<Skill>, s: Skill, i: nat)
    requires i <= |skills| && forall j | 0 <= j < i :: skills[j].name != s.name
    requires i < |skills| ==> skills[i].name == s.name
    ensures Store(skills, s) == if i < |skills| then skills[i := s] else skills + [s]
    decreases |skills|
  {
    if skills != [] && i > 0 {
      StoreAt(skills[1..], s, i - 1);
    }
  }

  lemma DropLater(skills: seq<Skill>, i: nat)
    requires 0 < i < |skills|
    ensures skills[..i] + skills[i + 1..] == [skills[0]] + (skills[1..][..i - 1] + skills[1..][i..])
  {
  }

  lemma {:induction false} DropPathAt(skills: seq<Skill>, path: string, i: nat)
    requires i <= |skills| && forall j | 0 <= j < i :: skills[j].path != path
    requires i < |skills| ==> skills[i].path == path
    ensures DropPath(skills, path) == if i < |skills| then skills[..i] + skills[i + 1..] else skills
    decreases |skills|
  {
    if skills != [] && i > 0 {
      DropPathAt(skills[1..], path, i - 1);
      if i < |skills| { DropLater(skills, i); }
    }
  }

  lemma {:induction false} DropNameAt(skills: seq<Skill>, name: string, i: nat)
    requires i < |skills| && skills[i].name == name && forall j | 0 <= j < i :: skills[j].name != name
    ensures DropName(skills, name) == skills[..i] + skills[i + 1..]
    decreases |skills|
  {
    if i > 0 {
      DropNameAt(skills[1..], name, i - 1);
      DropLater(skills, i);
    }
  }

  lemma {:induction false} SetEnabledAt(skills: seq<Skill>, name: string, enabled: bool, i: nat)
    requires i < |skills| && skills[i].name == name && forall j | 0 <= j < i :: skills[j].name != name
    ensures SetEnabled(skills, name, enabled) == skills[i := skills[i].(enabled := enabled)]
    decreases |skills|
  {
    if i > 0 { SetEnabledAt(skills[1..], name, enabled, i - 1); }
  }

  // ----- what these do

  predicate Named(skills: seq<Skill>, i: int, name: string) {
    0 <= i < |skills| && skills[i].name == name
  }

  ghost predicate DistinctNames(skills: seq<Skill>) {
    forall i, j | 0 <= i < j < |skills| :: skills[i].name != skills[j].name
  }

  /** `s` has been stored: in the place of the skill with its name, or else at the end. */
  ghost predicate StoredOne(before: seq<Skill>, s: Skill, after: seq<Skill>) {
    || (exists i :: Named(before, i, s.name) && after == before[i := s])
    || ((forall i :: !Named(before, i, s.name)) && after == before + [s])
  }

  lemma StoreStores(skills: seq<Skill>, s: Skill)
    ensures StoredOne(skills, s, Store(skills, s))
  {
    var i := FirstWhere(skills, (x: Skill) => x.name == s.name);
    StoreAt(skills, s, i);
    if i < |skills| { assert Named(skills, i, s.name); }
  }

  /** The first position whose skill satisfies `p`, or the length. */
  function FirstWhere(skills: seq<Skill>, p: Skill -> bool): (i: nat)
    ensures i <= |skills| && (forall j | 0 <= j < i :: !p(skills[j])) && (i < |skills| ==> p(skills[i]))
  {
    if skills == [] || p(skills[0]) then 0
    else
      var i := FirstWhere(skills[1..], p);
      assert forall j | 1 <= j < i + 1 :: skills[j] == skills[1..][j - 1];
      i + 1
  }

  /** The skill of that name is enabled or disabled, and nothing else has changed. */
  ghost predicate EnabledAt(before: seq<Skill>, name: string, enabled: bool, after: seq<Skill>) {
    exists i :: Named(before, i, name) && after == before[i := before[i].(enabled := enabled)]
  }

  /** The skill at `i` is gone and nothing else has changed. */
  ghost predicate Without(before: seq<Skill>, i: int, after: seq<Skill>) {
    0 <= i < |before| && after == before[..i] + before[i + 1..]
  }

  /** The first skill of the file is gone. */
  ghost predicate DroppedPath(before: seq<Skill>, path: string, after: seq<Skill>) {
    || ((forall s | s in before :: s.path != path) && after == before)
    || exists i :: Without(before, i, after) && before[i].path == path
         && forall j | 0 <= j < i :: before[j].path != path
  }

  lemma DropPathDrops(skills: seq<Skill>, path: string)
    ensures DroppedPath(skills, path, DropPath(skills, path))
  {
    var i := FirstWhere(skills, (x: Skill) => x.path == path);
    DropPathAt(skills, path, i);
    if i < |skills| {
      assert Without(skills, i, DropPath(skills, path)) && skills[i].path == path;
    } else {
      assert forall s | s in skills :: s.path != path;
    }
  }

  /** What was loaded from the file is gone, and its new version, if there is one, stored. */
  ghost predicate Reloaded(before: seq<Skill>, path: string, parsed: Option<Skill>, after: seq<Skill>) {
    exists mid :: DroppedPath(before, path, mid) &&
      match parsed
      case None => after == mid
      case Some(s) => StoredOne(mid, s, after)
  }

  lemma ReloadReloads(skills: seq<Skill>, path: string, parsed: Option<Skill>)
    ensures Reloaded(skills, path, parsed, StoreIfParsed(DropPath(skills, path), parsed))
  {
    DropPathDrops(skills, path);
    if parsed.Some? { StoreStores(DropPath(skills, path), parsed.value); }
  }

  // ----- storing many

  /** File `j` holds a skill of the name. */
  predicate Defines(files: seq<Option<Skill>>, j: int, name: string) {
    0 <= j < |files| && files[j].Some? && files[j].value.name == name
  }

  ghost predicate Defined(files: seq<Option<Skill>>, name: string) {
    exists j :: Defines(files, j, name)
  }

  /** `s` is what the last file with its name holds. */
  ghost predicate Latest(files: seq<Option<Skill>>, s: Skill) {
    exists j :: Defines(files, j, s.name) && files[j] == Some(s) && forall k | Defines(files, k, s.name) :: k <= j
  }

  /** Some file holds a skill named `a` and no file up to it one named `b`. */
  ghost predicate DefinedBefore(files: seq<Option<Skill>>, a: string, b: string) {
    exists j :: Defines(files, j, a) && forall k | Defines(files, k, b) :: j < k
  }

  /** Every loaded name is that of a skill from before or of a file; each skill is that of the last file with
      its name, or from before if no file has it; those from before keep their places, and new names come after
      them in the order of the files. */
  ghost predicate Loaded(before: seq<Skill>, files: seq<Option<Skill>>, after: seq<Skill>) {
    && DistinctNames(after) && |before| <= |after|
    && (forall i | 0 <= i < |before| :: after[i].name == before[i].name)
    && (forall i | 0 <= i < |after| ::
          Latest(files, after[i]) || (!Defined(files, after[i].name) && i < |before| && after[i] == before[i]))
    && (forall name | Defined(files, name) :: exists i :: Named(after, i, name))
    && (forall i, j | |before| <= i < j < |after| :: DefinedBefore(files, after[i].name, after[j].name))
  }

  lemma OneMoreFile(files: seq<Option<Skill>>, parsed: Option<Skill>)
    ensures forall j, name :: Defines(files + [parsed], j, name) <==>
      Defines(files, j, name) || (j == |files| && parsed.Some? && parsed.value.name == name)
  {
  }

  lemma OneMoreLatest(files: seq<Option<Skill>>, parsed: Option<Skill>, x: Skill)
    requires parsed.Some? ==> parsed.value.name != x.name
    ensures Latest(files, x) ==> Latest(files + [parsed], x)
    ensures Defined(files + [parsed], x.name) <==> Defined(files, x.name)
  {
    OneMoreFile(files, parsed);
    if Latest(files, x) {
      var j :| Defines(files, j, x.name) && files[j] == Some(x) && forall k | Defines(files, k, x.name) :: k <= j;
      assert Defines(files + [parsed], j, x.name) && (files + [parsed])[j] == Some(x);
    }
    if Defined(files, x.name) {
      var j :| Defines(files, j, x.name);
      assert Defines(files + [parsed], j, x.name);
    }
  }

  lemma DefinedElsewhere(files: seq<Option<Skill>>, parsed: Option<Skill>, name: string)
    requires Defined(files + [parsed], name) && (parsed.Some? ==> parsed.value.name != name)
    ensures Defined(files, name)
  {
    OneMoreFile(files, parsed);
  }

  lemma NewestIsLatest(files: seq<Option<Skill>>, s: Skill)
    ensures Latest(files + [Some(s)], s)
  {
    assert Defines(files + [Some(s)], |files|, s.name);
  }

  lemma OneMoreOrdered(files: seq<Option<Skill>>, parsed: Option<Skill>, a: string, b: string)
    requires DefinedBefore(files, a, b)
    ensures DefinedBefore(files + [parsed], a, b)
  {
    OneMoreFile(files, parsed);
    var j :| Defines(files, j, a) && forall k | Defines(files, k, b) :: j < k;
    assert Defines(files + [parsed], j, a);
  }

  lemma NewNameIsLater(files: seq<Option<Skill>>, s: Skill, a: string)
    requires Defined(files, a) && !Defined(files, s.name)
    ensures DefinedBefore(files + [Some(s)], a, s.name)
  {
    OneMoreFile(files, Some(s));
    var j :| Defines(files, j, a);
    assert Defines(files + [Some(s)], j, a);
  }

  lemma LatestIsDefined(files: seq<Option<Skill>>, s: Skill)
    requires Latest(files, s)
    ensures Defined(files, s.name)
  {
  }

  lemma NothingParsed(before: seq<Skill>, files: seq<Option<Skill>>, after: seq<Skill>)
    requires Loaded(before, files, after)
    ensures Loaded(before, files + [None], after)
  {
    var more := files + [None];
    OneMoreFile(files, None);
    hide Defines, Latest, Defined, DefinedBefore, DistinctNames;
    forall i | 0 <= i < |after| ensures
      Latest(more, after[i]) || (!Defined(more, after[i].name) && i < |before| && after[i] == before[i])
    {
      OneMoreLatest(files, None, after[i]);
    }
    forall name | Defined(more, name) ensures exists i :: Named(after, i, name) {
      DefinedElsewhere(files, None, name);
    }
    forall i, j | |before| <= i < j < |after| ensures DefinedBefore(more, after[i].name, after[j].name) {
      OneMoreOrdered(files, None, after[i].name, after[j].name);
    }
  }

  lemma SkillReplaced(before: seq<Skill>, files: seq<Option<Skill>>, after: seq<Skill>, s: Skill, at: nat)
    requires Loaded(before, files, after) && Named(after, at, s.name)
    ensures Loaded(before, files + [Some(s)], after[at := s])
  {
    var more, next := files + [Some(s)], after[at := s];
    assert DistinctNames(next);
    assert forall i | 0 <= i < |after| :: next[i].name == after[i].name;
    OneMoreFile(files, Some(s));
    hide Latest, Defined, DefinedBefore, Defines;
    forall i | 0 <= i < |next| ensures
      Latest(more, next[i]) || (!Defined(more, next[i].name) && i < |before| && next[i] == before[i])
    {
      if i == at { NewestIsLatest(files, s); } else { OneMoreLatest(files, Some(s), after[i]); }
    }
    forall name | Defined(more, name) ensures exists i :: Named(next, i, name) {
      if name == s.name {
        assert Named(next, at, name);
      } else {
        DefinedElsewhere(files, Some(s), name);
        var i :| Named(after, i, name);
        assert Named(next, i, name);
      }
    }
    forall i, j | |before| <= i < j < |next| ensures DefinedBefore(more, next[i].name, next[j].name) {
      OneMoreOrdered(files, Some(s), after[i].name, after[j].name);
    }
  }

  lemma SkillAdded(before: seq<Skill>, files: seq<Option<Skill>>, after: seq<Skill>, s: Skill)
    requires Loaded(before, files, after) && forall i :: !Named(after, i, s.name)
    ensures Loaded(before, files + [Some(s)], after + [s])
  {
    var more, next := files + [Some(s)], after + [s];
    assert forall i | 0 <= i < |after| :: Named(after, i, after[i].name);
    assert DistinctNames(next);
    assert !Defined(files, s.name);
    OneMoreFile(files, Some(s));
    hide Latest, Defined, DefinedBefore, Defines;
    forall i | 0 <= i < |next| ensures
      Latest(more, next[i]) || (!Defined(more, next[i].name) && i < |before| && next[i] == before[i])
    {
      if i == |after| { NewestIsLatest(files, s); } else { OneMoreLatest(files, Some(s), after[i]); }
    }
    forall name | Defined(more, name) ensures exists i :: Named(next, i, name) {
      if name == s.name {
        assert Named(next, |after|, name);
      } else {
        DefinedElsewhere(files, Some(s), name);
        var i :| Named(after, i, name);
        assert Named(next, i, name);
      }
    }
    forall i, j | |before| <= i < j < |next| ensures DefinedBefore(more, next[i].name, next[j].name) {
      if j < |after| {
        OneMoreOrdered(files, Some(s), after[i].name, after[j].name);
      } else {
        LatestIsDefined(files, after[i]);
        NewNameIsLater(files, s, after[i].name);
      }
    }
  }

  /** What loading files one after the other makes of the dictionary. */
  lemma {:induction false} StoreAllLoads(before: seq<Skill>, files: seq<Option<Skill>>)
    requires DistinctNames(before)
    ensures Loaded(before, files, StoreAll(before, files))
    decreases |files|
  {
    assert files == [] ==> Loaded(before, files, before);
    hide Loaded;
    if files != [] {
      var init, parsed := files[..|files| - 1], files[|files| - 1];
      StoreAllLoads(before, init);
      var after := StoreAll(before, init);
      assert files == init + [parsed];
      if parsed.None? {
        NothingParsed(before, init, after);
      } else {
        var s := parsed.value;
        var i := FirstWhere(after, (x: Skill) => x.name == s.name);
        StoreAt(after, s, i);
        if i < |after| { SkillReplaced(before, init, after, s, i); } else { SkillAdded(before, init, after, s); }
      }
    }
  }
}
