/** Runs of file operations in which a directory stands where an undo must put a file back. */
module UndoExamples {
  import opened FileOps

  const NO_FILE := FS(map[], {[]})

  const ONE_FILE := FS(map[["a"] := [1]], {[]})

  lemma DeletesFile(h: seq<Action>)
    requires |h| < HISTORY
    ensures
      var s, op := State(ONE_FILE, h), Delete(["a"]);
      && OnFiles(s.fs, op) && FreshTarget(s.fs, op) && Apply(s.fs, op).record.Some?
      && Do(s, op) == State(NO_FILE, h + [Deleted(["a"], [1])])
  {
    assert ONE_FILE.files - {["a"]} == map[];
  }

  lemma CreatesInItsPlace(h: seq<Action>)
    requires |h| < HISTORY
    ensures
      var s, op := State(NO_FILE, h), Create(["a"], "b", [2]);
      && OnFiles(s.fs, op) && FreshTarget(s.fs, op) && Apply(s.fs, op).record.Some?
      && ["a"] in Do(s, op).fs.dirs && ["a", "b"] !in Do(s, op).fs.dirs
      && Do(s, op).fs.files == map[["a", "b"] := [2]] && Do(s, op).history == h + [Created(["a", "b"])]
  {
    var fs1 := Mkdir(NO_FILE, ["a"]);
    assert ["a"][..1] == ["a"] && ["a"] in Prefixes(["a"]);
    assert forall q | q in Prefixes(["a"]) :: |q| <= 1;
    assert ["a"] + ["b"] == ["a", "b"];
    assert ["a", "b"] !in fs1.dirs;
  }

  lemma CreatesFirst()
    ensures
      var s, op := State(NO_FILE, []), Create([], "a", [1]);
      && OnFiles(s.fs, op) && FreshTarget(s.fs, op) && Apply(s.fs, op).record.Some?
      && Do(s, op) == State(ONE_FILE, [Created(["a"])])
  {
    var root: Path := [];
    assert root[..0] == root && Prefixes(root) == {root};
    assert root + ["a"] == ["a"] && {root} + {root} == {root};
  }

  /** A file is deleted, a file in a new directory of its name is created, and two undos do not bring
      the first back. */
  lemma BlockedUndoLosesFile()
    ensures
      var s, ops := State(ONE_FILE, []), [Delete(["a"]), Create(["a"], "b", [2])];
      && WellFormed(s.fs) && Good(s, ops) && !Restores(DoAll(s, ops), s, ops, 2)
  {
    hide Apply, FreshTarget, OnFiles, Do, WellFormed, UndoMany;
    var s, first, second := State(ONE_FILE, []), Delete(["a"]), Create(["a"], "b", [2]);
    var ops := [first, second];
    OneFileIsWellFormed();
    DeletesFile([]);
    CreatesInItsPlace([Deleted(["a"], [1])]);
    OneStep(s, first);
    var none: seq<Action> := [];
    assert none + [Deleted(["a"], [1])] == [Deleted(["a"], [1])];
    assert ops[..1] == [first] && ops[..0] == [];
    var t := DoAll(s, ops);
    assert t == Do(State(NO_FILE, [Deleted(["a"], [1])]), second);
    TwoUndos(t, []);
    assert DoAll(s, []) == s;
    assert ["a"] in ONE_FILE.files && ["a"] !in UndoMany(t, 2).fs.files;
  }

  lemma TwoUndos(t: State, h: seq<Action>)
    requires t.history == h + [Deleted(["a"], [1])] + [Created(["a", "b"])]
    requires ["a"] in t.fs.dirs && ["a", "b"] !in t.fs.dirs && t.fs.files == map[["a", "b"] := [2]]
    ensures UndoMany(t, 2) == State(FS(map[], t.fs.dirs), h)
  {
    var t1 := UndoLast(t);
    assert t.fs.files - {["a", "b"]} == map[];
    assert t1 == State(FS(map[], t.fs.dirs), h + [Deleted(["a"], [1])]);
    assert UndoMany(t, 2) == UndoMany(t1, 1) == UndoMany(UndoLast(t1), 0);
    assert UndoLast(t1).history == h;
  }

  /** The condition is about each of the undos: where the blocked one should have brought back a file
      that a further undo takes away, all of them together still restore the files. */
  lemma BlockedUndoCanBeHarmless()
    ensures
      var s := State(NO_FILE, []);
      var ops := [Create([], "a", [1]), Delete(["a"]), Create(["a"], "b", [2])];
      && WellFormed(s.fs) && Good(s, ops)
      && var t := DoAll(s, ops);
      && |t.history| == 3 && !Unblocked(t.fs.dirs, t.history[1])
      && !Restores(t, s, ops, 2) && Restores(t, s, ops, 3)
  {
    hide Apply, FreshTarget, OnFiles, Do, WellFormed, UndoMany, Undo;
    var s := State(NO_FILE, []);
    var o1, o2, o3 := Create([], "a", [1]), Delete(["a"]), Create(["a"], "b", [2]);
    var ops := [o1, o2, o3];
    OneFileIsWellFormed();
    CreatesFirst();
    DeletesFile([Created(["a"])]);
    CreatesInItsPlace([Created(["a"]), Deleted(["a"], [1])]);
    OneStep(s, o1);
    assert ops[..2][..1] == [o1] && ops[..1] == [o1] && ops[..0] == [];
    assert [Created(["a"])] + [Deleted(["a"], [1])] == [Created(["a"]), Deleted(["a"], [1])];
    assert Good(s, ops[..2]) && DoAll(s, ops[..2]) == State(NO_FILE, [Created(["a"]), Deleted(["a"], [1])]);
    var t := DoAll(s, ops);
    TwoUndos(t, [Created(["a"])]);
    ThreeUndos(t);
    assert DoAll(s, ops[..1]) == State(ONE_FILE, [Created(["a"])]);
    assert ["a"] in ONE_FILE.files && ["a"] !in UndoMany(t, 2).fs.files;
    assert DoAll(s, []) == s;
  }

  lemma ThreeUndos(t: State)
    requires UndoMany(t, 2) == State(FS(map[], t.fs.dirs), [Created(["a"])])
    ensures UndoMany(t, 3).fs.files == map[]
  {
    var t1 := UndoLast(t);
    var t2 := UndoLast(t1);
    assert UndoMany(t, 2) == UndoMany(t1, 1) == UndoMany(t2, 0) == t2;
    assert UndoMany(t, 3) == UndoMany(t1, 2) == UndoMany(t2, 1) == UndoMany(UndoLast(t2), 0) == UndoLast(t2);
    assert t2.fs.files - {["a"]} == map[];
  }

  lemma OneFileIsWellFormed()
    ensures WellFormed(ONE_FILE) && WellFormed(NO_FILE)
  {
    assert Parent(["a"]) == [];
  }

  lemma OneStep(s: State, op: Op)
    requires OnFiles(s.fs, op) && FreshTarget(s.fs, op) && Apply(s.fs, op).record.Some?
    ensures Good(s, [op]) && DoAll(s, [op]) == Do(s, op)
  {
    assert [op][..0] == [] && Good(s, []) && DoAll(s, []) == s;
  }
}
