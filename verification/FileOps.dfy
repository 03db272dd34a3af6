/** File operations with an undo log (`modules/advanced_system_control.py`), on values.

A file system is a map from paths to contents and a set of directories; a path is its list of
components.  Operations whose source is a directory are not modelled. */
module FileOps {
  import opened Collections

  type Path = seq<string>
  type Bytes = seq<int>

  datatype FS = FS(files: map<Path, Bytes>, dirs: set<Path>)

  datatype Op =
    | Create(dir: Path, name: string, content: Bytes)
    | Delete(path: Path)
    | Move(src: Path, dst: Path)
    | Copy(src: Path, dst: Path)
    | Rename(path: Path, newName: string)

  /** What the history remembers of an operation. */
  datatype Action =
    | Created(path: Path)
    | Deleted(path: Path, content: Bytes)
    | Moved(src: Path, dst: Path)
    | Copied(dst: Path)
    | Renamed(before: Path, after: Path)
    | Organized(dir: Path)

  datatype Effect = Effect(fs: FS, success: bool, record: Option<Action>)

  function Parent(p: Path): Path
    requires p != []
  {
    p[..|p| - 1]
  }

  function Name(p: Path): string
    requires p != []
  {
    p[|p| - 1]
  }

  predicate Exists(fs: FS, p: Path) {
    p in fs.files || p in fs.dirs
  }

  /** The path and all its ancestors. */
  function Prefixes(p: Path): set<Path> {
    set i | 0 <= i <= |p| :: p[..i]
  }

  /** No path is both, and every entry stands in a directory. */
  ghost predicate WellFormed(fs: FS) {
    && fs.files.Keys !! fs.dirs && [] in fs.dirs
    && [] !in fs.files
    && (forall p {:trigger Parent(p)} | p in fs.files && p != [] :: Parent(p) in fs.dirs)
    && forall p {:trigger Parent(p)} | p in fs.dirs && p != [] :: Parent(p) in fs.dirs
  }

  /** `mkdir(parents=True, exist_ok=True)` succeeds: nothing on the way is a file. */
  predicate CanMkdir(fs: FS, p: Path) {
    forall q | q in Prefixes(p) :: q !in fs.files
  }

  function Mkdir(fs: FS, p: Path): FS {
    fs.(dirs := fs.dirs + Prefixes(p))
  }

  /** A move's or copy's destination: inside it, if it is a directory. */
  function Target(fs: FS, src: Path, dst: Path): Path
    requires src != [] && [] in fs.dirs
    ensures Target(fs, src, dst) != []
  {
    if dst in fs.dirs then dst + [Name(src)] else dst
  }

  function Relocate(fs: FS, src: Path, dst: Path): FS
    requires src in fs.files
  {
    if src == dst then fs else fs.(files := (fs.files - {src})[dst := fs.files[src]])
  }

  /** Sources are files or missing, and a destination does not resolve to a directory. */
  ghost predicate OnFiles(fs: FS, op: Op) {
    && [] in fs.dirs
    && match op
       case Create(_, _, _) => true
       case Delete(p) => p !in fs.dirs
       case Move(src, dst) => src !in fs.dirs && Target(fs, src, dst) !in fs.dirs
       case Copy(src, dst) => src !in fs.dirs && Target(fs, src, dst) !in fs.dirs
       case Rename(p, _) => p !in fs.dirs
  }

  function Failure(fs: FS): Effect {
    Effect(fs, false, None)
  }

  function Apply(fs: FS, op: Op): Effect
    requires OnFiles(fs, op)
  {
    match op
    case Create(dir, name, content) =>
      if !CanMkdir(fs, dir) then Failure(fs)
      else
        var fs1, target := Mkdir(fs, dir), dir + [name];
        if target in fs1.dirs then Failure(fs1)
        else Effect(fs1.(files := fs1.files[target := content]), true, Some(Created(target)))
    case Delete(p) =>
      if p !in fs.files then Failure(fs)
      else Effect(fs.(files := fs.files - {p}), true, Some(Deleted(p, fs.files[p])))
    case Move(src, dst) =>
      if src !in fs.files then Failure(fs)
      else
        var target := Target(fs, src, dst);
        if !CanMkdir(fs, Parent(target)) then Failure(fs)
        else Effect(Relocate(Mkdir(fs, Parent(target)), src, target), true, Some(Moved(src, target)))
    case Copy(src, dst) =>
      if src !in fs.files then Failure(fs)
      else
        var target := Target(fs, src, dst);
        if !CanMkdir(fs, Parent(target)) then Failure(fs)
        else
          var fs1 := Mkdir(fs, Parent(target));
          // copying a file onto itself fails, after the action has been recorded
          if target == src then Effect(fs1, false, Some(Copied(target)))
          else Effect(fs1.(files := fs1.files[target := fs.files[src]]), true, Some(Copied(target)))
    case Rename(p, newName) =>
      if p !in fs.files then Failure(fs)
      else
        var target := Parent(p) + [newName];
        if Exists(fs, target) then Failure(fs)
        else Effect(Relocate(fs, p, target), true, Some(Renamed(p, target)))
  }

  /** `undo_last_action` for one recorded action; an undo that raises leaves the files alone. */
  function Undo(fs: FS, a: Action): FS {
    match a
    case Created(p) => if p in fs.dirs then fs else fs.(files := fs.files - {p})
    case Copied(p) => if p in fs.dirs then fs else fs.(files := fs.files - {p})
    case Deleted(p, content) =>
      if p in fs.dirs || p == [] || Parent(p) !in fs.dirs then fs else fs.(files := fs.files[p := content])
    case Moved(src, dst) =>
      if dst !in fs.files || dst == [] then fs
      else if src in fs.dirs then
        (if Exists(fs, src + [Name(dst)]) then fs else Relocate(fs, dst, src + [Name(dst)]))
      else if src == [] || Parent(src) !in fs.dirs then fs
      else Relocate(fs, dst, src)
    case Renamed(before, after) =>
      if after !in fs.files || before in fs.dirs || before == [] || Parent(before) !in fs.dirs then fs
      else Relocate(fs, after, before)
    case Organized(_) => fs
  }

  // ----- one operation and its undo

  /** The operation writes to a path at which there was no file (or moves a file onto itself). */
  ghost predicate FreshTarget(fs: FS, op: Op)
    requires OnFiles(fs, op)
  {
    match op
    case Create(dir, name, _) => dir + [name] !in fs.files
    case Move(src, dst) => Target(fs, src, dst) !in fs.files || Target(fs, src, dst) == src
    case Copy(src, dst) => Target(fs, src, dst) !in fs.files
    case Delete(_) => true
    case Rename(_, _) => true
  }

  lemma PrefixParent(p: Path, q: Path)
    requires q in Prefixes(p) && q != []
    ensures Parent(q) in Prefixes(p)
  {
    var i :| 0 <= i <= |p| && q == p[..i];
    assert Parent(q) == p[..i - 1];
  }

  lemma MkdirKeepsWellFormed(fs: FS, dir: Path)
    requires WellFormed(fs) && CanMkdir(fs, dir)
    ensures WellFormed(Mkdir(fs, dir)) && fs.dirs <= Mkdir(fs, dir).dirs && dir in Mkdir(fs, dir).dirs
  {
    assert dir in Prefixes(dir) by { assert dir == dir[..|dir|]; }
    forall q | q in Prefixes(dir) && q != [] ensures Parent(q) in Prefixes(dir) { PrefixParent(dir, q); }
  }

  lemma FileStandsInDirectory(fs: FS, p: Path)
    requires WellFormed(fs) && p in fs.files
    ensures p != [] && Parent(p) in fs.dirs && p !in fs.dirs
  {
  }

  lemma PutKeepsWellFormed(fs: FS, p: Path, content: Bytes)
    requires WellFormed(fs) && p != [] && Parent(p) in fs.dirs && p !in fs.dirs
    ensures WellFormed(fs.(files := fs.files[p := content]))
  {
  }

  lemma DropKeepsWellFormed(fs: FS, p: Path)
    requires WellFormed(fs)
    ensures WellFormed(fs.(files := fs.files - {p}))
  {
  }

  lemma ApplyKeepsWellFormed(fs: FS, op: Op)
    requires WellFormed(fs) && OnFiles(fs, op)
    ensures WellFormed(Apply(fs, op).fs) && fs.dirs <= Apply(fs, op).fs.dirs
  {
    hide WellFormed, CanMkdir, Mkdir;
    match op {
      case Create(dir, name, content) =>
        if CanMkdir(fs, dir) {
          MkdirKeepsWellFormed(fs, dir);
          assert Parent(dir + [name]) == dir;
          var fs1 := Mkdir(fs, dir);
          if dir + [name] !in fs1.dirs { PutKeepsWellFormed(fs1, dir + [name], content); }
        }
      case Delete(p) => DropKeepsWellFormed(fs, p);
      case Move(src, dst) => TransferKeepsWellFormed(fs, src, dst);
      case Copy(src, dst) => TransferKeepsWellFormed(fs, src, dst);
      case Rename(p, newName) =>
        if p in fs.files {
          FileStandsInDirectory(fs, p);
          var target := Parent(p) + [newName];
          assert Parent(target) == Parent(p);
          if target !in fs.dirs { RelocateKeepsWellFormed(fs, p, target); }
        }
    }
  }

  lemma RelocateKeepsWellFormed(fs: FS, src: Path, dst: Path)
    requires WellFormed(fs) && src in fs.files && dst != [] && Parent(dst) in fs.dirs && dst !in fs.dirs
    ensures WellFormed(Relocate(fs, src, dst))
  {
    DropKeepsWellFormed(fs, src);
    PutKeepsWellFormed(fs.(files := fs.files - {src}), dst, fs.files[src]);
  }

  /** Moving or copying a file. */
  lemma TransferKeepsWellFormed(fs: FS, src: Path, dst: Path)
    requires WellFormed(fs) && [] in fs.dirs && src !in fs.dirs && src != [] && Target(fs, src, dst) !in fs.dirs
    ensures
      var target := Target(fs, src, dst);
      var fs1 := Mkdir(fs, Parent(target));
      src in fs.files && CanMkdir(fs, Parent(target)) ==>
        && WellFormed(fs1) && fs.dirs <= fs1.dirs && src in fs1.files
        && WellFormed(Relocate(fs1, src, target)) && WellFormed(fs1.(files := fs1.files[target := fs.files[src]]))
  {
    hide WellFormed, CanMkdir;
    var target := Target(fs, src, dst);
    if src in fs.files && CanMkdir(fs, Parent(target)) {
      MkdirKeepsWellFormed(fs, Parent(target));
      assert target !in Prefixes(Parent(target)) by {
        assert forall q | q in Prefixes(Parent(target)) :: |q| < |target|;
      }
      var fs1 := Mkdir(fs, Parent(target));
      RelocateKeepsWellFormed(fs1, src, target);
      PutKeepsWellFormed(fs1, target, fs.files[src]);
    }
  }

  /** Where undoing the action puts a file back. */
  function RestorePath(a: Action): Option<Path> {
    match a
    case Deleted(p, _) => Some(p)
    case Moved(src, _) => Some(src)
    case Renamed(before, _) => Some(before)
    case _ => None
  }

  /** No directory stands where undoing the action must put a file back. */
  predicate Unblocked(dirs: set<Path>, a: Action) {
    RestorePath(a).None? || RestorePath(a).value !in dirs
  }

  /** Undo from any state with the operation's resulting files, when directories have only been added
      and none is in the way. */
  lemma UndoStep(fs: FS, op: Op, now: FS)
    requires WellFormed(fs) && OnFiles(fs, op) && FreshTarget(fs, op) && Apply(fs, op).record.Some?
    requires now.files == Apply(fs, op).fs.files && Apply(fs, op).fs.dirs <= now.dirs
    requires now.files.Keys !! now.dirs && Unblocked(now.dirs, Apply(fs, op).record.value)
    ensures
      var before := Undo(now, Apply(fs, op).record.value);
      before.files == fs.files && before.dirs == now.dirs && before.files.Keys !! before.dirs
  {
    ApplyKeepsWellFormed(fs, op);
    var before := Undo(now, Apply(fs, op).record.value);
    match op {
      case Create(dir, name, _) => assert before.files == fs.files;
      case Delete(p) => assert Parent(p) in now.dirs; assert before.files == fs.files;
      case Move(src, dst) =>
        var target := Target(fs, src, dst);
        assert src in fs.files && Parent(src) in now.dirs;
        assert target in now.files;
        assert before.files == fs.files;
      case Copy(src, dst) => assert before.files == fs.files;
      case Rename(p, _) =>
        assert Parent(p) in now.dirs;
        assert before.files == fs.files;
    }
  }

  /** One undo restores the files exactly when the operation did not write over a file. */
  lemma UndoRestoresExactlyFreshTargets(fs: FS, op: Op)
    requires WellFormed(fs) && OnFiles(fs, op) && Apply(fs, op).record.Some?
    ensures Undo(Apply(fs, op).fs, Apply(fs, op).record.value).files == fs.files <==> FreshTarget(fs, op)
  {
    ApplyKeepsWellFormed(fs, op);
    var now, a := Apply(fs, op).fs, Apply(fs, op).record.value;
    if FreshTarget(fs, op) {
      assert Unblocked(now.dirs, a) by { NotCreatedAsDirectory(fs, op); }
      UndoStep(fs, op, now);
    } else {
      var lost := match op
        case Create(dir, name, _) => dir + [name]
        case Move(src, dst) => Target(fs, src, dst)
        case Copy(src, dst) => Target(fs, src, dst)
        case Delete(p) => p
        case Rename(p, _) => p;
      assert lost in fs.files && lost !in Undo(now, a).files;
    }
  }

  lemma NotCreatedAsDirectory(fs: FS, op: Op)
    requires WellFormed(fs) && OnFiles(fs, op) && Apply(fs, op).record.Some?
    ensures Unblocked(Apply(fs, op).fs.dirs, Apply(fs, op).record.value)
  {
  }

  // ----- the history

  const HISTORY := 50

  /** The controller: files and the actions that can still be undone. */
  datatype State = State(fs: FS, history: seq<Action>)

  /** `_record_action`: only the last 50 are kept. */
  function Record(history: seq<Action>, a: Action): seq<Action> {
    var h := history + [a];
    if |h| > HISTORY then h[|h| - HISTORY..] else h
  }

  function Do(s: State, op: Op): State
    requires OnFiles(s.fs, op)
  {
    var e := Apply(s.fs, op);
    State(e.fs, if e.record.Some? then Record(s.history, e.record.value) else s.history)
  }

  function UndoLast(s: State): State {
    if s.history == [] then s
    else State(Undo(s.fs, s.history[|s.history| - 1]), s.history[..|s.history| - 1])
  }

  function UndoMany(s: State, k: nat): State
    decreases k
  {
    if k == 0 then s else UndoMany(UndoLast(s), k - 1)
  }

  /** The operations can be carried out one after the other, each recorded and onto a fresh path. */
  ghost predicate Good(s: State, ops: seq<Op>)
    decreases |ops|, 0
  {
    ops != [] ==>
      var init, last := ops[..|ops| - 1], ops[|ops| - 1];
      && Good(s, init)
      && var fs := DoAll(s, init).fs;
         OnFiles(fs, last) && FreshTarget(fs, last) && Apply(fs, last).record.Some?
  }

  ghost function DoAll(s: State, ops: seq<Op>): State
    requires Good(s, ops)
    decreases |ops|, 1
  {
    if ops == [] then s else Do(DoAll(s, ops[..|ops| - 1]), ops[|ops| - 1])
  }

  ghost predicate IsSuffix<T>(a: seq<T>, b: seq<T>) {
    |a| <= |b| && a == b[|b| - |a|..]
  }

  lemma {:induction false} DoAllFacts(s: State, ops: seq<Op>)
    requires WellFormed(s.fs) && s.history == [] && Good(s, ops)
    ensures WellFormed(DoAll(s, ops).fs)
    ensures |DoAll(s, ops).history| == if |ops| <= HISTORY then |ops| else HISTORY
    decreases |ops|
  {
    if ops != [] {
      var init, last := ops[..|ops| - 1], ops[|ops| - 1];
      DoAllFacts(s, init);
      ApplyKeepsWellFormed(DoAll(s, init).fs, last);
    }
  }

  /** `now` has the files that `ops` left, more directories, and the end of their history. */
  ghost predicate Resumes(now: State, s: State, ops: seq<Op>)
    requires Good(s, ops)
  {
    && now.fs.files == DoAll(s, ops).fs.files && DoAll(s, ops).fs.dirs <= now.fs.dirs
    && now.fs.files.Keys !! now.fs.dirs && IsSuffix(now.history, DoAll(s, ops).history)
  }

  function Last(now: State): Action
    requires now.history != []
  {
    now.history[|now.history| - 1]
  }

  /** What the end of the history says about the last operation and those before it. */
  lemma LastOperation(now: State, s: State, ops: seq<Op>) returns (mid: State, last: Op)
    requires WellFormed(s.fs) && s.history == [] && Good(s, ops) && ops != [] && now.history != []
    requires Resumes(now, s, ops)
    ensures Good(s, ops[..|ops| - 1]) && mid == DoAll(s, ops[..|ops| - 1]) && WellFormed(mid.fs)
    ensures OnFiles(mid.fs, last) && FreshTarget(mid.fs, last)
    ensures Apply(mid.fs, last).record == Some(Last(now)) && now.fs.files == Apply(mid.fs, last).fs.files
    ensures mid.fs.dirs <= Apply(mid.fs, last).fs.dirs <= now.fs.dirs
    ensures IsSuffix(now.history[..|now.history| - 1], mid.history)
  {
    var init := ops[..|ops| - 1];
    mid, last := DoAll(s, init), ops[|ops| - 1];
    DoAllFacts(s, init);
    hide WellFormed, FreshTarget, OnFiles, Apply;
    ApplyKeepsWellFormed(mid.fs, last);
    RecordedLast(now.history, mid.history, Apply(mid.fs, last).record.value);
  }

  lemma RecordedLast(h: seq<Action>, history: seq<Action>, a: Action)
    requires h != [] && IsSuffix(h, Record(history, a))
    ensures h[|h| - 1] == a && IsSuffix(h[..|h| - 1], history)
  {
    var whole := history + [a];
    assert IsSuffix(h, whole);
    assert h[|h| - 1] == a && IsSuffix(h[..|h| - 1], history);
  }

  lemma UndoResumes(now: State, s: State, ops: seq<Op>)
    requires WellFormed(s.fs) && s.history == [] && Good(s, ops) && ops != [] && now.history != []
    requires Resumes(now, s, ops)
    ensures Good(s, ops[..|ops| - 1])
    ensures Unblocked(now.fs.dirs, Last(now)) ==>
      Resumes(UndoLast(now), s, ops[..|ops| - 1]) && UndoLast(now).fs.dirs == now.fs.dirs
  {
    hide WellFormed, FreshTarget, OnFiles, Apply, Undo, Unblocked;
    var mid, last := LastOperation(now, s, ops);
    if Unblocked(now.fs.dirs, Last(now)) { UndoStep(mid.fs, last, now.fs); }
  }

  /** An undo whose file is blocked by a directory does not restore the files. */
  lemma BlockedUndoFails(now: State, s: State, ops: seq<Op>)
    requires WellFormed(s.fs) && s.history == [] && Good(s, ops) && ops != [] && now.history != []
    requires Resumes(now, s, ops)
    ensures Good(s, ops[..|ops| - 1])
    ensures !Unblocked(now.fs.dirs, Last(now)) ==> UndoLast(now).fs.files != DoAll(s, ops[..|ops| - 1]).fs.files
  {
    hide WellFormed, FreshTarget, OnFiles, Apply, Undo, Unblocked;
    var mid, last := LastOperation(now, s, ops);
    RestoredPathWasAFile(mid.fs, last);
    if !Unblocked(now.fs.dirs, Last(now)) { BlockedUndo(now.fs, Last(now)); }
  }

  lemma RestoredPathWasAFile(fs: FS, op: Op)
    requires OnFiles(fs, op) && Apply(fs, op).record.Some?
    ensures
      var p := RestorePath(Apply(fs, op).record.value);
      p.Some? ==> p.value in fs.files
  {
  }

  lemma BlockedUndo(fs: FS, a: Action)
    requires fs.files.Keys !! fs.dirs && !Unblocked(fs.dirs, a)
    ensures RestorePath(a).Some? && RestorePath(a).value !in Undo(fs, a).files
  {
  }

  /** `j` undos give back the files as they were `j` operations ago. */
  ghost predicate Restores(now: State, s: State, ops: seq<Op>, j: nat) {
    && j <= |ops| && Good(s, ops[..|ops| - j])
    && UndoMany(now, j).fs.files == DoAll(s, ops[..|ops| - j]).fs.files
  }

  lemma RestoresNext(now: State, s: State, ops: seq<Op>, j: nat)
    requires ops != []
    ensures Restores(now, s, ops, j + 1) <==> Restores(UndoLast(now), s, ops[..|ops| - 1], j)
  {
    var init := ops[..|ops| - 1];
    if j <= |init| { assert init[..|init| - j] == ops[..|ops| - (j + 1)]; }
  }

  lemma RestoresNone(now: State, s: State, ops: seq<Op>)
    requires Good(s, ops) && Resumes(now, s, ops)
    ensures Restores(now, s, ops, 0)
  {
    assert ops[..|ops|] == ops;
  }

  lemma RestoresOne(now: State, s: State, ops: seq<Op>)
    requires ops != [] && Restores(now, s, ops, 1)
    ensures Good(s, ops[..|ops| - 1]) && UndoLast(now).fs.files == DoAll(s, ops[..|ops| - 1]).fs.files
  {
    assert UndoMany(now, 1) == UndoMany(UndoLast(now), 0) == UndoLast(now);
  }

  lemma UndoLastPops(now: State)
    requires now.history != []
    ensures UndoLast(now).history == now.history[..|now.history| - 1]
  {
  }

  lemma {:induction false} UndoesAll(now: State, s: State, ops: seq<Op>, k: nat)
    requires WellFormed(s.fs) && s.history == [] && Good(s, ops) && Resumes(now, s, ops)
    requires k <= |ops| && k <= |now.history|
    ensures (forall j: nat | j <= k :: Restores(now, s, ops, j)) <==>
            (forall i | |now.history| - k <= i < |now.history| :: Unblocked(now.fs.dirs, now.history[i]))
    decreases k
  {
    hide WellFormed, Good, Resumes, Restores, Unblocked, UndoLast;
    RestoresNone(now, s, ops);
    if k > 0 {
      var h, init := now.history, ops[..|ops| - 1];
      if Unblocked(now.fs.dirs, Last(now)) {
        UndoResumes(now, s, ops);
        UndoLastPops(now);
        UndoesAll(UndoLast(now), s, init, k - 1);
        forall j: nat ensures Restores(now, s, ops, j + 1) <==> Restores(UndoLast(now), s, init, j) {
          RestoresNext(now, s, ops, j);
        }
        RestoresAll(now, UndoLast(now), s, ops, init, k);
      } else {
        BlockedUndoFails(now, s, ops);
        if Restores(now, s, ops, 1) { RestoresOne(now, s, ops); }
      }
    }
  }

  lemma RestoresAll(now: State, before: State, s: State, ops: seq<Op>, init: seq<Op>, k: nat)
    requires k > 0 && Restores(now, s, ops, 0)
    requires forall j: nat :: Restores(now, s, ops, j + 1) <==> Restores(before, s, init, j)
    ensures (forall j: nat | j <= k :: Restores(now, s, ops, j)) <==>
            (forall j: nat | j <= k - 1 :: Restores(before, s, init, j))
  {
    hide *;
    if forall j: nat | j <= k - 1 :: Restores(before, s, init, j) {
      forall j: nat | j <= k ensures Restores(now, s, ops, j) {
        if j > 0 { assert Restores(before, s, init, j - 1); }
      }
    }
  }

  /** After any run of recorded operations onto fresh paths, each of the next `k` undos (of the last
      50) gives back the files as they were one operation earlier, exactly when no directory now
      stands where one of them must put a file back. */
  lemma UndoInvertsTraces(s: State, ops: seq<Op>, k: nat)
    requires WellFormed(s.fs) && s.history == [] && Good(s, ops)
    requires k <= |ops| && k <= HISTORY
    ensures
      var t := DoAll(s, ops);
      && k <= |t.history|
      && ((forall j: nat | j <= k :: Restores(t, s, ops, j)) <==>
          (forall i | |t.history| - k <= i < |t.history| :: Unblocked(t.fs.dirs, t.history[i])))
  {
    DoAllFacts(s, ops);
    UndoesAll(DoAll(s, ops), s, ops, k);
  }

  // ----- the end state

  /** Undos touch no directory and put no file where one stands. */
  lemma {:induction false} UndosKeepDirectories(s: State, k: nat)
    requires s.fs.files.Keys !! s.fs.dirs
    ensures UndoMany(s, k).fs.dirs == s.fs.dirs && UndoMany(s, k).fs.files.Keys !! s.fs.dirs
    decreases k
  {
    if k > 0 { UndosKeepDirectories(UndoLast(s), k - 1); }
  }

  /** `k` undos, however many, can restore the files only if none of the files to be restored has a
      directory at its path now. */
  lemma RestoredFilesHaveRoom(s: State, ops: seq<Op>, k: nat)
    requires WellFormed(s.fs) && s.history == [] && Good(s, ops)
    ensures Restores(DoAll(s, ops), s, ops, k) ==>
      DoAll(s, ops[..|ops| - k]).fs.files.Keys !! DoAll(s, ops).fs.dirs
  {
    hide DoAll, Good, UndoMany;
    DoAllFacts(s, ops);
    UndosKeepDirectories(DoAll(s, ops), k);
  }
}
