/** What each file operation does to the files, the directories and the history, and when it succeeds. */
module FileEffects {
  import opened Collections
  import opened FileOps

  /** No directory on the way to `p`, nor `p` itself, is a file. */
  predicate WayIsClear(fs: FS, p: Path) {
    forall i | 0 <= i <= |p| :: p[..i] !in fs.files
  }

  /** `p` and every directory on the way to it exist; nothing else does that did not. */
  ghost predicate MadeDirs(before: FS, after: FS, p: Path) {
    forall q :: q in after.dirs <==> q in before.dirs || q <= p
  }

  /** `a` has been remembered, as the last of at most fifty actions. */
  ghost predicate Remembered(before: State, after: State, a: Action) {
    after.history == (if |before.history| < 50 then before.history else before.history[|before.history| - 49..]) + [a]
  }

  ghost predicate Unchanged(before: State, after: State) {
    after == before
  }

  /** Where a file moved or copied to `dst` ends: in the directory, if `dst` is one. */
  function Into(fs: FS, src: Path, dst: Path): Path
    requires src != []
  {
    if dst in fs.dirs then dst + [Name(src)] else dst
  }

  /** Creating a file succeeds unless a file is in the way of its directory or it is a directory itself. */
  ghost predicate Creates(before: State, dir: Path, name: string, content: Bytes, after: State, success: bool) {
    var fs := before.fs;
    && (success <==> WayIsClear(fs, dir) && dir + [name] !in fs.dirs)
    && after.fs.files == (if success then fs.files[dir + [name] := content] else fs.files)
    && (if WayIsClear(fs, dir) then MadeDirs(fs, after.fs, dir) else after.fs.dirs == fs.dirs)
    && (if success then Remembered(before, after, Created(dir + [name])) else after.history == before.history)
  }

  /** Deleting succeeds exactly for an existing file, whose content is remembered. */
  ghost predicate Deletes(before: State, p: Path, after: State, success: bool) {
    && (success <==> p in before.fs.files)
    && after.fs.dirs == before.fs.dirs
    && (forall q :: q in after.fs.files <==> q in before.fs.files && q != p)
    && (forall q | q in after.fs.files && q in before.fs.files :: after.fs.files[q] == before.fs.files[q])
    && if success then Remembered(before, after, Deleted(p, before.fs.files[p])) else after.history == before.history
  }

  /** Moving succeeds exactly for an existing file to whose target the way is clear; the target then has the
      file's content, and the source is gone. */
  ghost predicate Moves(before: State, src: Path, dst: Path, after: State, success: bool) {
    var fs := before.fs;
    if src !in fs.files || src == [] then !success && Unchanged(before, after)
    else
      var target := Into(fs, src, dst);
      target != [] &&
      if !WayIsClear(fs, Parent(target)) then !success && Unchanged(before, after)
      else
        && success && MadeDirs(fs, after.fs, Parent(target)) && Remembered(before, after, Moved(src, target))
        && after.fs.files == (fs.files - {src})[target := fs.files[src]]
  }

  /** Copying succeeds exactly for an existing file to whose target the way is clear and which is not that
      target; the target then has the file's content, and the source is still there. */
  ghost predicate Copies(before: State, src: Path, dst: Path, after: State, success: bool) {
    var fs := before.fs;
    if src !in fs.files || src == [] then !success && Unchanged(before, after)
    else
      var target := Into(fs, src, dst);
      target != [] &&
      if !WayIsClear(fs, Parent(target)) then !success && Unchanged(before, after)
      else
        && (success <==> target != src)
        && MadeDirs(fs, after.fs, Parent(target)) && Remembered(before, after, Copied(target))
        && after.fs.files == fs.files[target := fs.files[src]]
  }

  /** Renaming succeeds exactly for an existing file whose new name is free beside it. */
  ghost predicate Renames(before: State, p: Path, newName: string, after: State, success: bool) {
    var fs := before.fs;
    if p !in fs.files || p == [] then !success && Unchanged(before, after)
    else
      var target := p[..|p| - 1] + [newName];
      && (success <==> target !in fs.files && target !in fs.dirs)
      && if !success then Unchanged(before, after)
         else
           && after.fs == fs.(files := (fs.files - {p})[target := fs.files[p]])
           && Remembered(before, after, Renamed(p, target))
  }

  ghost predicate Does(before: State, op: Op, after: State, success: bool) {
    match op
    case Create(dir, name, content) => Creates(before, dir, name, content, after, success)
    case Delete(p) => Deletes(before, p, after, success)
    case Move(src, dst) => Moves(before, src, dst, after, success)
    case Copy(src, dst) => Copies(before, src, dst, after, success)
    case Rename(p, newName) => Renames(before, p, newName, after, success)
  }

  // ----- the operations do this

  lemma RecordRemembers(before: State, after: State, a: Action)
    requires after.history == Record(before.history, a)
    ensures Remembered(before, after, a)
  {
    var h := before.history + [a];
    if |h| > HISTORY { assert h[|h| - HISTORY..] == before.history[|before.history| - 49..] + [a]; }
  }

  lemma MkdirMakes(fs: FS, p: Path)
    ensures CanMkdir(fs, p) <==> WayIsClear(fs, p)
    ensures MadeDirs(fs, Mkdir(fs, p), p)
  {
    forall q ensures q in Prefixes(p) <==> q <= p {
      if q <= p { assert q == p[..|q|]; }
    }
    forall i | 0 <= i <= |p| ensures p[..i] in Prefixes(p) {}
  }

  lemma NotMade(fs: FS, dir: Path, name: string)
    ensures dir + [name] in Mkdir(fs, dir).dirs <==> dir + [name] in fs.dirs
  {
    assert forall q | q in Prefixes(dir) :: |q| <= |dir|;
  }

  lemma OperationDoes(before: State, op: Op)
    requires OnFiles(before.fs, op)
    ensures Does(before, op, Do(before, op), Apply(before.fs, op).success)
  {
    var fs, e := before.fs, Apply(before.fs, op);
    hide CanMkdir, Mkdir, WayIsClear, MadeDirs, Remembered, Record;
    if e.record.Some? { RecordRemembers(before, Do(before, op), e.record.value); }
    match op {
      case Create(dir, name, content) =>
        MkdirMakes(fs, dir);
        NotMade(fs, dir, name);
      case Delete(p) =>
      case Move(src, dst) =>
        if src in fs.files { MkdirMakes(fs, Parent(Target(fs, src, dst))); }
      case Copy(src, dst) =>
        if src in fs.files { MkdirMakes(fs, Parent(Target(fs, src, dst))); }
      case Rename(p, newName) =>
    }
  }

  // ----- undoing

  /** A file can be put at `p`: its directory exists, and no directory stands there. */
  predicate HasRoom(fs: FS, p: Path) {
    p != [] && p !in fs.dirs && Parent(p) in fs.dirs
  }

  /** The file at `p` has gone to `q`, with its content. */
  ghost predicate Went(fs: FS, after: FS, p: Path, q: Path)
    requires p in fs.files
  {
    after == fs.(files := (fs.files - {p})[q := fs.files[p]])
  }

  /** Undoing takes away what was created or copied, puts back what was deleted where there is room, and
      moves a file back: to its old path where there is room, or into a directory that now stands there, if
      its name is free in it.  A renamed file only goes back where there is room. */
  ghost predicate Undoes(fs: FS, a: Action, after: FS) {
    match a
    case Created(p) => after == if p in fs.dirs then fs else fs.(files := fs.files - {p})
    case Copied(p) => after == if p in fs.dirs then fs else fs.(files := fs.files - {p})
    case Deleted(p, content) => after == if HasRoom(fs, p) then fs.(files := fs.files[p := content]) else fs
    case Moved(src, dst) =>
      if dst !in fs.files || dst == [] then after == fs
      else if src !in fs.dirs then (if HasRoom(fs, src) then Went(fs, after, dst, src) else after == fs)
      else
        var inside := src + [Name(dst)];
        if inside in fs.files || inside in fs.dirs then after == fs else Went(fs, after, dst, inside)
    case Renamed(from, to) =>
      if to in fs.files && HasRoom(fs, from) then Went(fs, after, to, from) else after == fs
    case Organized(_) => after == fs
  }

  /** The last remembered action is undone and forgotten, whether or not there is room. */
  lemma UndoUndoes(s: State)
    ensures
      var t := UndoLast(s);
      if s.history == [] then t == s
      else
        && t.history == s.history[..|s.history| - 1]
        && Undoes(s.fs, s.history[|s.history| - 1], t.fs)
  {
    if s.history != [] { UndoDoes(s.fs, s.history[|s.history| - 1]); }
  }

  lemma UndoDoes(fs: FS, a: Action)
    ensures Undoes(fs, a, Undo(fs, a))
  {
    match a {
      case Moved(src, dst) =>
        if dst in fs.files { assert fs.files == (fs.files - {dst})[dst := fs.files[dst]]; }
      case Renamed(from, to) =>
        if to in fs.files { assert fs.files == (fs.files - {to})[to := fs.files[to]]; }
      case _ =>
    }
  }
}
