/** The system controller's file operations as they change its state, and the directory organiser. */
module SystemController {
  import opened Collections
  import opened FileOps
  import opened FileEffects
  import opened Organizer

  class AdvancedSystemController {
    var files: map<Path, Bytes>
    var dirs: set<Path>
    var actionHistory: seq<Action>

    constructor (files: map<Path, Bytes>, dirs: set<Path>)
      ensures View() == State(FS(files, dirs), [])
    {
      this.files, this.dirs, actionHistory := files, dirs, [];
    }

    ghost function View(): State
      reads this
    {
      State(FS(files, dirs), actionHistory)
    }

    ghost predicate Covers(op: Op)
      reads this
    {
      OnFiles(View().fs, op)
    }

    method RecordAction(a: Action)
      modifies this`actionHistory
      ensures actionHistory == Record(old(actionHistory), a)
      ensures Remembered(old(View()), View(), a)
    {
      RecordRemembers(View(), View().(history := Record(actionHistory, a)), a);
      actionHistory := actionHistory + [a];
      if |actionHistory| > HISTORY {
        actionHistory := actionHistory[|actionHistory| - HISTORY..];
      }
    }

    /** Creates missing directories; false when a file is in the way. */
    method MakeDirs(path: Path) returns (ok: bool)
      modifies this`dirs
      ensures ok == CanMkdir(old(View().fs), path)
      ensures View().fs == if ok then Mkdir(old(View().fs), path) else old(View().fs)
    {
      ok := forall q | q in Prefixes(path) :: q !in files;
      if ok { dirs := dirs + Prefixes(path); }
    }

    method CreateFile(dir: Path, name: string, content: Bytes) returns (success: bool)
      requires Covers(Create(dir, name, content))
      modifies this
      ensures View() == Do(old(View()), Create(dir, name, content))
      ensures success == Apply(old(View().fs), Create(dir, name, content)).success
      ensures Creates(old(View()), dir, name, content, View(), success)
    {
      OperationDoes(View(), Create(dir, name, content));
      hide Creates;
      success := MakeDirs(dir);
      if !success { return; }
      var target := dir + [name];
      if target in dirs { return false; }
      files := files[target := content];
      RecordAction(Created(target));
    }

    method DeleteFile(path: Path) returns (success: bool)
      requires Covers(Delete(path))
      modifies this
      ensures View() == Do(old(View()), Delete(path))
      ensures success == Apply(old(View().fs), Delete(path)).success
      ensures Deletes(old(View()), path, View(), success)
    {
      OperationDoes(View(), Delete(path));
      hide Deletes;
      if path !in files { return false; }
      RecordAction(Deleted(path, files[path]));
      files := files - {path};
      success := true;
    }

    method MoveFile(src: Path, dst: Path) returns (success: bool)
      requires Covers(Move(src, dst))
      modifies this
      ensures View() == Do(old(View()), Move(src, dst))
      ensures success == Apply(old(View().fs), Move(src, dst)).success
      ensures Moves(old(View()), src, dst, View(), success)
    {
      OperationDoes(View(), Move(src, dst));
      hide Moves;
      if src !in files { return false; }
      var target := if dst in dirs then dst + [Name(src)] else dst;
      success := MakeDirs(Parent(target));
      if !success { return; }
      RecordAction(Moved(src, target));
      if src != target {
        files := (files - {src})[target := files[src]];
      }
    }

    method CopyFile(src: Path, dst: Path) returns (success: bool)
      requires Covers(Copy(src, dst))
      modifies this
      ensures View() == Do(old(View()), Copy(src, dst))
      ensures success == Apply(old(View().fs), Copy(src, dst)).success
      ensures Copies(old(View()), src, dst, View(), success)
    {
      OperationDoes(View(), Copy(src, dst));
      hide Copies;
      if src !in files { return false; }
      var target := if dst in dirs then dst + [Name(src)] else dst;
      success := MakeDirs(Parent(target));
      if !success { return; }
      RecordAction(Copied(target));
      if target == src { return false; }
      files := files[target := files[src]];
    }

    method RenameFile(path: Path, newName: string) returns (success: bool)
      requires Covers(Rename(path, newName))
      modifies this
      ensures View() == Do(old(View()), Rename(path, newName))
      ensures success == Apply(old(View().fs), Rename(path, newName)).success
      ensures Renames(old(View()), path, newName, View(), success)
    {
      OperationDoes(View(), Rename(path, newName));
      hide Renames;
      if path !in files { return false; }
      var target := Parent(path) + [newName];
      if target in files || target in dirs { return false; }
      RecordAction(Renamed(path, target));
      files := (files - {path})[target := files[path]];
      success := true;
    }

    /** Undoes the last recorded action; it leaves the history even when the undo fails. */
    method UndoLastAction()
      modifies this
      ensures View() == UndoLast(old(View()))
      ensures old(actionHistory) == [] ==> View() == old(View())
      ensures old(actionHistory) != [] ==>
        && actionHistory == old(actionHistory[..|actionHistory| - 1])
        && Undoes(old(View().fs), old(actionHistory[|actionHistory| - 1]), View().fs)
    {
      UndoUndoes(View());
      hide Undoes;
      if actionHistory == [] { return; }
      var a := actionHistory[|actionHistory| - 1];
      actionHistory := actionHistory[..|actionHistory| - 1];
      match a {
        case Created(p) => Unlink(p);
        case Copied(p) => Unlink(p);
        case Deleted(p, content) =>
          if p !in dirs && p != [] && Parent(p) in dirs { files := files[p := content]; }
        case Moved(src, dst) =>
          if dst in files && dst != [] {
            var target := if src in dirs then src + [Name(dst)] else src;
            var ok := if src in dirs then target !in files && target !in dirs else src != [] && Parent(src) in dirs;
            if ok { MoveBack(dst, target); }
          }
        case Renamed(before, after) =>
          if after in files && before !in dirs && before != [] && Parent(before) in dirs {
            MoveBack(after, before);
          }
        case Organized(_) =>
      }
    }

    method Unlink(p: Path)
      modifies this`files
      ensures View().fs == if p in dirs then old(View().fs) else FS(old(files) - {p}, dirs)
    {
      if p !in dirs { files := files - {p}; }
    }

    method MoveBack(from: Path, to: Path)
      requires from in files
      modifies this`files
      ensures View().fs == Relocate(old(View().fs), from, to)
    {
      if from != to { files := (files - {from})[to := files[from]]; }
    }

    /** Moves the files of `dir` that have a category into the category's folder; `listing` is the
        snapshot of its entries and `folderOf` gives the folder for a file suffix. */
    method OrganizeDirectory(dir: Path, listing: seq<string>, folderOf: string -> Option<string>, dryRun: bool)
      returns (success: bool, movedCount: nat, ghost place: map<Path, Path>)
      requires dir in dirs ==> forall n :: n in listing <==> Exists(View().fs, dir + [n])
      requires NoDup(listing) && files.Keys !! dirs
      modifies this
      ensures files.Keys !! dirs && RelocatedBy(old(files), files, place)
      ensures AllFiled(old(files), dir, folderOf, place)
      ensures success <==>
        dir in old(dirs) && (dryRun || forall i | 0 <= i < |listing| :: !Blocked(old(files), dir, listing, folderOf, i))
      ensures dryRun || dir !in old(dirs) ==> files == old(files) && dirs == old(dirs)
      ensures success && dryRun ==> movedCount == 0
      ensures success && !dryRun ==>
        && MovedPaths(place) == Categorised(old(files), dir, folderOf)
        && movedCount == |Categorised(old(files), dir, folderOf)|
        && Categorised(files, dir, folderOf) == {}
        && dirs == old(dirs) + FoldersFor(dir, folderOf, Categorised(old(files), dir, folderOf))
        && actionHistory == Record(old(actionHistory), Organized(dir))
      ensures !success || dryRun ==> actionHistory == old(actionHistory)
    {
      InPlace(files);
      place := map p | p in files :: p;
      if dir !in dirs { return false, 0, place; }
      if dryRun { return true, 0, place; }
      Begin(files, dir, listing, folderOf);
      success, movedCount, place := MoveEntries(dir, listing, folderOf);
      if success { RecordAction(Organized(dir)); }
    }

    /** The loop over the snapshot. */
    method MoveEntries(dir: Path, listing: seq<string>, folderOf: string -> Option<string>)
      returns (success: bool, movedCount: nat, ghost place: map<Path, Path>)
      requires files.Keys !! dirs
      requires Organizing(files, files, dir, listing, 0, folderOf, map p | p in files :: p)
      requires MovedPaths(map p | p in files :: p) == {}
      modifies this`files, this`dirs
      ensures files.Keys !! dirs && RelocatedBy(old(files), files, place) && AllFiled(old(files), dir, folderOf, place)
      ensures success ==>
        && MovedPaths(place) == Categorised(old(files), dir, folderOf) && movedCount == |MovedPaths(place)|
        && Categorised(files, dir, folderOf) == {} && dirs == old(dirs) + FoldersFor(dir, folderOf, MovedPaths(place))
      ensures success <==> forall i | 0 <= i < |listing| :: !Blocked(old(files), dir, listing, folderOf, i)
    {
      hide RelocatedBy, NoDup, Suffix, Organizing, AllFiled, Categorised, MovedPaths, Blocked, FoldersFor;
      ghost var files0, dirs0 := files, dirs;
      place := map p | p in files :: p;
      NoFolders(dir, folderOf);
      movedCount := 0;
      for i := 0 to |listing|
        invariant Organizing(files0, files, dir, listing, i, folderOf, place) && files.Keys !! dirs
        invariant movedCount == |MovedPaths(place)| && dirs == dirs0 + FoldersFor(dir, folderOf, MovedPaths(place))
        invariant forall j | 0 <= j < i :: !Blocked(files0, dir, listing, folderOf, j)
      {
        ghost var before := place;
        var moved;
        success, moved, place := MoveEntry(dir, listing, i, folderOf, files0, dirs0, before);
        if !success {
          OrganizingFacts(files0, files, dir, listing, i, folderOf, place);
          return;
        }
        movedCount := movedCount + moved;
      }
      OrganizingFacts(files0, files, dir, listing, |listing|, folderOf, place);
      Finished(files0, files, dir, listing, folderOf, place);
      success := true;
    }

    /** Handles one entry of the snapshot. */
    method MoveEntry(dir: Path, listing: seq<string>, i: nat, folderOf: string -> Option<string>,
                     ghost files0: map<Path, Bytes>, ghost dirs0: set<Path>, ghost before: map<Path, Path>)
      returns (ok: bool, moved: nat, ghost place: map<Path, Path>)
      requires i < |listing| && Organizing(files0, files, dir, listing, i, folderOf, before) && files.Keys !! dirs
      requires dirs == dirs0 + FoldersFor(dir, folderOf, MovedPaths(before))
      modifies this`files, this`dirs
      ensures files.Keys !! dirs && dirs == dirs0 + FoldersFor(dir, folderOf, MovedPaths(place))
      ensures Organizing(files0, files, dir, listing, if ok then i + 1 else i, folderOf, place)
      ensures |MovedPaths(place)| == |MovedPaths(before)| + moved
      ensures ok <==> !Blocked(files0, dir, listing, folderOf, i)
    {
      hide RelocatedBy, NoDup, Suffix, Organizing, AllFiled, Categorised, MovedPaths, Blocked, FoldersFor, FirstFree;
      EntryBlocked(files0, files, dir, listing, i, folderOf, before);
      var path, folder := dir + [listing[i]], folderOf(Suffix(listing[i]));
      ok, moved, place := true, 0, before;
      if path in dirs || folder == None || path !in files {
        Skip(files0, files, dir, listing, i, folderOf, place);
      } else {
        ghost var was := files;
        var dest;
        ok, dest := FileAway(dir, listing[i], folder.value);
        if ok {
          Step(files0, was, dir, listing, i, folderOf, place, dest);
          MoreFolders(dir, folderOf, MovedPaths(place), path);
          moved, place := 1, place[path := dest];
        }
      }
    }

    /** Moves one file of `dir` into a category folder; fails when a file stands where the folder
        belongs. */
    method FileAway(dir: Path, name: string, folder: string) returns (ok: bool, dest: Path)
      requires dir + [name] in files && files.Keys !! dirs
      modifies this`files, this`dirs
      ensures files.Keys !! dirs
      ensures ok <==> dir + [folder] !in old(files)
      ensures !ok ==> files == old(files) && dirs == old(dirs)
      ensures ok ==>
        && dest !in old(files) && |dest| == |dir| + 2 && dest[..|dir| + 1] == dir + [folder]
        && (dest[|dir| + 1] == name || exists c: nat :: c >= 1 && dest[|dir| + 1] == Numbered(name, c))
        && FirstFree(FS(old(files), dirs), dir + [folder], name, dest) && dirs == old(dirs) + {dir + [folder]}
        && files == (old(files) - {dir + [name]})[dest := old(files)[dir + [name]]]
    {
      var path, categoryFolder := dir + [name], dir + [folder];
      if categoryFolder in files { return false, []; }
      dirs := dirs + {categoryFolder};
      dest := FreeName(categoryFolder, name);
      files := (files - {path})[dest := files[path]];
      ok := true;
    }

    /** The name itself, or the name with the least counter that is free. */
    method FreeName(folder: Path, name: string) returns (dest: Path)
      ensures FirstFree(View().fs, folder, name, dest)
    {
      dest := folder + [name];
      var counter := 1;
      ghost var taken, tried := files.Keys + dirs, {};
      while dest in files || dest in dirs
        invariant counter >= 1 && (counter > 1 ==> folder + [name] in taken)
        invariant forall b: nat | 1 <= b < counter - 1 :: folder + [Numbered(name, b)] in taken
        invariant dest == folder + [if counter == 1 then name else Numbered(name, counter - 1)]
        invariant tried <= taken && forall p | p in tried :: Tried(folder, name, counter, p)
        decreases taken - tried
      {
        FreshCandidate(folder, name, counter, tried);
        tried := tried + {dest};
        dest := folder + [Stem(name) + "_" + Digits(counter) + Suffix(name)];
        counter := counter + 1;
      }
      assert counter > 1 ==> NumberedFirst(View().fs, folder, name, dest, counter - 1);
    }
  }
}
