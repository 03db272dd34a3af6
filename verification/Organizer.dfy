/** Organising a directory into category folders (`organize_directory`): names that cannot collide,
and moves that lose nothing. */
module Organizer {
  import opened Collections
  import opened FileOps

  // ----- numbered names

  function DigitChar(d: nat): char
    requires d < 10
  {
    ('0' as int + d) as char
  }

  /** Decimal notation. */
  function Digits(n: nat): (s: string)
    ensures s != []
  {
    if n < 10 then [DigitChar(n)] else Digits(n / 10) + [DigitChar(n % 10)]
  }

  lemma LongDigits(n: nat)
    ensures |Digits(n)| > 1 <==> n >= 10
    ensures n >= 10 ==> Digits(n)[..|Digits(n)| - 1] == Digits(n / 10)
    ensures Digits(n)[|Digits(n)| - 1] == DigitChar(n % 10)
  {
    if n >= 10 { assert |Digits(n / 10)| > 0; }
  }

  lemma {:induction false} DigitsInjective(m: nat, n: nat)
    requires Digits(m) == Digits(n)
    ensures m == n
    decreases m
  {
    hide Digits;
    LongDigits(m);
    LongDigits(n);
    if m >= 10 {
      DigitsInjective(m / 10, n / 10);
    }
  }

  /** The last dot, where it is neither the first nor the last character; else the end. */
  function SuffixStart(name: string): (i: nat)
    ensures i <= |name|
  {
    var i := LastDot(name);
    if 0 < i < |name| - 1 then i else |name|
  }

  function LastDot(name: string): (i: int)
    ensures -1 <= i < |name|
  {
    if name == [] then -1
    else if name[|name| - 1] == '.' then |name| - 1
    else LastDot(name[..|name| - 1])
  }

  function Stem(name: string): string {
    name[..SuffixStart(name)]
  }

  function Suffix(name: string): string {
    name[SuffixStart(name)..]
  }

  function Numbered(name: string, c: nat): string {
    Stem(name) + "_" + Digits(c) + Suffix(name)
  }

  function Value(s: string): int {
    if s == [] then 0 else Value(s[..|s| - 1]) * 10 + (s[|s| - 1] as int - '0' as int)
  }

  /** Decimal notation without leading zeros. */
  lemma {:induction false} DigitsDenote(n: nat)
    ensures Value(Digits(n)) == n
    ensures forall i | 0 <= i < |Digits(n)| :: '0' <= Digits(n)[i] <= '9'
    ensures Digits(n)[0] == '0' ==> n == 0
  {
    LongDigits(n);
    if n >= 10 {
      DigitsDenote(n / 10);
    } else {
      assert Digits(n)[..0] == [];
    }
  }

  lemma {:induction false} LastDotIsLast(name: string)
    ensures LastDot(name) >= 0 ==> name[LastDot(name)] == '.'
    ensures forall j | LastDot(name) < j < |name| :: name[j] != '.'
  {
    if name != [] && name[|name| - 1] != '.' {
      LastDotIsLast(name[..|name| - 1]);
    }
  }

  /** A name is its stem and its suffix.  The suffix begins with the last dot and has more after it, and the
      stem is not empty; without such a dot there is no suffix. */
  lemma SuffixIsAfterLastDot(name: string)
    ensures Stem(name) + Suffix(name) == name
    ensures Suffix(name) != [] ==>
      Stem(name) != [] && |Suffix(name)| >= 2 && Suffix(name)[0] == '.' && '.' !in Suffix(name)[1..]
    ensures Suffix(name) == [] ==>
      forall i | 0 < i < |name| - 1 && name[i] == '.' :: exists j :: i < j < |name| && name[j] == '.'
  {
    LastDotIsLast(name);
    hide LastDot;
  }

  lemma NumberedInjective(name: string, c: nat, d: nat)
    requires Numbered(name, c) == Numbered(name, d)
    ensures c == d
  {
    var a, b := Numbered(name, c), Numbered(name, d);
    var k, l := |Stem(name)| + 1, |Suffix(name)|;
    assert Digits(c) == a[k..|a| - l];
    assert Digits(d) == b[k..|b| - l];
    DigitsInjective(c, d);
  }

  lemma NumberedIsLonger(name: string, c: nat)
    ensures Numbered(name, c) != name
  {
    assert |Numbered(name, c)| > |name|;
  }

  /** `dest` is the name itself if that is free, else the first numbered name that is. */
  ghost predicate FirstFree(fs: FS, folder: Path, name: string, dest: Path) {
    && !Exists(fs, dest)
    && (dest == folder + [name]
        || (Exists(fs, folder + [name]) && exists c: nat :: NumberedFirst(fs, folder, name, dest, c)))
  }

  ghost predicate NumberedFirst(fs: FS, folder: Path, name: string, dest: Path, c: nat) {
    && c >= 1 && dest == folder + [Numbered(name, c)]
    && forall b: nat | 1 <= b < c :: Exists(fs, folder + [Numbered(name, b)])
  }

  /** The candidates before counter `counter` has been used. */
  ghost predicate Tried(folder: Path, name: string, counter: nat, p: Path) {
    counter > 1 && (p == folder + [name] || exists c: nat :: 1 <= c < counter - 1 && p == folder + [Numbered(name, c)])
  }

  lemma FreshCandidate(folder: Path, name: string, counter: nat, tried: set<Path>)
    requires counter >= 1 && forall p | p in tried :: Tried(folder, name, counter, p)
    ensures folder + [if counter == 1 then name else Numbered(name, counter - 1)] !in tried
    ensures forall p | p in tried :: Tried(folder, name, counter + 1, p)
  {
    var dest := folder + [if counter == 1 then name else Numbered(name, counter - 1)];
    if dest in tried {
      assert Tried(folder, name, counter, dest);
      assert dest[|folder|] == Numbered(name, counter - 1);
      NumberedIsLonger(name, counter - 1);
      var c: nat :| 1 <= c < counter - 1 && dest == folder + [Numbered(name, c)];
      assert dest[|folder|] == Numbered(name, c);
      NumberedInjective(name, c, counter - 1);
    }
  }

  // ----- relocations

  /** The same contents, each at its place, no two at one place. */
  ghost predicate RelocatedBy(before: map<Path, Bytes>, after: map<Path, Bytes>, place: map<Path, Path>) {
    && place.Keys == before.Keys
    && (forall p, q | p in place && q in place && p != q :: place[p] != place[q])
    && (forall p | p in before :: place[p] in after && after[place[p]] == before[p])
    && forall q | q in after :: exists p :: p in place && place[p] == q
  }

  /** The contents of all files, with multiplicity. */
  ghost function Bag(files: map<Path, Bytes>): multiset<Bytes>
    decreases files.Keys
  {
    if files == map[] then multiset{}
    else
      var p :| p in files;
      multiset{files[p]} + Bag(files - {p})
  }

  lemma {:induction false} BagWithout(files: map<Path, Bytes>, p: Path)
    requires p in files
    ensures Bag(files) == multiset{files[p]} + Bag(files - {p})
    decreases files.Keys
  {
    var q := PickedFirst(files);
    hide Bag;
    if q != p {
      BagWithout(files - {q}, p);
      BagWithout(files - {p}, q);
      TwiceWithout(files, p, q);
    }
  }

  lemma TwiceWithout(files: map<Path, Bytes>, p: Path, q: Path)
    ensures files - {q} - {p} == files - {p} - {q}
  {
  }

  lemma PickedFirst(files: map<Path, Bytes>) returns (q: Path)
    requires files != map[]
    ensures q in files && Bag(files) == multiset{files[q]} + Bag(files - {q})
  {
    q :| q in files && Bag(files) == multiset{files[q]} + Bag(files - {q});
  }

  lemma RelocationWithout(before: map<Path, Bytes>, after: map<Path, Bytes>, place: map<Path, Path>, p: Path)
    requires RelocatedBy(before, after, place) && p in before
    ensures RelocatedBy(before - {p}, after - {place[p]}, place - {p})
  {
    forall q | q in after - {place[p]} ensures exists x :: x in place - {p} && (place - {p})[x] == q {
      var x :| x in place && place[x] == q;
      assert x in place - {p} && (place - {p})[x] == q;
    }
  }

  /** A relocation keeps the multiset of contents. */
  lemma {:induction false} RelocationKeepsContents(before: map<Path, Bytes>, after: map<Path, Bytes>,
                                                   place: map<Path, Path>)
    requires RelocatedBy(before, after, place)
    ensures Bag(before) == Bag(after)
    decreases before.Keys
  {
    if before == map[] {
      assert after == map[];
    } else {
      var p :| p in before;
      RelocationWithout(before, after, place, p);
      assert place[p] in after && after[place[p]] == before[p];
      hide Bag, RelocatedBy;
      BagWithout(before, p);
      BagWithout(after, place[p]);
      RelocationKeepsContents(before - {p}, after - {place[p]}, place - {p});
    }
  }

  // ----- one run of the organiser

  /** `p` is directly in `dir` and has a category. */
  predicate HasCategory(dir: Path, folderOf: string -> Option<string>, p: Path) {
    |p| == |dir| + 1 && p[..|dir|] == dir && folderOf(Suffix(p[|dir|])).Some?
  }

  ghost function Categorised(files: map<Path, Bytes>, dir: Path, folderOf: string -> Option<string>): set<Path> {
    set p | p in files && HasCategory(dir, folderOf, p)
  }

  function MovedPaths(place: map<Path, Path>): set<Path> {
    set p | p in place && place[p] != p
  }

  /** A moved file lands in its category's folder, where no file was, under its own name or that name with a
      number. */
  ghost predicate Filed(files0: map<Path, Bytes>, dir: Path, folderOf: string -> Option<string>, p: Path, q: Path) {
    && HasCategory(dir, folderOf, p) && q !in files0
    && |q| == |dir| + 2 && q[..|dir| + 1] == FolderFor(dir, folderOf, p)
    && (q[|dir| + 1] == p[|dir|] || exists c: nat :: c >= 1 && q[|dir| + 1] == Numbered(p[|dir|], c))
  }

  /** The folder of a categorised file's category. */
  function FolderFor(dir: Path, folderOf: string -> Option<string>, p: Path): Path
    requires HasCategory(dir, folderOf, p)
  {
    dir + [folderOf(Suffix(p[|dir|])).value]
  }

  function FoldersFor(dir: Path, folderOf: string -> Option<string>, paths: set<Path>): set<Path> {
    set p | p in paths && HasCategory(dir, folderOf, p) :: FolderFor(dir, folderOf, p)
  }

  /** The entry at `i` cannot be filed: a file stands where its folder belongs, and is not an entry moved
      away before. */
  ghost predicate Blocked(files0: map<Path, Bytes>, dir: Path, listing: seq<string>, folderOf: string -> Option<string>,
                          i: nat)
    requires i < |listing|
  {
    var p := dir + [listing[i]];
    && p in Categorised(files0, dir, folderOf)
    && var folder := FolderFor(dir, folderOf, p);
    && folder in files0
    && !(HasCategory(dir, folderOf, folder) && exists j :: 0 <= j < i && dir + [listing[j]] == folder)
  }

  /** Every file is where it was, or filed. */
  ghost predicate AllFiled(files0: map<Path, Bytes>, dir: Path, folderOf: string -> Option<string>,
                           place: map<Path, Path>) {
    forall p | p in files0 && p in place :: place[p] == p || Filed(files0, dir, folderOf, p, place[p])
  }

  /** After the first `i` entries of the listing. */
  ghost predicate Organizing(files0: map<Path, Bytes>, files: map<Path, Bytes>, dir: Path, listing: seq<string>,
                             i: nat, folderOf: string -> Option<string>, place: map<Path, Path>)
    requires i <= |listing|
  {
    && RelocatedBy(files0, files, place) && NoDup(listing)
    && (forall p | p in files0 && HasCategory(dir, folderOf, p) :: p[|dir|] in listing)
    && AllFiled(files0, dir, folderOf, place)
    && (forall j | 0 <= j < i :: dir + [listing[j]] in Categorised(files0, dir, folderOf) ==>
         place[dir + [listing[j]]] != dir + [listing[j]])
    && forall j | i <= j < |listing| :: dir + [listing[j]] in files0 ==>
         place[dir + [listing[j]]] == dir + [listing[j]]
  }

  lemma Skip(files0: map<Path, Bytes>, files: map<Path, Bytes>, dir: Path, listing: seq<string>, i: nat,
             folderOf: string -> Option<string>, place: map<Path, Path>)
    requires i < |listing| && Organizing(files0, files, dir, listing, i, folderOf, place)
    requires folderOf(Suffix(listing[i])) == None || dir + [listing[i]] !in files
    ensures Organizing(files0, files, dir, listing, i + 1, folderOf, place)
  {
    var p := dir + [listing[i]];
    assert p[|dir|] == listing[i];
    assert p in files0 ==> p in files;
  }

  lemma Step(files0: map<Path, Bytes>, files: map<Path, Bytes>, dir: Path, listing: seq<string>, i: nat,
             folderOf: string -> Option<string>, place: map<Path, Path>, dest: Path)
    requires i < |listing| && Organizing(files0, files, dir, listing, i, folderOf, place)
    requires dir + [listing[i]] in files && folderOf(Suffix(listing[i])).Some? && dest !in files
    requires |dest| == |dir| + 2 && dest[..|dir| + 1] == dir + [folderOf(Suffix(listing[i])).value]
    requires dest[|dir| + 1] == listing[i] || exists c: nat :: c >= 1 && dest[|dir| + 1] == Numbered(listing[i], c)
    ensures
      var p := dir + [listing[i]];
      && p in files0 && place[p] == p
      && Organizing(files0, (files - {p})[dest := files[p]], dir, listing, i + 1, folderOf, place[p := dest])
      && MovedPaths(place[p := dest]) == MovedPaths(place) + {p} && p !in MovedPaths(place)
  {
    var p := dir + [listing[i]];
    assert p[|dir|] == listing[i] && p[..|dir|] == dir;
    assert p in files0 && place[p] == p by {
      var o :| o in place && place[o] == p;
    }
    forall x | x in files0 ensures x != dest {
      assert place[x] == x || HasCategory(dir, folderOf, x);
    }
    MoveRelocates(files0, files, place, p, dest);
    var place' := place[p := dest];
    forall j | 0 <= j < |listing| && j != i ensures dir + [listing[j]] != p {
      assert (dir + [listing[j]])[|dir|] == listing[j];
    }
    hide RelocatedBy, Suffix;
    assert MovedPaths(place') == MovedPaths(place) + {p};
  }

  lemma MoveRelocates(files0: map<Path, Bytes>, files: map<Path, Bytes>, place: map<Path, Path>, p: Path, dest: Path)
    requires RelocatedBy(files0, files, place) && p in files0 && place[p] == p && dest !in files
    ensures RelocatedBy(files0, (files - {p})[dest := files[p]], place[p := dest])
  {
    var after, place' := (files - {p})[dest := files[p]], place[p := dest];
    forall q | q in after ensures exists x :: x in place' && place'[x] == q {
      if q == dest { assert place'[p] == q; } else {
        var x :| x in place && place[x] == q;
        assert place'[x] == q;
      }
    }
  }

  /** While the entries are being handled, a file stands at a path in `dir` if it did and has not been moved. */
  lemma EntryStillThere(files0: map<Path, Bytes>, files: map<Path, Bytes>, dir: Path, listing: seq<string>, i: nat,
                        folderOf: string -> Option<string>, place: map<Path, Path>, p: Path)
    requires i <= |listing| && Organizing(files0, files, dir, listing, i, folderOf, place)
    requires |p| == |dir| + 1 && p[..|dir|] == dir
    ensures p in files <==>
      p in files0 && !(HasCategory(dir, folderOf, p) && exists j :: 0 <= j < i && dir + [listing[j]] == p)
  {
    hide Suffix, Numbered, NoDup;
    if p in files {
      var o :| o in place && place[o] == p;
      assert o == p;
    }
    if p in files0 && place[p] == p { assert p in files; }
    if p in files0 && place[p] != p {
      assert Filed(files0, dir, folderOf, p, place[p]);
      var j :| 0 <= j < |listing| && listing[j] == p[|dir|];
      assert dir + [listing[j]] == p;
    }
  }

  /** The entry at `i`: skipped when it has no category or is no file; blocked when a file stands where its
      folder belongs. */
  lemma EntryBlocked(files0: map<Path, Bytes>, files: map<Path, Bytes>, dir: Path, listing: seq<string>, i: nat,
                     folderOf: string -> Option<string>, place: map<Path, Path>)
    requires i < |listing| && Organizing(files0, files, dir, listing, i, folderOf, place)
    ensures
      var p := dir + [listing[i]];
      Blocked(files0, dir, listing, folderOf, i) <==>
        p in files && HasCategory(dir, folderOf, p) && FolderFor(dir, folderOf, p) in files
  {
    hide Organizing, Suffix;
    var p := dir + [listing[i]];
    EntryStillThere(files0, files, dir, listing, i, folderOf, place, p);
    EntriesDiffer(files0, files, dir, listing, i, folderOf, place);
    if HasCategory(dir, folderOf, p) {
      EntryStillThere(files0, files, dir, listing, i, folderOf, place, FolderFor(dir, folderOf, p));
    }
  }

  lemma EntriesDiffer(files0: map<Path, Bytes>, files: map<Path, Bytes>, dir: Path, listing: seq<string>, i: nat,
                      folderOf: string -> Option<string>, place: map<Path, Path>)
    requires i < |listing| && Organizing(files0, files, dir, listing, i, folderOf, place)
    ensures forall j | 0 <= j < i :: dir + [listing[j]] != dir + [listing[i]]
  {
    forall j | 0 <= j < i ensures dir + [listing[j]] != dir + [listing[i]] {
      assert (dir + [listing[j]])[|dir|] == listing[j] && (dir + [listing[i]])[|dir|] == listing[i];
    }
  }

  lemma NoFolders(dir: Path, folderOf: string -> Option<string>)
    ensures FoldersFor(dir, folderOf, {}) == {}
  {
  }

  lemma MoreFolders(dir: Path, folderOf: string -> Option<string>, paths: set<Path>, p: Path)
    requires HasCategory(dir, folderOf, p)
    ensures FoldersFor(dir, folderOf, paths + {p}) == FoldersFor(dir, folderOf, paths) + {FolderFor(dir, folderOf, p)}
  {
  }

  lemma OrganizingFacts(files0: map<Path, Bytes>, files: map<Path, Bytes>, dir: Path, listing: seq<string>,
                        i: nat, folderOf: string -> Option<string>, place: map<Path, Path>)
    requires i <= |listing| && Organizing(files0, files, dir, listing, i, folderOf, place)
    ensures RelocatedBy(files0, files, place) && AllFiled(files0, dir, folderOf, place)
  {
  }

  lemma Finished(files0: map<Path, Bytes>, files: map<Path, Bytes>, dir: Path, listing: seq<string>,
                 folderOf: string -> Option<string>, place: map<Path, Path>)
    requires Organizing(files0, files, dir, listing, |listing|, folderOf, place)
    ensures MovedPaths(place) == Categorised(files0, dir, folderOf)
    ensures Categorised(files, dir, folderOf) == {}
  {
    forall p | p in Categorised(files0, dir, folderOf) ensures place[p] != p {
      var j :| 0 <= j < |listing| && listing[j] == p[|dir|];
      assert p == dir + [listing[j]];
    }
    forall q | q in files ensures !HasCategory(dir, folderOf, q) {
      var p :| p in place && place[p] == q;
      assert p in Categorised(files0, dir, folderOf) ==> place[p] != p;
    }
  }

  lemma Begin(files0: map<Path, Bytes>, dir: Path, listing: seq<string>, folderOf: string -> Option<string>)
    requires NoDup(listing) && forall n | dir + [n] in files0 :: n in listing
    ensures Organizing(files0, files0, dir, listing, 0, folderOf, map p | p in files0 :: p)
    ensures MovedPaths(map p | p in files0 :: p) == {}
  {
    forall p | p in files0 && HasCategory(dir, folderOf, p) ensures p[|dir|] in listing {
      assert p == dir + [p[|dir|]];
    }
    InPlace(files0);
  }

  lemma InPlace(files: map<Path, Bytes>)
    ensures RelocatedBy(files, files, map p | p in files :: p)
  {
    var place: map<Path, Path> := map p | p in files :: p;
    forall q | q in files ensures exists p :: p in place && place[p] == q {
      assert place[q] == q;
    }
  }
}
