/**
 The tree walk that picks the files to index (pkg/walker.go). It skips ignored
 directories as a whole and filters the files it meets.
 */
module Walker {
  import opened Sequences
  import opened Text
  import opened Ignore

  /** A file system entry as filepath.Walk meets it. */
  datatype Entry =
    | File(name: string, size: nat)
    | Dir(name: string, entries: seq<Entry>, readable: bool)
    | Inaccessible(name: string)

  /** The walk options: the accepted extensions and the size limit in bytes, 0 for none. */
  datatype Options = Options(extensions: set<string>, maxSize: nat)

  /** filepath.Ext of a file name. */
  function Ext(name: string): string {
    if name == "" then ""
    else if name[|name| - 1] == '.' then "."
    else if '.' in name then Ext(name[..|name| - 1]) + [name[|name| - 1]]
    else ""
  }

  predicate Accepted(file: Entry, options: Options)
    requires file.File?
  {
    ToLower(Ext(file.name)) in options.extensions && (options.maxSize > 0 ==> file.size <= options.maxSize)
  }

  /** The slash path of an entry below a directory; the root is ".". */
  function Below(rel: string, name: string): string {
    if rel == "." then name else rel + "/" + name
  }

  // --- the walk as specified: every file, with the directories above it ---

  /** A file and the paths of the directories between the root and it. */
  datatype Found = Found(path: string, above: seq<string>, accepted: bool)

  function AllFiles(entry: Entry, rel: string, above: seq<string>, options: Options): seq<Found>
    decreases entry, 0
  {
    match entry
    case Inaccessible(_) => []
    case File(_, _) => [Found(rel, above, Accepted(entry, options))]
    case Dir(_, entries, readable) =>
      if readable then AllFilesIn(entry, |entries|, rel, above + [rel], options) else []
  }

  function AllFilesIn(dir: Entry, n: nat, rel: string, above: seq<string>, options: Options): seq<Found>
    requires dir.Dir? && n <= |dir.entries|
    decreases dir, 0, n
  {
    if n == 0 then []
    else
      var e := dir.entries[n - 1];
      AllFilesIn(dir, n - 1, rel, above, options) + AllFiles(e, Below(rel, e.name), above, options)
  }

  function FilesOf(dir: Entry, k: nat, rel: string, above: seq<string>, options: Options): seq<Found>
    requires dir.Dir? && k < |dir.entries|
  {
    AllFiles(dir.entries[k], Below(rel, dir.entries[k].name), above, options)
  }

  /** The files with no ignored directory above them that are not ignored themselves. */
  function KeepReached(found: seq<Found>, ignored: string -> bool): (r: seq<string>) {
    if found == [] then []
    else
      var f := found[|found| - 1];
      var init := KeepReached(found[..|found| - 1], ignored);
      if f.accepted && !ignored(f.path)
         && forall k :: 0 <= k < |f.above| ==> !ignored(f.above[k])
      then init + [f.path] else init
  }

  /** The files that are not ignored, wherever they are. */
  function KeepUnmatched(found: seq<Found>, ignored: string -> bool): (r: seq<string>) {
    if found == [] then []
    else
      var f := found[|found| - 1];
      var init := KeepUnmatched(found[..|found| - 1], ignored);
      if f.accepted && !ignored(f.path) then init + [f.path] else init
  }

  // --- the walk as coded ---

  class FileWalker {
    const ignored: string -> bool
    const options: Options
    var files: seq<string>

    constructor (ignored: string -> bool, options: Options)
      ensures this.ignored == ignored && this.options == options && files == []
    {
      this.ignored := ignored;
      this.options := options;
      files := [];
    }

    /** What the walk does with a file. */
    method VisitFile(file: Entry, rel: string, ghost above: seq<string>)
      requires file.File?
      requires forall k :: 0 <= k < |above| ==> !ignored(above[k])
      modifies this`files
      ensures files == old(files) + KeepReached([Found(rel, above, Accepted(file, options))], ignored)
    {
      ghost var found := [Found(rel, above, Accepted(file, options))];
      assert found[..0] == [];
      if ignored(rel) {
        return;
      }
      if ToLower(Ext(file.name)) !in options.extensions {
        return;
      }
      if options.maxSize > 0 && file.size > options.maxSize {
        return;
      }
      files := files + [rel];
    }

    /** One entry: a directory that matches is skipped with all it holds. */
    method Walk(entry: Entry, rel: string, ghost above: seq<string>)
      requires forall k :: 0 <= k < |above| ==> !ignored(above[k])
      modifies this`files
      ensures files == old(files) + KeepReached(AllFiles(entry, rel, above, options), ignored)
      decreases entry, 1
    {
      match entry
      case Inaccessible(_) =>
      case File(_, _) => VisitFile(entry, rel, above);
      case Dir(_, _, readable) =>
        if !readable {
          return;
        }
        if ignored(rel) {
          NothingBelowIsReached(entry, |entry.entries|, rel, above + [rel], options, ignored, |above|);
          return;
        }
        WalkEntries(entry, rel, above + [rel]);
    }

    method WalkEntry(dir: Entry, i: nat, rel: string, ghost above: seq<string>)
      requires dir.Dir? && i < |dir.entries|
      requires forall k :: 0 <= k < |above| ==> !ignored(above[k])
      modifies this`files
      ensures files == old(files) + KeepReached(FilesOf(dir, i, rel, above, options), ignored)
      decreases dir, 0, 0
    {
      Walk(dir.entries[i], Below(rel, dir.entries[i].name), above);
    }

    method WalkEntries(dir: Entry, rel: string, ghost above: seq<string>)
      requires dir.Dir?
      requires forall k :: 0 <= k < |above| ==> !ignored(above[k])
      modifies this`files
      ensures files == old(files) + KeepReached(AllFilesIn(dir, |dir.entries|, rel, above, options), ignored)
      decreases dir, 0, 1
    {
      for i := 0 to |dir.entries|
        invariant ListsUpTo(old(files), files, dir, i, rel, above, options, ignored)
      {
        ListsOneMore(old(files), files, dir, i, rel, above, options, ignored);
        WalkEntry(dir, i, rel, above);
      }
    }
  }

  lemma {:induction false} KeepReachedAppend(a: seq<Found>, b: seq<Found>, ignored: string -> bool)
    ensures KeepReached(a + b, ignored) == KeepReached(a, ignored) + KeepReached(b, ignored)
  {
    if b == [] {
      assert a + b == a;
    } else {
      assert (a + b)[..|a + b| - 1] == a + b[..|b| - 1];
      KeepReachedAppend(a, b[..|b| - 1], ignored);
    }
  }

  /** The list is what it was, then what the first i entries of this directory add. */
  ghost predicate ListsUpTo(start: seq<string>, files: seq<string>, dir: Entry, i: nat, rel: string, above: seq<string>,
                            options: Options, ignored: string -> bool) {
    && dir.Dir? && i <= |dir.entries|
    && files == start + KeepReached(AllFilesIn(dir, i, rel, above, options), ignored)
  }

  lemma ListsOneMore(start: seq<string>, files: seq<string>, dir: Entry, i: nat, rel: string, above: seq<string>,
                     options: Options, ignored: string -> bool)
    requires ListsUpTo(start, files, dir, i, rel, above, options, ignored) && i < |dir.entries|
    ensures ListsUpTo(start, files + KeepReached(FilesOf(dir, i, rel, above, options), ignored), dir, i + 1, rel, above,
                      options, ignored)
  {
    var before := AllFilesIn(dir, i, rel, above, options);
    var here := AllFiles(dir.entries[i], Below(rel, dir.entries[i].name), above, options);
    KeepReachedAppend(before, here, ignored);
    ConcatAssociates(start, KeepReached(before, ignored), KeepReached(here, ignored));
  }

  lemma {:induction false} AboveIsKept(entry: Entry, rel: string, above: seq<string>, options: Options, f: Found)
    requires f in AllFiles(entry, rel, above, options)
    ensures above <= f.above
    decreases entry, 0
  {
    match entry
    case Dir(_, entries, _) => AboveIsKeptIn(entry, |entries|, rel, above + [rel], options, f);
    case File(_, _) =>
  }

  lemma {:induction false} AboveIsKeptIn(dir: Entry, n: nat, rel: string, above: seq<string>, options: Options,
                                         f: Found)
    requires dir.Dir? && n <= |dir.entries|
    requires f in AllFilesIn(dir, n, rel, above, options)
    ensures above <= f.above
    decreases dir, 0, n
  {
    if f in AllFilesIn(dir, n - 1, rel, above, options) {
      AboveIsKeptIn(dir, n - 1, rel, above, options, f);
    } else {
      var e := dir.entries[n - 1];
      AboveIsKept(e, Below(rel, e.name), above, options, f);
    }
  }

  lemma {:induction false} KeepReachedNone(found: seq<Found>, ignored: string -> bool, k: nat)
    requires forall f :: f in found ==> k < |f.above| && ignored(f.above[k])
    ensures KeepReached(found, ignored) == []
  {
    if found != [] {
      assert found[|found| - 1] in found;
      KeepReachedNone(found[..|found| - 1], ignored, k);
    }
  }

  /** Below an ignored directory nothing is reached. */
  lemma NothingBelowIsReached(dir: Entry, n: nat, rel: string, above: seq<string>, options: Options,
                              ignored: string -> bool, k: nat)
    requires dir.Dir? && n <= |dir.entries| && k < |above| && ignored(above[k])
    ensures KeepReached(AllFilesIn(dir, n, rel, above, options), ignored) == []
  {
    var found := AllFilesIn(dir, n, rel, above, options);
    forall f | f in found ensures k < |f.above| && ignored(f.above[k]) {
      AboveIsKeptIn(dir, n, rel, above, options, f);
    }
    KeepReachedNone(found, ignored, k);
  }

  // --- which files are listed, said of the tree ---

  /** The file stands at this path, and no directory from this entry down to it is ignored or cannot be read. */
  ghost predicate Stands(entry: Entry, rel: string, ignored: string -> bool, path: string, file: Entry)
    decreases entry
  {
    match entry
    case Inaccessible(_) => false
    case File(_, _) => path == rel && file == entry
    case Dir(_, entries, readable) =>
      && readable && !ignored(rel)
      && exists k :: 0 <= k < |entries| && Stands(entries[k], Below(rel, entries[k].name), ignored, path, file)
  }

  /** A file that is wanted: of an accepted extension, and within the size limit if there is one. */
  predicate Wanted(file: Entry, options: Options) {
    && file.File? && ToLower(Ext(file.name)) in options.extensions
    && (options.maxSize == 0 || file.size <= options.maxSize)
  }

  ghost predicate StandsWanted(entry: Entry, rel: string, ignored: string -> bool, options: Options, path: string) {
    exists file :: Stands(entry, rel, ignored, path, file) && Wanted(file, options)
  }

  /** The extension starts at the last dot of the name. */
  lemma {:induction false} ExtIsFromLastDot(name: string)
    ensures HasSuffix(name, Ext(name))
    ensures if '.' in name then Ext(name) != "" && Ext(name)[0] == '.' && '.' !in Ext(name)[1..] else Ext(name) == ""
  {
    if name != "" && name[|name| - 1] != '.' && '.' in name {
      var init := name[..|name| - 1];
      assert name == init + [name[|name| - 1]];
      ExtIsFromLastDot(init);
      assert Ext(name)[1..] == Ext(init)[1..] + [name[|name| - 1]];
      assert init[|init| - |Ext(init)|..] == Ext(init);
      assert name[|name| - |Ext(name)|..] == init[|init| - |Ext(init)|..] + [name[|name| - 1]];
    }
  }

  predicate NoneIgnored(above: seq<string>, ignored: string -> bool) {
    forall k :: 0 <= k < |above| ==> !ignored(above[k])
  }

  /** A listed path is of a wanted file that is reached, and the other way round. */
  lemma {:induction false} ListedIff(entry: Entry, rel: string, above: seq<string>, options: Options,
                                     ignored: string -> bool, path: string)
    requires NoneIgnored(above, ignored)
    ensures path in KeepReached(AllFiles(entry, rel, above, options), ignored) <==>
              StandsWanted(entry, rel, ignored, options, path) && !ignored(path)
    decreases entry, 0
  {
    match entry
    case Inaccessible(_) =>
    case File(_, _) => OneFileListed(entry, rel, above, options, ignored, path);
    case Dir(_, entries, readable) =>
      if readable {
        if ignored(rel) {
          NothingBelowIsReached(entry, |entries|, rel, above + [rel], options, ignored, |above|);
        } else {
          ListedInIff(entry, |entries|, rel, above + [rel], options, ignored, path);
          StandsInSome(entry, rel, options, ignored, path);
        }
      }
  }

  lemma OneFileListed(file: Entry, rel: string, above: seq<string>, options: Options, ignored: string -> bool,
                      path: string)
    requires file.File? && NoneIgnored(above, ignored)
    ensures path in KeepReached(AllFiles(file, rel, above, options), ignored) <==>
              StandsWanted(file, rel, ignored, options, path) && !ignored(path)
  {
    var found := AllFiles(file, rel, above, options);
    assert found == [Found(rel, above, Accepted(file, options))] && found[..0] == [];
    if path == rel && Wanted(file, options) {
      assert Stands(file, rel, ignored, path, file);
    }
  }

  lemma StandsInSome(dir: Entry, rel: string, options: Options, ignored: string -> bool, path: string)
    requires dir.Dir? && dir.readable && !ignored(rel)
    ensures StandsWanted(dir, rel, ignored, options, path) <==>
              WantedAmong(dir, |dir.entries|, rel, options, ignored, path)
  {
    if StandsWanted(dir, rel, ignored, options, path) {
      var file :| Stands(dir, rel, ignored, path, file) && Wanted(file, options);
      var k :| 0 <= k < |dir.entries|
        && Stands(dir.entries[k], Below(rel, dir.entries[k].name), ignored, path, file);
      assert WantedAt(dir, k, rel, options, ignored, path);
    }
    if k :| 0 <= k < |dir.entries| && WantedAt(dir, k, rel, options, ignored, path) {
      var file :| Stands(dir.entries[k], Below(rel, dir.entries[k].name), ignored, path, file)
        && Wanted(file, options);
      assert Stands(dir, rel, ignored, path, file);
    }
  }

  ghost predicate WantedAt(dir: Entry, k: nat, rel: string, options: Options, ignored: string -> bool, path: string)
    requires dir.Dir? && k < |dir.entries|
  {
    StandsWanted(dir.entries[k], Below(rel, dir.entries[k].name), ignored, options, path)
  }

  lemma {:induction false} ListedInIff(dir: Entry, n: nat, rel: string, above: seq<string>, options: Options,
                                       ignored: string -> bool, path: string)
    requires dir.Dir? && n <= |dir.entries| && NoneIgnored(above, ignored)
    ensures path in KeepReached(AllFilesIn(dir, n, rel, above, options), ignored) <==>
              WantedAmong(dir, n, rel, options, ignored, path) && !ignored(path)
    decreases dir, 0, n
  {
    if n > 0 {
      ListedInOneMore(dir, n - 1, rel, above, options, ignored, path);
      WantedOneMore(dir, n - 1, rel, options, ignored, path);
      ListedInIff(dir, n - 1, rel, above, options, ignored, path);
      ListedAtIff(dir, n - 1, rel, above, options, ignored, path);
    }
  }

  lemma {:induction false} ListedAtIff(dir: Entry, k: nat, rel: string, above: seq<string>, options: Options,
                                       ignored: string -> bool, path: string)
    requires dir.Dir? && k < |dir.entries| && NoneIgnored(above, ignored)
    ensures path in KeepReached(FilesOf(dir, k, rel, above, options), ignored) <==>
              WantedAt(dir, k, rel, options, ignored, path) && !ignored(path)
    decreases dir, 0, 0
  {
    ListedIff(dir.entries[k], Below(rel, dir.entries[k].name), above, options, ignored, path);
  }

  ghost predicate WantedAmong(dir: Entry, n: nat, rel: string, options: Options, ignored: string -> bool, path: string)
    requires dir.Dir? && n <= |dir.entries|
  {
    exists k :: 0 <= k < n && WantedAt(dir, k, rel, options, ignored, path)
  }

  lemma WantedOneMore(dir: Entry, n: nat, rel: string, options: Options, ignored: string -> bool, path: string)
    requires dir.Dir? && n < |dir.entries|
    ensures WantedAmong(dir, n + 1, rel, options, ignored, path) <==>
              WantedAmong(dir, n, rel, options, ignored, path) || WantedAt(dir, n, rel, options, ignored, path)
  {
  }

  lemma ListedInOneMore(dir: Entry, n: nat, rel: string, above: seq<string>, options: Options,
                        ignored: string -> bool, path: string)
    requires dir.Dir? && n < |dir.entries|
    ensures path in KeepReached(AllFilesIn(dir, n + 1, rel, above, options), ignored) <==>
              path in KeepReached(AllFilesIn(dir, n, rel, above, options), ignored)
              || path in KeepReached(FilesOf(dir, n, rel, above, options), ignored)
  {
    KeepReachedAppend(AllFilesIn(dir, n, rel, above, options), FilesOf(dir, n, rel, above, options), ignored);
  }

  // --- pruning is filtering ---

  /** A proper path component. */
  predicate IsName(name: string) {
    name != "" && name != "." && '/' !in name
  }

  ghost predicate AllNames(names: seq<string>) {
    forall n :: n in names ==> IsName(n)
  }

  predicate NamesOk(entry: Entry) {
    entry.Dir? ==> forall e :: e in entry.entries ==> IsName(e.name) && NamesOk(e)
  }

  /** The path some names further down. */
  function PathBelow(rel: string, names: seq<string>): string
    decreases |names|
  {
    if names == [] then rel else PathBelow(Below(rel, names[0]), names[1..])
  }

  /** The directories passed on the way there, from rel on. */
  function Passed(rel: string, names: seq<string>): seq<string>
    decreases |names|
  {
    if names == [] then [] else [rel] + Passed(Below(rel, names[0]), names[1..])
  }

  lemma {:induction false} PassedAt(rel: string, names: seq<string>, k: nat)
    requires k < |names|
    ensures |Passed(rel, names)| == |names| && Passed(rel, names)[k] == PathBelow(rel, names[..k])
    decreases |names|
  {
    if k > 0 {
      PassedAt(Below(rel, names[0]), names[1..], k - 1);
      assert names[..k][0] == names[0] && names[..k][1..] == names[1..][..k - 1];
    } else if |names| > 1 {
      PassedAt(Below(rel, names[0]), names[1..], 0);
    }
  }

  lemma {:induction false} InSomeEntry(dir: Entry, n: nat, rel: string, above: seq<string>, options: Options, f: Found)
    returns (k: nat)
    requires dir.Dir? && n <= |dir.entries|
    requires f in AllFilesIn(dir, n, rel, above, options)
    ensures k < n && f in FilesOf(dir, k, rel, above, options)
    decreases n
  {
    EntriesBefore(dir, n, rel, above, options, f);
    if f in FilesOf(dir, n - 1, rel, above, options) {
      k := n - 1;
    } else {
      k := InSomeEntry(dir, n - 1, rel, above, options, f);
    }
  }

  /** What is found up to some entry is found in that entry or before it. */
  lemma EntriesBefore(dir: Entry, n: nat, rel: string, above: seq<string>, options: Options, f: Found)
    requires dir.Dir? && n <= |dir.entries| && f in AllFilesIn(dir, n, rel, above, options)
    ensures n > 0 && (f in FilesOf(dir, n - 1, rel, above, options) || f in AllFilesIn(dir, n - 1, rel, above, options))
  {
  }

  /**
   A file that is found stands some names below where the walk began, and was
   reached through exactly these directories.
   */
  lemma {:induction false} FoundBelow(entry: Entry, rel: string, above: seq<string>, options: Options, f: Found)
    returns (names: seq<string>)
    requires NamesOk(entry) && f in AllFiles(entry, rel, above, options)
    ensures AllNames(names) && f.path == PathBelow(rel, names) && f.above == above + Passed(rel, names)
    decreases entry
  {
    match entry
    case File(_, _) => names := [];
    case Dir(_, entries, _) =>
      var k := InSomeEntry(entry, |entries|, rel, above + [rel], options, f);
      var e := entries[k];
      assert e in entries;
      var rest := FoundBelow(e, Below(rel, e.name), above + [rel], options, f);
      names := [e.name] + rest;
      assert names[1..] == rest;
      ConcatAssociates(above, [rel], Passed(Below(rel, e.name), rest));
  }

  /** If the directory k names down is ignored, so is the path all names down. */
  predicate ClosedAt(ignored: string -> bool, names: seq<string>, k: int) {
    0 <= k < |names| && ignored(PathBelow(".", names[..k])) ==> ignored(PathBelow(".", names))
  }

  /** Whatever lies below an ignored path is ignored. */
  ghost predicate ClosedBelow(ignored: string -> bool) {
    forall names, k :: AllNames(names) ==> ClosedAt(ignored, names, k)
  }

  /** On this tree the pruned walk returns what walking everything and filtering returns. */
  predicate SameWalk(root: Entry, options: Options, ignored: string -> bool) {
    var found := AllFiles(root, ".", [], options);
    KeepReached(found, ignored) == KeepUnmatched(found, ignored)
  }

  lemma {:induction false} KeepSame(found: seq<Found>, ignored: string -> bool)
    requires forall f, k :: f in found && 0 <= k < |f.above| && ignored(f.above[k]) ==> ignored(f.path)
    ensures KeepReached(found, ignored) == KeepUnmatched(found, ignored)
  {
    if found != [] {
      assert found[|found| - 1] in found;
      KeepSame(found[..|found| - 1], ignored);
    }
  }

  lemma ClosedPrunesRight(root: Entry, options: Options, ignored: string -> bool)
    requires NamesOk(root) && ClosedBelow(ignored)
    ensures SameWalk(root, options, ignored)
  {
    var found := AllFiles(root, ".", [], options);
    forall f, k | f in found && 0 <= k < |f.above| && ignored(f.above[k]) ensures ignored(f.path) {
      var names := FoundBelow(root, ".", [], options, f);
      assert [] + Passed(".", names) == Passed(".", names);
      if names != [] {
        PassedAt(".", names, 0);
        PassedAt(".", names, k);
      }
      assert ClosedAt(ignored, names, k);
    }
    KeepSame(found, ignored);
  }

  /** A tree that holds one file, below these names. */
  function Chain(name: string, names: seq<string>): Entry
    decreases |names|
  {
    if names == [] then File(name, 0) else Dir(name, [Chain(names[0], names[1..])], true)
  }

  function LastOf(name: string, names: seq<string>): string {
    if names == [] then name else names[|names| - 1]
  }

  lemma {:induction false} ChainNamesOk(name: string, names: seq<string>)
    requires AllNames(names)
    ensures NamesOk(Chain(name, names)) && Chain(name, names).name == name
    decreases |names|
  {
    if names != [] {
      assert names[0] in names && forall n :: n in names[1..] ==> n in names;
      ChainNamesOk(names[0], names[1..]);
    }
  }

  lemma {:induction false} ChainFiles(name: string, names: seq<string>, rel: string, above: seq<string>,
                                      options: Options)
    ensures AllFiles(Chain(name, names), rel, above, options) ==
            [Found(PathBelow(rel, names), above + Passed(rel, names), Accepted(File(LastOf(name, names), 0), options))]
    decreases |names|
  {
    if names == [] {
      assert above + [] == above;
    } else {
      var dir := Chain(name, names);
      var below := Below(rel, names[0]);
      ChainFiles(names[0], names[1..], below, above + [rel], options);
      ConcatAssociates(above, [rel], Passed(below, names[1..]));
      assert LastOf(names[0], names[1..]) == LastOf(name, names);
      assert Chain(names[0], names[1..]).name == names[0];
      assert dir.entries[0] == Chain(names[0], names[1..]) && AllFilesIn(dir, 0, rel, above + [rel], options) == [];
      assert AllFilesIn(dir, 1, rel, above + [rel], options)
             == [] + AllFiles(Chain(names[0], names[1..]), below, above + [rel], options);
    }
  }

  lemma OneFound(f: Found, ignored: string -> bool, k: nat)
    requires f.accepted && k < |f.above| && ignored(f.above[k]) && !ignored(f.path)
    ensures KeepReached([f], ignored) == [] && KeepUnmatched([f], ignored) == [f.path]
  {
    assert [f][..0] == [];
  }

  /** Where an ignored path has something below it that is not, there is a tree on which the walk misses it. */
  lemma NotClosedMissesAFile(ignored: string -> bool, names: seq<string>, k: int)
    returns (root: Entry, options: Options)
    requires AllNames(names) && !ClosedAt(ignored, names, k)
    ensures NamesOk(root) && !SameWalk(root, options, ignored)
  {
    root := Chain("", names);
    options := Options({ToLower(Ext(LastOf("", names)))}, 0);
    ChainNamesOk("", names);
    ChainFiles("", names, ".", [], options);
    assert [] + Passed(".", names) == Passed(".", names);
    PassedAt(".", names, k);
    OneFound(AllFiles(root, ".", [], options)[0], ignored, k);
  }

  ghost predicate AlwaysSameWalk(ignored: string -> bool) {
    forall root: Entry, options: Options :: NamesOk(root) ==> SameWalk(root, options, ignored)
  }

  /** Pruning is filtering on every tree exactly when ignoring is closed below. */
  lemma PruningIsFilteringIff(ignored: string -> bool)
    ensures AlwaysSameWalk(ignored) <==> ClosedBelow(ignored)
  {
    if ClosedBelow(ignored) {
      forall root: Entry, options: Options | NamesOk(root) ensures SameWalk(root, options, ignored) {
        ClosedPrunesRight(root, options, ignored);
      }
    } else {
      var names, k :| AllNames(names) && !ClosedAt(ignored, names, k);
      var root, options := NotClosedMissesAFile(ignored, names, k);
    }
  }

  function IgnoredBy(glob: Glob, patterns: seq<string>): string -> bool {
    path => MatchesAny(glob, path, patterns)
  }

  lemma {:induction false} PathGrows(rel: string, names: seq<string>)
    requires rel != "." && AllNames(names)
    ensures PathBelow(rel, names) != "."
    ensures names != [] ==> exists below :: PathBelow(rel, names) == rel + "/" + below
    decreases |names|
  {
    if names != [] {
      assert names[0] in names && |rel + "/" + names[0]| > |"."|;
      assert forall n :: n in names[1..] ==> n in names;
      PathGrows(rel + "/" + names[0], names[1..]);
      if |names| > 1 {
        var below :| PathBelow(rel, names) == rel + "/" + names[0] + "/" + below;
        assert PathBelow(rel, names) == rel + "/" + (names[0] + "/" + below);
      }
    }
  }

  lemma {:induction false} PathInParts(rel: string, names: seq<string>, k: nat)
    requires k <= |names|
    ensures PathBelow(rel, names) == PathBelow(PathBelow(rel, names[..k]), names[k..])
    decreases |names|
  {
    if k > 0 {
      PathInParts(Below(rel, names[0]), names[1..], k - 1);
      assert names[..k][0] == names[0] && names[..k][1..] == names[1..][..k - 1] && names[k..] == names[1..][k - 1..];
    } else {
      assert names[..0] == [] && names[0..] == names;
    }
  }

  /** Patterns without glob characters ignore whatever lies below what they ignore. */
  lemma PlainPatternsAreClosed(glob: Glob, patterns: seq<string>)
    requires forall p :: p in patterns ==> PlainPattern(p)
    ensures ClosedBelow(IgnoredBy(glob, patterns))
  {
    var ignored := IgnoredBy(glob, patterns);
    assert !ignored(".");
    forall names, k | AllNames(names) ensures ClosedAt(ignored, names, k) {
      if 0 < k < |names| && ignored(PathBelow(".", names[..k])) {
        assert names[0] in names && forall n :: n in names[..k] || n in names[k..] ==> n in names;
        var dir := PathBelow(".", names[..k]);
        PathInParts(".", names, k);
        PathGrows(names[0], names[..k][1..]);
        PathGrows(dir, names[k..]);
        var below :| PathBelow(dir, names[k..]) == dir + "/" + below;
        IgnoredReachesBelow(glob, dir, patterns, below);
      }
    }
  }

  /** Without glob characters, skipping ignored directories loses nothing: it is walking everything and filtering. */
  lemma PruningIsFiltering(root: Entry, glob: Glob, patterns: seq<string>, options: Options)
    requires NamesOk(root)
    requires forall p :: p in patterns ==> PlainPattern(p)
    ensures var found := AllFiles(root, ".", [], options);
            KeepReached(found, IgnoredBy(glob, patterns)) == KeepUnmatched(found, IgnoredBy(glob, patterns))
  {
    PlainPatternsAreClosed(glob, patterns);
    ClosedPrunesRight(root, options, IgnoredBy(glob, patterns));
  }

  /** walkFiles: the accepted files that are not ignored and have no ignored directory above them. */
  method WalkFiles(root: Entry, glob: Glob, patterns: seq<string>, options: Options) returns (files: seq<string>)
    requires NamesOk(root)
    ensures files == KeepReached(AllFiles(root, ".", [], options), IgnoredBy(glob, patterns))
    ensures forall path :: path in files <==>
              StandsWanted(root, ".", IgnoredBy(glob, patterns), options, path) && !IgnoredBy(glob, patterns)(path)
    ensures (forall p :: p in patterns ==> PlainPattern(p)) ==>
              files == KeepUnmatched(AllFiles(root, ".", [], options), IgnoredBy(glob, patterns))
  {
    var walker := new FileWalker(IgnoredBy(glob, patterns), options);
    walker.Walk(root, ".", []);
    files := walker.files;
    forall path ensures path in files <==>
                        StandsWanted(root, ".", IgnoredBy(glob, patterns), options, path)
                          && !IgnoredBy(glob, patterns)(path)
    {
      ListedIff(root, ".", [], options, IgnoredBy(glob, patterns), path);
    }
    if forall p :: p in patterns ==> PlainPattern(p) {
      PruningIsFiltering(root, glob, patterns, options);
    }
  }

  // --- with a glob the two differ ---

  /**
   A glob that matches the name of a directory but neither the name nor the path
   of a file in it hides that file from the walk, though no filter would drop it.
   */
  lemma GlobPruningIsNotFiltering(glob: Glob, pattern: string, dir: string, file: Entry, options: Options)
    requires IsName(dir) && file.File? && IsName(file.name) && Accepted(file, options)
    requires HasMeta(pattern) && !("/" <= pattern) && file.name != pattern
    requires glob(pattern, dir) && !glob(pattern, file.name) && !glob(pattern, dir + "/" + file.name)
    ensures var found := AllFiles(Dir("", [Dir(dir, [file], true)], true), ".", [], options);
            && KeepReached(found, IgnoredBy(glob, [pattern])) == []
            && KeepUnmatched(found, IgnoredBy(glob, [pattern])) == [dir + "/" + file.name]
  {
    var inner := Dir(dir, [file], true);
    var root := Dir("", [inner], true);
    var path := dir + "/" + file.name;
    var f := Found(path, [".", dir], true);
    assert AllFiles(root, ".", [], options) == [f] by {
      assert inner.entries[0] == file && root.entries[0] == inner;
      assert AllFiles(file, path, [".", dir], options) == [f];
      assert AllFilesIn(inner, 0, dir, [".", dir], options) == [];
      assert AllFilesIn(inner, 1, dir, [".", dir], options) == [] + [f];
      assert [] + ["."] == ["."] && ["."] + [dir] == [".", dir];
      assert AllFilesIn(root, 1, ".", ["."], options) == [f];
    }
    GlobHidesDirectoryOnly(glob, pattern, dir, file.name);
    assert [f][..0] == [];
    assert f.above[1] == dir;
  }

  lemma GlobHidesDirectoryOnly(glob: Glob, pattern: string, dir: string, name: string)
    requires IsName(dir) && IsName(name)
    requires HasMeta(pattern) && !("/" <= pattern) && name != pattern
    requires glob(pattern, dir) && !glob(pattern, name) && !glob(pattern, dir + "/" + name)
    ensures IgnoredBy(glob, [pattern])(dir) && !IgnoredBy(glob, [pattern])(dir + "/" + name)
  {
    var path := dir + "/" + name;
    TrimDotSlashNone(dir);
    TrimDotSlashNone(path);
    assert MatchesPattern(glob, dir, [pattern][0]);
    assert !MatchesPattern(glob, path, pattern) by {
      BaseBelow(dir, name);
      assert path == dir + ['/'] + name;
      SplitAppend(dir, '/', name);
      WholeIsOneSegment(dir);
      WholeIsOneSegment(name);
      var segments := [dir, name];
      assert Split(path, '/') == segments;
      assert segments[0..] == segments && segments[1..] == [name];
      assert Join(segments, "/") == path && Join([name], "/") == name;
    }
  }

  lemma TrimDotSlashNone(path: string)
    requires path != "" && (IsName(path) || exists dir, name :: IsName(dir) && path == dir + "/" + name)
    ensures TrimPrefix(path, "./") == path && path != "."
  {
    PrefixCharacters("./", path, '/');
    if !IsName(path) {
      var dir, name :| IsName(dir) && path == dir + "/" + name;
      assert path[0] == dir[0];
      assert |dir| > 1 ==> path[1] == dir[1];
      assert |dir| == 1 ==> dir == [dir[0]];
      assert "./"[0] == '.' && "./"[1] == '/';
    }
  }

  lemma WholeIsOneSegment(name: string)
    requires '/' !in name
    ensures Split(name, '/') == [name]
  {
    assert IndexOf(name, '/') == |name|;
  }

  lemma BaseBelow(dir: string, name: string)
    requires IsName(name)
    ensures Base(dir + "/" + name) == name
  {
    var path := dir + "/" + name;
    assert path[|path| - 1] == name[|name| - 1] != '/';
    AfterLastSlashOf(dir, name);
  }

  lemma {:induction false} AfterLastSlashOf(dir: string, name: string)
    requires '/' !in name
    ensures AfterLastSlash(dir + "/" + name) == name
  {
    var path := dir + "/" + name;
    if name != "" {
      assert path[..|path| - 1] == dir + "/" + name[..|name| - 1];
      AfterLastSlashOf(dir, name[..|name| - 1]);
    }
  }
}
