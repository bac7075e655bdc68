/** The tree a collector makes: whatever it writes, claims and expires, every file of its own lies where it looks. */
module CollectorTrees {
  import opened Bytes
  import opened Calendar
  import opened Layouts
  import opened OutputTrees
  import opened Expiring
  import opened SweptTrees
  import opened Naming

  // Creating a file, with the directories it lacks

  function NewFile(rest: Path): Entry
    requires rest != []
  {
    Entry(rest[0], if |rest| == 1 then File else Dir([NewFile(rest[1..])]))
  }

  /** A file there already stays; a file where a directory should be stops the creation. */
  function Put(entries: seq<Entry>, rest: Path): seq<Entry>
    requires rest != []
    decreases |rest|, entries
  {
    if entries == [] then [NewFile(rest)]
    else if entries[0].name != rest[0] then [entries[0]] + Put(entries[1..], rest)
    else if |rest| > 1 && entries[0].node.Dir? then
      [Entry(rest[0], Dir(Put(entries[0].node.entries, rest[1..])))] + entries[1..]
    else entries
  }

  lemma {:induction false} NewFileOwn(l: Layout, rest: Path, dir: Path, f: Found)
    requires rest != [] && f in Own(l, [NewFile(rest)], dir)
    ensures f.path == dir + rest
  {
    hide Name;
    var entry := NewFile(rest);
    assert [entry][1..] == [];
    if |rest| == 1 {
      assert rest == [rest[0]];
    } else {
      NewFileOwn(l, rest[1..], dir + [rest[0]], f);
      assert dir + [rest[0]] + rest[1..] == dir + rest;
    }
  }

  /** Only the file put there can be new. */
  lemma {:induction false} PutOwn(l: Layout, entries: seq<Entry>, rest: Path, dir: Path, f: Found)
    requires rest != [] && f in Own(l, Put(entries, rest), dir)
    ensures f in Own(l, entries, dir) || f.path == dir + rest
    decreases |rest|, entries
  {
    hide EntryOwn;
    if entries == [] {
      NewFileOwn(l, rest, dir, f);
    } else if entries[0].name != rest[0] {
      if f in Own(l, Put(entries[1..], rest), dir) {
        PutOwn(l, entries[1..], rest, dir, f);
      } else {
        assert Put(entries, rest)[1..] == Put(entries[1..], rest);
      }
    } else if |rest| > 1 && entries[0].node.Dir? {
      var entry := Entry(rest[0], Dir(Put(entries[0].node.entries, rest[1..])));
      assert Put(entries, rest)[1..] == entries[1..];
      if f in EntryOwn(l, entry, dir) {
        PutIntoOwn(l, entries[0], rest, dir, f);
      }
    }
  }

  lemma {:induction false} PutIntoOwn(l: Layout, entry: Entry, rest: Path, dir: Path, f: Found)
    requires |rest| > 1 && entry.node.Dir? && entry.name == rest[0]
    requires f in EntryOwn(l, Entry(rest[0], Dir(Put(entry.node.entries, rest[1..]))), dir)
    ensures f in EntryOwn(l, entry, dir) || f.path == dir + rest
    decreases |rest|, entry
  {
    PutOwn(l, entry.node.entries, rest[1..], dir + [rest[0]], f);
    assert dir + [rest[0]] + rest[1..] == dir + rest;
  }

  lemma {:induction false} WithoutOwn(l: Layout, entries: seq<Entry>, dir: Path, gone: set<Path>, f: Found)
    requires f in Own(l, Without(entries, dir, gone), dir)
    ensures f in Own(l, entries, dir)
    decreases entries
  {
    hide Name;
    if entries != [] {
      var once := EntryWithout(entries[0], dir, gone);
      OwnConcat(l, once, Without(entries[1..], dir, gone), dir);
      if f in Own(l, once, dir) {
        assert once[1..] == [];
        if entries[0].node.Dir? {
          WithoutOwn(l, entries[0].node.entries, dir + [entries[0].name], gone, f);
        }
      } else {
        WithoutOwn(l, entries[1..], dir, gone, f);
      }
    }
  }

  // What happens to the tree

  /** The collector, at whatever level it runs, opens a window's file under its temporary name, or tries to give it its
      n-th final name; it removes what has grown too old; someone else puts a file not named like the collector's. */
  datatype Change =
    | Open(level: nat, window: int, pid: nat)
    | Claim(level: nat, window: int, pid: nat, n: nat)
    | Sweep(now: int, maxAge: nat)
    | Foreign(path: Path)

  /** Another name in the directory of a window's file. */
  function WithFileName(l: Layout, window: int, name: string): Path {
    var path := PathFor(l, window);
    path[..|path| - 1] + [name]
  }

  predicate ChangeOk(l: Layout, c: Change) {
    match c
    case Open(level, _, _) => level <= 3
    case Claim(level, _, _, _) => level <= 3
    case Sweep(_, _) => true
    case Foreign(path) => path != [] && Name(l, path[|path| - 1]) == None
  }

  function TempPath(l: Layout, level: nat, window: int, pid: nat): Path {
    WithFileName(l.(level := level), window, TempName(FileName(l.(level := level), window), pid))
  }

  function FinalPath(l: Layout, level: nat, window: int, n: nat): Path {
    WithFileName(l.(level := level), window, Candidate(FileName(l.(level := level), window), n))
  }

  predicate HasFile(root: seq<Entry>, path: Path) {
    Leaf(path, false) in Leaves(root, [])
  }

  /** Anything of that path, a directory included. */
  predicate Exists(entries: seq<Entry>, path: Path)
    requires path != []
    decreases entries
  {
    entries != [] && (EntryExists(entries[0], path) || Exists(entries[1..], path))
  }

  predicate EntryExists(entry: Entry, path: Path)
    requires path != []
    decreases entry
  {
    entry.name == path[0] && (|path| == 1 || (entry.node.Dir? && Exists(entry.node.entries, path[1..])))
  }

  /** A claim needs its temporary file, and a name that is free. */
  function Changed(l: Layout, root: seq<Entry>, c: Change): seq<Entry>
    requires ChangeOk(l, c)
  {
    match c
    case Open(level, window, pid) => Put(root, TempPath(l, level, window, pid))
    case Claim(level, window, pid, n) =>
      var temp, final := TempPath(l, level, window, pid), FinalPath(l, level, window, n);
      if HasFile(root, temp) && !Exists(root, final) then Without(Put(root, final), [], {temp}) else root
    case Sweep(now, maxAge) => Swept(l, root, now - maxAge)
    case Foreign(path) => Put(root, path)
  }

  function TreeAfter(l: Layout, changes: seq<Change>): seq<Entry>
    requires forall i :: 0 <= i < |changes| ==> ChangeOk(l, changes[i])
  {
    if changes == [] then []
    else Changed(l, TreeAfter(l, changes[..|changes| - 1]), changes[|changes| - 1])
  }

  /** A file of the collector's under any of its names lies where its window belongs. */
  lemma NamedIsFiled(l: Layout, level: nat, window: int, name: string, f: Found)
    requires level <= 3 && Described(l, f)
    requires f.path == WithFileName(l.(level := level), window, name)
    requires Name(l, name) == Some(OwnName(window, f.temporary)) || Name(l, name) == None
    ensures IsFiled(l, f)
  {
    hide Name, DirNames, At;
    assert PathFor(l.(level := level), window) == DirNames(l.partitioning, level, At(window))
      + [FileName(l.(level := level), window)];
    assert f.path[|f.path| - 1] == name;
    assert f.path[..|f.path| - 1] == DirNames(l.partitioning, level, At(window));
    assert FiledAt(l, f, level);
  }

  lemma FileNameOfAnyLevel(l: Layout, level: nat, window: int)
    ensures FileName(l.(level := level), window) == FileName(l, window)
  {
  }

  /** Putting a file keeps the tree filed, if a file of that path would be. */
  lemma PutFiled(l: Layout, root: seq<Entry>, path: Path)
    requires path != [] && AllFiled(l, Own(l, root, []))
    requires forall f: Found :: f.path == path && Described(l, f) ==> IsFiled(l, f)
    ensures AllFiled(l, Own(l, Put(root, path), []))
  {
    hide Own, IsFiled, Described, Put;
    var own := Own(l, Put(root, path), []);
    forall i | 0 <= i < |own|
      ensures IsFiled(l, own[i])
    {
      OwnDescribed(l, Put(root, path), [], i);
      PutOwn(l, root, path, [], own[i]);
      assert [] + path == path;
      if own[i] in Own(l, root, []) {
        var j :| 0 <= j < |Own(l, root, [])| && Own(l, root, [])[j] == own[i];
      }
    }
  }

  lemma RemovedFiled(l: Layout, root: seq<Entry>, gone: set<Path>)
    requires AllFiled(l, Own(l, root, []))
    ensures AllFiled(l, Own(l, Without(root, [], gone), []))
  {
    hide Own, IsFiled, Without;
    var own := Own(l, Without(root, [], gone), []);
    forall i | 0 <= i < |own|
      ensures IsFiled(l, own[i])
    {
      WithoutOwn(l, root, [], gone, own[i]);
      var j :| 0 <= j < |Own(l, root, [])| && Own(l, root, [])[j] == own[i];
    }
  }

  lemma ChangeFiled(l: Layout, root: seq<Entry>, c: Change)
    requires ExtensionOk(l.extension) && ChangeOk(l, c) && AllFiled(l, Own(l, root, []))
    ensures AllFiled(l, Own(l, Changed(l, root, c), []))
  {
    hide Own, IsFiled, AllFiled, Name, Put, Without, Pruned, WithFileName, HasFile, Exists, FileName, TempName, Candidate, YearFits;
    match c {
      case Open(level, window, pid) =>
        FileNameOfAnyLevel(l, level, window);
        TempReadsBack(l, window, pid);
        NamesFiled(l, level, window, TempName(FileName(l, window), pid), true);
        PutFiled(l, root, TempPath(l, level, window, pid));
      case Claim(level, window, pid, n) =>
        FileNameOfAnyLevel(l, level, window);
        CandidateReadsBack(l, window, n);
        NamesFiled(l, level, window, Candidate(FileName(l, window), n), false);
        var path := FinalPath(l, level, window, n);
        PutFiled(l, root, path);
        RemovedFiled(l, Put(root, path), {TempPath(l, level, window, pid)});
      case Sweep(now, maxAge) =>
        var cutoff := now - maxAge;
        var gone := PathsOf(Expired(l, root, cutoff));
        RemovedFiled(l, root, gone);
        OwnPruned(l, Without(root, [], gone), [], Visited(l, root, cutoff));
      case Foreign(path) =>
        PutFiled(l, root, path);
    }
  }

  lemma NamesFiled(l: Layout, level: nat, window: int, name: string, temporary: bool)
    requires level <= 3
    requires Name(l, name) == Some(OwnName(window, temporary)) || Name(l, name) == None
    ensures var path := WithFileName(l.(level := level), window, name);
            path != [] && forall f: Found :: f.path == path && Described(l, f) ==> IsFiled(l, f)
  {
    hide Name, IsFiled, PathFor;
    var path := WithFileName(l.(level := level), window, name);
    forall f: Found | f.path == path && Described(l, f)
      ensures IsFiled(l, f)
    {
      assert path[|path| - 1] == name;
      NamedIsFiled(l, level, window, name, f);
    }
  }

  /** The tree is filed after any run of writes, claims, sweeps and files of others, so walks of it lose nothing and sweeps
      of it take just what has expired. */
  lemma {:induction false} TreeIsFiled(l: Layout, changes: seq<Change>, range: Range, cutoff: int)
    requires ExtensionOk(l.extension) && forall i :: 0 <= i < |changes| ==> ChangeOk(l, changes[i])
    ensures var root := TreeAfter(l, changes);
            && AllFiled(l, Own(l, root, []))
            && FilesIn(Visits(l, root, [], range), range) == Filter(Own(l, root, []), range)
            && Own(l, Swept(l, root, cutoff), []) == Filter(Own(l, root, []), From(cutoff))
  {
    hide Own, AllFiled, Visits, FilesIn, Swept, Filter, Changed;
    if changes == [] {
      NothingFiled(l);
    } else {
      TreeIsFiled(l, changes[..|changes| - 1], range, cutoff);
      ChangeFiled(l, TreeAfter(l, changes[..|changes| - 1]), changes[|changes| - 1]);
    }
    var root := TreeAfter(l, changes);
    WalkFindsOwn(l, root, [], range);
    FiledSweep(l, root, cutoff);
  }

  lemma NothingFiled(l: Layout)
    ensures AllFiled(l, Own(l, [], []))
  {
  }
}
