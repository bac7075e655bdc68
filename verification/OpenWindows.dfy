/** Files of a window still open, and the sweeps that leave them alone. */
module OpenWindows {
  import opened Bytes
  import opened Calendar
  import opened Layouts
  import opened OutputTrees
  import opened Expiring
  import opened SweptTrees
  import opened Naming
  import opened CollectorTrees

  // What keeps a file where it is

  lemma {:induction false} PutKeeps(entries: seq<Entry>, rest: Path, dir: Path, leaf: Leaf)
    requires rest != [] && leaf in Leaves(entries, dir)
    ensures leaf in Leaves(Put(entries, rest), dir)
    decreases |rest|, entries
  {
    if entries[0].name != rest[0] {
      assert Put(entries, rest)[1..] == Put(entries[1..], rest);
      if leaf in Leaves(entries[1..], dir) {
        PutKeeps(entries[1..], rest, dir, leaf);
      }
    } else if |rest| > 1 && entries[0].node.Dir? {
      assert Put(entries, rest)[1..] == entries[1..];
      if leaf in EntryLeaves(entries[0], dir) {
        PutKeeps(entries[0].node.entries, rest[1..], dir + [entries[0].name], leaf);
      }
    }
  }

  lemma {:induction false} KeptIs(leaves: seq<Leaf>, gone: set<Path>, leaf: Leaf)
    ensures leaf in Kept(leaves, gone) <==> leaf in leaves && (leaf.special || leaf.path !in gone)
  {
    if leaves != [] {
      KeptIs(leaves[1..], gone, leaf);
    }
  }

  /** A file named like the collector's own is one. */
  lemma {:induction false} LeafIsOwn(l: Layout, entries: seq<Entry>, dir: Path, path: Path)
    requires Leaf(path, false) in Leaves(entries, dir)
    ensures path != []
    ensures var own := Name(l, path[|path| - 1]);
            own.Some? ==> Found(path, own.value.window, own.value.temporary) in Own(l, entries, dir)
    decreases entries
  {
    hide Name;
    if Leaf(path, false) !in EntryLeaves(entries[0], dir) {
      LeafIsOwn(l, entries[1..], dir, path);
    } else if entries[0].node.Dir? {
      LeafIsOwn(l, entries[0].node.entries, dir + [entries[0].name], path);
    }
  }

  lemma {:induction false} FilterIs(fs: seq<Found>, range: Range, f: Found)
    ensures f in Filter(fs, range) <==> f in fs && range.Contains(f.window)
  {
    if fs != [] {
      FilterIs(fs[1..], range, f);
    }
  }

  // Sweeps of a filed tree

  /** If the path reads as the name of a file of the collector's, it is one of this window. */
  ghost predicate NamedFor(l: Layout, path: Path, window: int) {
    path != [] && (var own := Name(l, path[|path| - 1]); own.Some? ==> own.value.window == window)
  }

  /** A sweep takes a file of a window, so named, exactly when the window started before the cutoff. */
  lemma SweepTakes(l: Layout, root: seq<Entry>, cutoff: int, path: Path, window: int)
    requires AllFiled(l, Own(l, root, [])) && HasFile(root, path) && NamedFor(l, path, window)
    ensures HasFile(Swept(l, root, cutoff), path) <==> Name(l, path[|path| - 1]).None? || cutoff <= window
  {
    hide Name, Own, Swept, Leaves, AllFiled, Kept, Filter;
    var expired := Expired(l, root, cutoff);
    var own := Name(l, path[|path| - 1]);
    OnlyExpiredGo(l, root, cutoff);
    KeptIs(Leaves(root, []), PathsOf(expired), Leaf(path, false));
    FiledSweep(l, root, cutoff);
    if own.Some? {
      var f := Found(path, window, own.value.temporary);
      LeafIsOwn(l, root, [], path);
      FilterIs(Own(l, root, []), Before(cutoff), f);
      if cutoff > window {
        var i :| 0 <= i < |expired| && expired[i] == f;
        assert expired[i].path == path;
      }
    }
    if path in PathsOf(expired) {
      var i :| 0 <= i < |expired| && expired[i].path == path;
      FilterIs(Own(l, root, []), Before(cutoff), expired[i]);
      var j :| 0 <= j < |Own(l, root, [])| && Own(l, root, [])[j] == expired[i];
      OwnDescribed(l, root, [], j);
    }
  }

  // While a window is open

  /** Files are kept for an interval at least, and no sweep comes later than the window's end; nobody else takes the
      file's temporary name away. */
  predicate Harmless(l: Layout, c: Change, path: Path, window: int, interval: nat) {
    match c
    case Sweep(now, maxAge) => interval <= maxAge && now <= window + interval
    case Claim(level, w, pid, _) => TempPath(l, level, w, pid) != path
    case _ => true
  }

  lemma ChangeKeeps(l: Layout, root: seq<Entry>, c: Change, path: Path, window: int, interval: nat)
    requires ChangeOk(l, c) && AllFiled(l, Own(l, root, []))
    requires HasFile(root, path) && NamedFor(l, path, window) && Harmless(l, c, path, window, interval)
    ensures HasFile(Changed(l, root, c), path)
  {
    hide Name, Own, Swept, Leaves, AllFiled, Put, Without, TempPath, FinalPath, Kept, NamedFor, Exists;
    match c {
      case Open(level, w, pid) =>
        TempNotEmpty(l, level, w, pid);
        PutKeeps(root, TempPath(l, level, w, pid), [], Leaf(path, false));
      case Claim(level, w, pid, n) =>
        TempNotEmpty(l, level, w, n);
        var final, gone := FinalPath(l, level, w, n), {TempPath(l, level, w, pid)};
        PutKeeps(root, final, [], Leaf(path, false));
        LeavesWithout(Put(root, final), [], gone);
        KeptIs(Leaves(Put(root, final), []), gone, Leaf(path, false));
      case Sweep(now, maxAge) =>
        SweepTakes(l, root, now - maxAge, path, window);
      case Foreign(other) =>
        PutKeeps(root, other, [], Leaf(path, false));
    }
  }

  lemma TempNotEmpty(l: Layout, level: nat, window: int, n: nat)
    ensures TempPath(l, level, window, n) != [] && FinalPath(l, level, window, n) != []
  {
  }

  /** Kept for at least the interval, a file of a window is there until the window ends, whatever else goes on, so it can
      be given its final name. */
  lemma {:induction false} WindowKept(
    l: Layout, changes: seq<Change>, since: nat, path: Path, window: int, interval: nat)
    requires ExtensionOk(l.extension) && forall i :: 0 <= i < |changes| ==> ChangeOk(l, changes[i])
    requires since <= |changes| && HasFile(TreeAfter(l, changes[..since]), path) && NamedFor(l, path, window)
    requires forall i :: since <= i < |changes| ==> Harmless(l, changes[i], path, window, interval)
    ensures HasFile(TreeAfter(l, changes), path)
    decreases |changes|
  {
    hide HasFile, Changed, Harmless, NamedFor;
    if since == |changes| {
      assert changes[..since] == changes;
    } else {
      var before := changes[..|changes| - 1];
      assert before[..since] == changes[..since];
      WindowKept(l, before, since, path, window, interval);
      TreeIsFiled(l, before, Before(0), 0);
      ChangeKeeps(l, TreeAfter(l, before), changes[|changes| - 1], path, window, interval);
    }
  }

  lemma TempNamedFor(l: Layout, level: nat, window: int, pid: nat, n: nat)
    requires ExtensionOk(l.extension)
    ensures NamedFor(l, TempPath(l, level, window, pid), window) && NamedFor(l, FinalPath(l, level, window, n), window)
    ensures YearFits(window) ==> Name(l, TempName(FileName(l, window), pid)).Some?
    ensures TempPath(l, level, window, pid)[|TempPath(l, level, window, pid)| - 1] == TempName(FileName(l, window), pid)
  {
    hide Name, FileName, TempName, Candidate, YearFits;
    FileNameOfAnyLevel(l, level, window);
    TempReadsBack(l, window, pid);
    CandidateReadsBack(l, window, n);
  }

  // Just after it

  /** A second after its end a sweep can take the window's file, kept for just the interval, before it has its final name;
      then no claim brings it back. */
  lemma WindowLost(l: Layout, level: nat, window: int, pid: nat, interval: nat, n: nat)
    requires ExtensionOk(l.extension) && level <= 3 && YearFits(window)
    ensures var path, started := TempPath(l, level, window, pid), Changed(l, [], Open(level, window, pid));
            var swept := Changed(l, started, Sweep(window + interval + 1, interval));
            && HasFile(started, path) && !HasFile(swept, path)
            && Changed(l, swept, Claim(level, window, pid, n)) == swept
  {
    hide Name, Own, Swept, Leaves, AllFiled, Put, Without, TempPath, FinalPath, NamedFor, Exists, YearFits, TempName,
      FileName, HasFile;
    var path := TempPath(l, level, window, pid);
    TempNotEmpty(l, level, window, pid);
    OpenedAlone(path);
    TempNamedFor(l, level, window, pid, n);
    NothingFiled(l);
    ChangeFiled(l, [], Open(level, window, pid));
    SweepTakes(l, Put([], path), window + 1, path, window);
  }

  lemma OpenedAlone(path: Path)
    requires path != []
    ensures HasFile(Put([], path), path)
  {
    NewFileThere(path, []);
    assert [] + path == path;
  }

  lemma {:induction false} NewFileThere(rest: Path, dir: Path)
    requires rest != []
    ensures Leaf(dir + rest, false) in Leaves([NewFile(rest)], dir)
    decreases |rest|
  {
    var entry := NewFile(rest);
    assert [entry][1..] == [];
    if |rest| == 1 {
      assert rest == [rest[0]];
    } else {
      NewFileThere(rest[1..], dir + [rest[0]]);
      assert dir + [rest[0]] + rest[1..] == dir + rest;
    }
  }
}
