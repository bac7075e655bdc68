/** Expiry sweeps: which files and directories go, and which stay. */
module Expiring {
  import opened Bytes
  import opened Calendar
  import opened Layouts
  import opened OutputTrees
  import opened Sequences

  // Removing files

  function Without(entries: seq<Entry>, dir: Path, gone: set<Path>): seq<Entry>
    decreases entries
  {
    if entries == [] then [] else EntryWithout(entries[0], dir, gone) + Without(entries[1..], dir, gone)
  }

  function EntryWithout(entry: Entry, dir: Path, gone: set<Path>): seq<Entry>
    decreases entry
  {
    var path := dir + [entry.name];
    match entry.node
    case File => if path in gone then [] else [entry]
    case Special => [entry]
    case Dir(children) => [Entry(entry.name, Dir(Without(children, path, gone)))]
  }

  // Removing directories, when empty

  function Pruned(entries: seq<Entry>, dir: Path, gone: set<Path>): seq<Entry>
    decreases entries
  {
    if entries == [] then [] else EntryPruned(entries[0], dir, gone) + Pruned(entries[1..], dir, gone)
  }

  function EntryPruned(entry: Entry, dir: Path, gone: set<Path>): seq<Entry>
    decreases entry
  {
    var path := dir + [entry.name];
    match entry.node
    case Dir(children) =>
      var kept := Pruned(children, path, gone);
      if path in gone && kept == [] then [] else [Entry(entry.name, Dir(kept))]
    case _ => [entry]
  }

  /** A file system without faults. */
  class Disk {
    var root: seq<Entry>

    constructor (root: seq<Entry>)
      ensures this.root == root
    {
      this.root := root;
    }

    /** A file already missing counts as removed. */
    method RemoveFile(path: Path)
      modifies this
      ensures root == Without(old(root), [], {path})
    {
      root := Without(root, [], {path});
    }

    /** A directory that is not empty stays. */
    method RemoveDir(path: Path)
      modifies this
      ensures root == Pruned(old(root), [], {path})
    {
      root := Pruned(root, [], {path});
    }
  }

  // Removals one after another

  lemma {:induction false} WithoutConcat(a: seq<Entry>, b: seq<Entry>, dir: Path, gone: set<Path>)
    ensures Without(a + b, dir, gone) == Without(a, dir, gone) + Without(b, dir, gone)
  {
    hide EntryWithout;
    if a == [] {
      assert a + b == b;
    } else {
      WithoutConcat(a[1..], b, dir, gone);
      assert (a + b)[1..] == a[1..] + b;
      Regroup(EntryWithout(a[0], dir, gone), Without(a[1..], dir, gone), Without(b, dir, gone));
    }
  }

  lemma {:induction false} PrunedConcat(a: seq<Entry>, b: seq<Entry>, dir: Path, gone: set<Path>)
    ensures Pruned(a + b, dir, gone) == Pruned(a, dir, gone) + Pruned(b, dir, gone)
  {
    hide EntryPruned;
    if a == [] {
      assert a + b == b;
    } else {
      PrunedConcat(a[1..], b, dir, gone);
      assert (a + b)[1..] == a[1..] + b;
      Regroup(EntryPruned(a[0], dir, gone), Pruned(a[1..], dir, gone), Pruned(b, dir, gone));
    }
  }

  lemma {:induction false} WithoutTwice(entries: seq<Entry>, dir: Path, gone: set<Path>, more: set<Path>)
    ensures Without(Without(entries, dir, gone), dir, more) == Without(entries, dir, gone + more)
    decreases entries
  {
    hide EntryWithout;
    if entries != [] {
      EntryWithoutTwice(entries[0], dir, gone, more);
      WithoutTwice(entries[1..], dir, gone, more);
      WithoutConcat(EntryWithout(entries[0], dir, gone), Without(entries[1..], dir, gone), dir, more);
    }
  }

  lemma {:induction false} EntryWithoutTwice(entry: Entry, dir: Path, gone: set<Path>, more: set<Path>)
    ensures Without(EntryWithout(entry, dir, gone), dir, more) == EntryWithout(entry, dir, gone + more)
    decreases entry
  {
    var path, once := dir + [entry.name], EntryWithout(entry, dir, gone);
    if once != [] {
      assert once[1..] == [];
    }
    if entry.node.Dir? {
      WithoutTwice(entry.node.entries, path, gone, more);
    }
  }

  /** The set names nothing below the directory. */
  predicate Elsewhere(gone: set<Path>, dir: Path) {
    forall p :: p in gone ==> !(dir < p)
  }

  lemma {:induction false} WithoutElsewhere(entries: seq<Entry>, dir: Path, gone: set<Path>)
    requires Elsewhere(gone, dir)
    ensures Without(entries, dir, gone) == entries
    decreases entries
  {
    if entries != [] {
      var entry := entries[0];
      if entry.node.Dir? {
        WithoutElsewhere(entry.node.entries, dir + [entry.name], gone);
      }
      WithoutElsewhere(entries[1..], dir, gone);
      assert entries == [entry] + entries[1..];
    }
  }

  lemma {:induction false} PrunedElsewhere(entries: seq<Entry>, dir: Path, gone: set<Path>)
    requires Elsewhere(gone, dir)
    ensures Pruned(entries, dir, gone) == entries
    decreases entries
  {
    if entries != [] {
      var entry := entries[0];
      if entry.node.Dir? {
        PrunedElsewhere(entry.node.entries, dir + [entry.name], gone);
      }
      PrunedElsewhere(entries[1..], dir, gone);
      assert entries == [entry] + entries[1..];
    }
  }

  /** No directory of the set holds the path. */
  predicate HoldsNot(gone: set<Path>, p: Path) {
    forall d :: d in gone ==> !(d < p)
  }

  lemma {:induction false} PrunedNext(entries: seq<Entry>, dir: Path, gone: set<Path>, p: Path)
    requires HoldsNot(gone, p)
    ensures Pruned(Pruned(entries, dir, gone), dir, {p}) == Pruned(entries, dir, gone + {p})
    decreases entries
  {
    hide EntryPruned;
    if entries != [] {
      EntryPrunedNext(entries[0], dir, gone, p);
      PrunedNext(entries[1..], dir, gone, p);
      PrunedConcat(EntryPruned(entries[0], dir, gone), Pruned(entries[1..], dir, gone), dir, {p});
    }
  }

  lemma {:induction false} EntryPrunedNext(entry: Entry, dir: Path, gone: set<Path>, p: Path)
    requires HoldsNot(gone, p)
    ensures Pruned(EntryPruned(entry, dir, gone), dir, {p}) == EntryPruned(entry, dir, gone + {p})
    decreases entry
  {
    var path, once := dir + [entry.name], EntryPruned(entry, dir, gone);
    if once != [] {
      assert once[1..] == [];
    }
    if entry.node.Dir? {
      PrunedNext(entry.node.entries, path, gone, p);
      if !(path < p) {
        PrunedElsewhere(Pruned(entry.node.entries, path, gone), path, {p});
      }
    }
  }

  // The order of directories

  /** No directory holds two entries of one name. */
  ghost predicate WellNamed(entries: seq<Entry>) {
    && (forall i, j :: 0 <= i < j < |entries| ==> entries[i].name != entries[j].name)
    && forall i :: 0 <= i < |entries| && entries[i].node.Dir? ==> WellNamed(entries[i].node.entries)
  }

  /** No directory comes before one inside it. */
  ghost predicate ChildrenFirst(ds: seq<Path>) {
    forall i, j :: 0 <= i < j < |ds| ==> !(ds[i] < ds[j])
  }

  ghost predicate AllBelow(ds: seq<Path>, dir: Path) {
    forall i :: 0 <= i < |ds| ==> dir < ds[i]
  }

  lemma {:induction false} DirsBelow(l: Layout, entries: seq<Entry>, dir: Path, range: Range)
    ensures AllBelow(DirsIn(Visits(l, entries, dir, range)), dir)
    decreases entries
  {
    hide EntryVisits;
    if entries != [] {
      EntryDirsBelow(l, entries[0], dir, range);
      DirsBelow(l, entries[1..], dir, range);
      DirsInConcat(EntryVisits(l, entries[0], dir, range), Visits(l, entries[1..], dir, range));
    }
  }

  lemma {:induction false} EntryDirsBelow(l: Layout, entry: Entry, dir: Path, range: Range)
    ensures forall i :: 0 <= i < |DirsIn(EntryVisits(l, entry, dir, range))| ==>
      dir + [entry.name] <= DirsIn(EntryVisits(l, entry, dir, range))[i]
    decreases entry
  {
    hide IsVisited, Name;
    var path := dir + [entry.name];
    if entry.node.Dir? {
      DirsBelow(l, entry.node.entries, path, range);
      DirsInConcat(Visits(l, entry.node.entries, path, range), [LeaveDir(path)]);
    }
  }

  /** Children are listed before their parents. */
  lemma {:induction false} DirsOrdered(l: Layout, entries: seq<Entry>, dir: Path, range: Range)
    requires WellNamed(entries)
    ensures ChildrenFirst(DirsIn(Visits(l, entries, dir, range)))
    decreases entries
  {
    hide EntryVisits;
    if entries != [] {
      var ds, es := DirsIn(EntryVisits(l, entries[0], dir, range)), DirsIn(Visits(l, entries[1..], dir, range));
      EntryDirsOrdered(l, entries[0], dir, range);
      DirsOrdered(l, entries[1..], dir, range);
      DirsInConcat(EntryVisits(l, entries[0], dir, range), Visits(l, entries[1..], dir, range));
      EntryDirsBelow(l, entries[0], dir, range);
      forall i, j | 0 <= i < |ds| && 0 <= j < |es|
        ensures !(ds[i] < es[j])
      {
        var k := UnderWhich(l, entries[1..], dir, range, j);
        assert entries[1..][k].name != entries[0].name;
        assert ds[i][|dir|] == entries[0].name && es[j][|dir|] == entries[1..][k].name;
      }
    }
  }

  lemma {:induction false} EntryDirsOrdered(l: Layout, entry: Entry, dir: Path, range: Range)
    requires entry.node.Dir? ==> WellNamed(entry.node.entries)
    ensures ChildrenFirst(DirsIn(EntryVisits(l, entry, dir, range)))
    decreases entry
  {
    hide IsVisited, Name;
    var path := dir + [entry.name];
    if entry.node.Dir? {
      DirsOrdered(l, entry.node.entries, path, range);
      DirsBelow(l, entry.node.entries, path, range);
      DirsInConcat(Visits(l, entry.node.entries, path, range), [LeaveDir(path)]);
    }
  }

  lemma {:induction false} UnderWhich(l: Layout, entries: seq<Entry>, dir: Path, range: Range, j: nat) returns (k: nat)
    requires j < |DirsIn(Visits(l, entries, dir, range))|
    ensures k < |entries| && dir + [entries[k].name] <= DirsIn(Visits(l, entries, dir, range))[j]
    decreases entries
  {
    hide EntryVisits;
    var n := |DirsIn(EntryVisits(l, entries[0], dir, range))|;
    DirsInConcat(EntryVisits(l, entries[0], dir, range), Visits(l, entries[1..], dir, range));
    if j < n {
      EntryDirsBelow(l, entries[0], dir, range);
      k := 0;
    } else {
      k := UnderWhich(l, entries[1..], dir, range, j - n);
      assert entries[1..][k] == entries[k + 1];
      k := k + 1;
    }
  }

  /** Removing files changes no directory of a walk. */
  lemma {:induction false} DirsUnchanged(l: Layout, entries: seq<Entry>, dir: Path, range: Range, gone: set<Path>)
    ensures DirsIn(Visits(l, Without(entries, dir, gone), dir, range)) == DirsIn(Visits(l, entries, dir, range))
    decreases entries
  {
    hide EntryVisits, EntryWithout;
    if entries != [] {
      EntryDirsUnchanged(l, entries[0], dir, range, gone);
      DirsUnchanged(l, entries[1..], dir, range, gone);
      VisitsConcat(l, EntryWithout(entries[0], dir, gone), Without(entries[1..], dir, gone), dir, range);
      DirsInConcat(
        Visits(l, EntryWithout(entries[0], dir, gone), dir, range),
        Visits(l, Without(entries[1..], dir, gone), dir, range));
      DirsInConcat(EntryVisits(l, entries[0], dir, range), Visits(l, entries[1..], dir, range));
    }
  }

  lemma {:induction false} EntryDirsUnchanged(l: Layout, entry: Entry, dir: Path, range: Range, gone: set<Path>)
    ensures DirsIn(Visits(l, EntryWithout(entry, dir, gone), dir, range)) == DirsIn(EntryVisits(l, entry, dir, range))
    decreases entry
  {
    hide IsVisited, Name;
    var path, once := dir + [entry.name], EntryWithout(entry, dir, gone);
    if once != [] {
      assert once[1..] == [];
      assert Visits(l, once, dir, range) == EntryVisits(l, once[0], dir, range);
    }
    if entry.node.Dir? {
      DirsUnchanged(l, entry.node.entries, path, range, gone);
      DirsInConcat(Visits(l, entry.node.entries, path, range), [LeaveDir(path)]);
      DirsInConcat(Visits(l, Without(entry.node.entries, path, gone), path, range), [LeaveDir(path)]);
    }
  }

  lemma {:induction false} VisitsConcat(l: Layout, a: seq<Entry>, b: seq<Entry>, dir: Path, range: Range)
    ensures Visits(l, a + b, dir, range) == Visits(l, a, dir, range) + Visits(l, b, dir, range)
  {
    hide EntryVisits;
    if a == [] {
      assert a + b == b;
    } else {
      VisitsConcat(l, a[1..], b, dir, range);
      assert (a + b)[1..] == a[1..] + b;
      Regroup(EntryVisits(l, a[0], dir, range), Visits(l, a[1..], dir, range), Visits(l, b, dir, range));
    }
  }

  // The sweep

  function PathsOf(fs: seq<Found>): set<Path> {
    set i | 0 <= i < |fs| :: fs[i].path
  }

  function Expired(l: Layout, root: seq<Entry>, cutoff: int): seq<Found> {
    FilesIn(Visits(l, root, [], Before(cutoff)), Before(cutoff))
  }

  function Members(ds: seq<Path>): set<Path> {
    set d | d in ds
  }

  function Visited(l: Layout, root: seq<Entry>, cutoff: int): set<Path> {
    Members(DirsIn(Visits(l, root, [], Before(cutoff))))
  }

  /** The tree after a sweep. */
  function Swept(l: Layout, root: seq<Entry>, cutoff: int): seq<Entry> {
    Pruned(Without(root, [], PathsOf(Expired(l, root, cutoff))), [], Visited(l, root, cutoff))
  }

  function Complete(fs: seq<Found>): seq<Found> {
    if fs == [] then [] else Complete(fs[..|fs| - 1]) + if fs[|fs| - 1].temporary then [] else [fs[|fs| - 1]]
  }

  /** The complete files among some, each as often. */
  lemma {:induction false} CompleteAre(fs: seq<Found>, f: Found)
    ensures multiset(Complete(fs))[f] == if f.temporary then 0 else multiset(fs)[f]
  {
    if fs != [] {
      var n := |fs| - 1;
      CompleteAre(fs[..n], f);
      assert fs == fs[..n] + [fs[n]];
    }
  }

  /** And in their order. */
  lemma {:induction false} CompleteAt(fs: seq<Found>, i: nat)
    requires i < |fs| && !fs[i].temporary
    ensures var n := |Complete(fs[..i])|; n < |Complete(fs)| && Complete(fs)[n] == fs[i]
  {
    var n := |fs| - 1;
    if i < n {
      CompleteAt(fs[..n], i);
      assert fs[..n][..i] == fs[..i];
    }
  }

  class Expiry {
    const layout: Layout
    const maxAge: nat

    constructor (layout: Layout, maxAge: nat)
      ensures this.layout == layout && this.maxAge == maxAge
    {
      this.layout, this.maxAge := layout, maxAge;
    }

    /** `told` are the files a hook hears of: complete ones. */
    method Run(disk: Disk, now: int) returns (removed: nat, told: seq<Found>)
      requires WellNamed(disk.root)
      modifies disk
      ensures disk.root == Swept(layout, old(disk.root), now - maxAge)
      ensures removed == |Expired(layout, old(disk.root), now - maxAge)|
      ensures told == Complete(Expired(layout, old(disk.root), now - maxAge))
    {
      hide Pruned, Without, Visits, WellNamed, DirsIn, FilesIn;
      var cutoff := now - maxAge;
      ghost var was := disk.root;
      var files := Files(layout, disk.root, Before(cutoff));
      removed, told := 0, [];
      WithoutElsewhere(was, [], {});
      assert PathsOf(files[..0]) == {};
      for i := 0 to |files|
        invariant disk.root == Without(was, [], PathsOf(files[..i]))
        invariant removed == i && told == Complete(files[..i])
      {
        WithoutTwice(was, [], PathsOf(files[..i]), {files[i].path});
        PathsStep(files, i);
        disk.RemoveFile(files[i].path);
        removed := removed + 1;
        assert files[..i + 1][..i] == files[..i];
        if !files[i].temporary {
          told := told + [files[i]];
        }
      }
      assert files[..|files|] == files;
      ghost var left := disk.root;
      var dirs := Dirs(layout, disk.root, Before(cutoff));
      DirsUnchanged(layout, was, [], Before(cutoff), PathsOf(files));
      DirsOrdered(layout, was, [], Before(cutoff));
      PrunedElsewhere(left, [], {});
      assert Members(dirs[..0]) == {};
      for i := 0 to |dirs|
        invariant disk.root == Pruned(left, [], Members(dirs[..i]))
      {
        PrunedNext(left, [], Members(dirs[..i]), dirs[i]);
        assert Members(dirs[..i]) + {dirs[i]} == Members(dirs[..i + 1]);
        disk.RemoveDir(dirs[i]);
      }
      assert dirs[..|dirs|] == dirs;
    }
  }

  lemma PathsStep(fs: seq<Found>, i: nat)
    requires i < |fs|
    ensures PathsOf(fs[..i]) + {fs[i].path} == PathsOf(fs[..i + 1])
  {
    assert forall j :: 0 <= j < i ==> fs[..i][j] == fs[..i + 1][j] == fs[j];
    assert fs[..i + 1][i] == fs[i];
  }
}
