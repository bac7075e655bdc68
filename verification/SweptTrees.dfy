/** What an expiry sweep leaves. */
module SweptTrees {
  import opened Bytes
  import opened Calendar
  import opened Layouts
  import opened OutputTrees
  import opened Sequences
  import opened Expiring

  // Everything but directories

  datatype Leaf = Leaf(path: Path, special: bool)

  /** Files and the like, wherever they lie. */
  function Leaves(entries: seq<Entry>, dir: Path): seq<Leaf>
    decreases entries
  {
    if entries == [] then [] else EntryLeaves(entries[0], dir) + Leaves(entries[1..], dir)
  }

  function EntryLeaves(entry: Entry, dir: Path): seq<Leaf>
    decreases entry
  {
    var path := dir + [entry.name];
    match entry.node
    case File => [Leaf(path, false)]
    case Special => [Leaf(path, true)]
    case Dir(children) => Leaves(children, path)
  }

  function KeptLeaf(leaf: Leaf, gone: set<Path>): seq<Leaf> {
    if !leaf.special && leaf.path in gone then [] else [leaf]
  }

  function Kept(leaves: seq<Leaf>, gone: set<Path>): seq<Leaf> {
    if leaves == [] then [] else KeptLeaf(leaves[0], gone) + Kept(leaves[1..], gone)
  }

  lemma {:induction false} KeptConcat(a: seq<Leaf>, b: seq<Leaf>, gone: set<Path>)
    ensures Kept(a + b, gone) == Kept(a, gone) + Kept(b, gone)
  {
    hide KeptLeaf;
    if a == [] {
      assert a + b == b;
    } else {
      KeptConcat(a[1..], b, gone);
      assert (a + b)[1..] == a[1..] + b;
      Regroup(KeptLeaf(a[0], gone), Kept(a[1..], gone), Kept(b, gone));
    }
  }

  lemma {:induction false} LeavesConcat(a: seq<Entry>, b: seq<Entry>, dir: Path)
    ensures Leaves(a + b, dir) == Leaves(a, dir) + Leaves(b, dir)
  {
    hide EntryLeaves;
    if a == [] {
      assert a + b == b;
    } else {
      LeavesConcat(a[1..], b, dir);
      assert (a + b)[1..] == a[1..] + b;
      Regroup(EntryLeaves(a[0], dir), Leaves(a[1..], dir), Leaves(b, dir));
    }
  }

  lemma {:induction false} LeavesPruned(entries: seq<Entry>, dir: Path, gone: set<Path>)
    ensures Leaves(Pruned(entries, dir, gone), dir) == Leaves(entries, dir)
    decreases entries
  {
    if entries != [] {
      var entry, once := entries[0], EntryPruned(entries[0], dir, gone);
      if entry.node.Dir? {
        LeavesPruned(entry.node.entries, dir + [entry.name], gone);
      }
      if once != [] {
        assert once[1..] == [];
      }
      LeavesPruned(entries[1..], dir, gone);
      LeavesConcat(once, Pruned(entries[1..], dir, gone), dir);
    }
  }

  lemma {:induction false} LeavesWithout(entries: seq<Entry>, dir: Path, gone: set<Path>)
    ensures Leaves(Without(entries, dir, gone), dir) == Kept(Leaves(entries, dir), gone)
    decreases entries
  {
    if entries != [] {
      var entry, once := entries[0], EntryWithout(entries[0], dir, gone);
      if entry.node.Dir? {
        LeavesWithout(entry.node.entries, dir + [entry.name], gone);
      }
      if once != [] {
        assert once[1..] == [];
      }
      LeavesWithout(entries[1..], dir, gone);
      LeavesConcat(once, Without(entries[1..], dir, gone), dir);
      KeptConcat(EntryLeaves(entry, dir), Leaves(entries[1..], dir), gone);
    }
  }

  /** Of all that is not a directory, the expired files go and nothing else. */
  lemma OnlyExpiredGo(l: Layout, root: seq<Entry>, cutoff: int)
    ensures Leaves(Swept(l, root, cutoff), []) == Kept(Leaves(root, []), PathsOf(Expired(l, root, cutoff)))
  {
    var gone := PathsOf(Expired(l, root, cutoff));
    LeavesWithout(root, [], gone);
    LeavesPruned(Without(root, [], gone), [], Visited(l, root, cutoff));
  }

  // On a filed tree

  lemma {:induction false} OwnConcat(l: Layout, a: seq<Entry>, b: seq<Entry>, dir: Path)
    ensures Own(l, a + b, dir) == Own(l, a, dir) + Own(l, b, dir)
  {
    hide EntryOwn;
    if a == [] {
      assert a + b == b;
    } else {
      OwnConcat(l, a[1..], b, dir);
      assert (a + b)[1..] == a[1..] + b;
      Regroup(EntryOwn(l, a[0], dir), Own(l, a[1..], dir), Own(l, b, dir));
    }
  }

  lemma {:induction false} OwnPruned(l: Layout, entries: seq<Entry>, dir: Path, gone: set<Path>)
    ensures Own(l, Pruned(entries, dir, gone), dir) == Own(l, entries, dir)
    decreases entries
  {
    hide Name;
    if entries != [] {
      var entry, once := entries[0], EntryPruned(entries[0], dir, gone);
      if entry.node.Dir? {
        OwnPruned(l, entry.node.entries, dir + [entry.name], gone);
      }
      if once != [] {
        assert once[1..] == [];
      }
      OwnPruned(l, entries[1..], dir, gone);
      OwnConcat(l, once, Pruned(entries[1..], dir, gone), dir);
    }
  }

  function From(cutoff: int): Range {
    Range(Included(cutoff), Unbounded)
  }

  /** The set has the paths of just those own files that start before the cutoff. */
  ghost predicate Picks(fs: seq<Found>, cutoff: int, gone: set<Path>) {
    forall i :: 0 <= i < |fs| ==> (fs[i].path in gone <==> fs[i].window < cutoff)
  }

  lemma {:induction false} OwnWithout(l: Layout, entries: seq<Entry>, dir: Path, cutoff: int, gone: set<Path>)
    requires Picks(Own(l, entries, dir), cutoff, gone)
    requires forall p :: p in gone ==> p != [] && Name(l, p[|p| - 1]).Some?
    ensures Own(l, Without(entries, dir, gone), dir) == Filter(Own(l, entries, dir), From(cutoff))
    decreases entries
  {
    hide Name, EntryOwn, EntryWithout;
    if entries != [] {
      var first, rest := EntryOwn(l, entries[0], dir), Own(l, entries[1..], dir);
      assert Own(l, entries, dir)[..|first|] == first && Own(l, entries, dir)[|first|..] == rest;
      EntryOwnWithout(l, entries[0], dir, cutoff, gone);
      OwnWithout(l, entries[1..], dir, cutoff, gone);
      OwnConcat(l, EntryWithout(entries[0], dir, gone), Without(entries[1..], dir, gone), dir);
      FilterConcat(first, rest, From(cutoff));
    }
  }

  lemma {:induction false} EntryOwnWithout(l: Layout, entry: Entry, dir: Path, cutoff: int, gone: set<Path>)
    requires Picks(EntryOwn(l, entry, dir), cutoff, gone)
    requires forall p :: p in gone ==> p != [] && Name(l, p[|p| - 1]).Some?
    ensures Own(l, EntryWithout(entry, dir, gone), dir) == Filter(EntryOwn(l, entry, dir), From(cutoff))
    decreases entry
  {
    hide Name;
    var first, once := EntryOwn(l, entry, dir), EntryWithout(entry, dir, gone);
    if once != [] {
      assert once[1..] == [];
      assert Own(l, once, dir) == EntryOwn(l, once[0], dir);
    }
    if entry.node.Dir? {
      OwnWithout(l, entry.node.entries, dir + [entry.name], cutoff, gone);
    } else if first != [] {
      assert first[1..] == [];
    }
  }

  /** What a name says is what is known of the file. */
  ghost predicate Described(l: Layout, f: Found) {
    f.path != [] && Name(l, f.path[|f.path| - 1]) == Some(OwnName(f.window, f.temporary))
  }

  lemma {:induction false} OwnDescribed(l: Layout, entries: seq<Entry>, dir: Path, i: nat)
    requires i < |Own(l, entries, dir)|
    ensures Described(l, Own(l, entries, dir)[i])
    decreases entries
  {
    hide Name;
    var first := EntryOwn(l, entries[0], dir);
    if i >= |first| {
      OwnDescribed(l, entries[1..], dir, i - |first|);
    } else if entries[0].node.Dir? {
      OwnDescribed(l, entries[0].node.entries, dir + [entries[0].name], i);
    }
  }

  lemma {:induction false} FilterMembers(fs: seq<Found>, range: Range, f: Found)
    ensures f in Filter(fs, range) <==> f in fs && range.Contains(f.window)
  {
    if fs != [] {
      FilterMembers(fs[1..], range, f);
    }
  }

  /** Of the layout's own files on a filed tree, exactly those whose window started before the cutoff go. */
  lemma FiledSweep(l: Layout, root: seq<Entry>, cutoff: int)
    requires AllFiled(l, Own(l, root, []))
    ensures Expired(l, root, cutoff) == Filter(Own(l, root, []), Before(cutoff))
    ensures Own(l, Swept(l, root, cutoff), []) == Filter(Own(l, root, []), From(cutoff))
  {
    hide Name, Own, Visits, IsFiled;
    var own, expired := Own(l, root, []), Expired(l, root, cutoff);
    var gone := PathsOf(expired);
    WalkFindsOwn(l, root, [], Before(cutoff));
    forall f | f in own
      ensures Described(l, f)
    {
      var i :| 0 <= i < |own| && own[i] == f;
      OwnDescribed(l, root, [], i);
    }
    forall f
      ensures f in expired <==> f in own && f.window < cutoff
    {
      FilterMembers(own, Before(cutoff), f);
    }
    ExpiredPicked(l, own, expired, cutoff);
    OwnWithout(l, root, [], cutoff, gone);
    OwnPruned(l, Without(root, [], gone), [], Visited(l, root, cutoff));
  }

  lemma ExpiredPicked(l: Layout, own: seq<Found>, expired: seq<Found>, cutoff: int)
    requires forall f :: f in own ==> Described(l, f)
    requires forall f :: f in expired <==> f in own && f.window < cutoff
    ensures Picks(own, cutoff, PathsOf(expired))
    ensures forall p :: p in PathsOf(expired) ==> p != [] && Name(l, p[|p| - 1]).Some?
  {
    hide Name;
    forall i | 0 <= i < |own|
      ensures own[i].path in PathsOf(expired) <==> own[i].window < cutoff
    {
      assert own[i] in own;
      if own[i].window < cutoff {
        var j :| 0 <= j < |expired| && expired[j] == own[i];
      }
      if own[i].path in PathsOf(expired) {
        var j :| 0 <= j < |expired| && expired[j].path == own[i].path;
        assert expired[j] in expired;
      }
    }
    forall p | p in PathsOf(expired)
      ensures p != [] && Name(l, p[|p| - 1]).Some?
    {
      var j :| 0 <= j < |expired| && expired[j].path == p;
      assert expired[j] in expired;
    }
  }

  // No visited partition is left empty

  predicate NoneEmpty(l: Layout, entries: seq<Entry>, dir: Path, range: Range)
    decreases entries
  {
    entries == [] || (EntryNotEmpty(l, entries[0], dir, range) && NoneEmpty(l, entries[1..], dir, range))
  }

  predicate EntryNotEmpty(l: Layout, entry: Entry, dir: Path, range: Range)
    decreases entry
  {
    var path := dir + [entry.name];
    entry.node.Dir? && IsVisited(l, path, range) ==>
      entry.node.entries != [] && NoneEmpty(l, entry.node.entries, path, range)
  }

  lemma {:induction false} NoneEmptyConcat(l: Layout, a: seq<Entry>, b: seq<Entry>, dir: Path, range: Range)
    ensures NoneEmpty(l, a + b, dir, range) <==> NoneEmpty(l, a, dir, range) && NoneEmpty(l, b, dir, range)
  {
    hide EntryNotEmpty;
    if a == [] {
      assert a + b == b;
    } else {
      NoneEmptyConcat(l, a[1..], b, dir, range);
      assert (a + b)[1..] == a[1..] + b;
    }
  }

  lemma {:induction false} PrunedNoneEmpty(l: Layout, entries: seq<Entry>, dir: Path, range: Range, gone: set<Path>)
    requires Members(DirsIn(Visits(l, entries, dir, range))) <= gone
    ensures NoneEmpty(l, Pruned(entries, dir, gone), dir, range)
    decreases entries
  {
    hide EntryVisits, EntryPruned;
    if entries != [] {
      var mine, rest := DirsIn(EntryVisits(l, entries[0], dir, range)), DirsIn(Visits(l, entries[1..], dir, range));
      DirsInConcat(EntryVisits(l, entries[0], dir, range), Visits(l, entries[1..], dir, range));
      assert forall d :: d in mine || d in rest ==> d in mine + rest;
      EntryPrunedNoneEmpty(l, entries[0], dir, range, gone);
      PrunedNoneEmpty(l, entries[1..], dir, range, gone);
      NoneEmptyConcat(l, EntryPruned(entries[0], dir, gone), Pruned(entries[1..], dir, gone), dir, range);
    }
  }

  lemma {:induction false} EntryPrunedNoneEmpty(l: Layout, entry: Entry, dir: Path, range: Range, gone: set<Path>)
    requires Members(DirsIn(EntryVisits(l, entry, dir, range))) <= gone
    ensures NoneEmpty(l, EntryPruned(entry, dir, gone), dir, range)
    decreases entry
  {
    hide IsVisited, Name;
    var path, once := dir + [entry.name], EntryPruned(entry, dir, gone);
    if once != [] {
      assert once[1..] == [];
    }
    if entry.node.Dir? && IsVisited(l, path, range) {
      var below := DirsIn(Visits(l, entry.node.entries, path, range));
      DirsInConcat(Visits(l, entry.node.entries, path, range), [LeaveDir(path)]);
      assert [LeaveDir(path)][1..] == [];
      assert DirsIn([LeaveDir(path)]) == [path];
      assert forall d :: d in below || d == path ==> d in below + [path];
      PrunedNoneEmpty(l, entry.node.entries, path, range, gone);
    }
  }

  /** After a sweep no partition it visits is empty. */
  lemma SweptNoneEmpty(l: Layout, root: seq<Entry>, cutoff: int)
    ensures NoneEmpty(l, Swept(l, root, cutoff), [], Before(cutoff))
  {
    var gone := PathsOf(Expired(l, root, cutoff));
    DirsUnchanged(l, root, [], Before(cutoff), gone);
    PrunedNoneEmpty(l, Without(root, [], gone), [], Before(cutoff), Visited(l, root, cutoff));
  }

  // Directories that are not visited are left as they are

  datatype Untouched = Untouched(path: Path, node: Node)

  function Unvisited(l: Layout, entries: seq<Entry>, dir: Path, range: Range): seq<Untouched>
    decreases entries
  {
    if entries == [] then []
    else EntryUnvisited(l, entries[0], dir, range) + Unvisited(l, entries[1..], dir, range)
  }

  function EntryUnvisited(l: Layout, entry: Entry, dir: Path, range: Range): seq<Untouched>
    decreases entry
  {
    var path := dir + [entry.name];
    if !entry.node.Dir? then []
    else if IsVisited(l, path, range) then Unvisited(l, entry.node.entries, path, range)
    else [Untouched(path, entry.node)]
  }

  /** Every directory on the way to the path is visited. */
  ghost predicate Reached(l: Layout, p: Path, range: Range) {
    forall k :: 0 < k < |p| ==> IsVisited(l, p[..k], range)
  }

  ghost predicate AllReached(l: Layout, gone: set<Path>, range: Range) {
    forall p :: p in gone ==> Reached(l, p, range)
  }

  lemma ReachedElsewhere(l: Layout, gone: set<Path>, dir: Path, range: Range)
    requires AllReached(l, gone, range) && dir != [] && !IsVisited(l, dir, range)
    ensures Elsewhere(gone, dir)
  {
    hide IsVisited;
    forall p | p in gone
      ensures !(dir < p)
    {
      var top := if |dir| < |p| then p[..|dir|] else [];
      assert dir < p ==> top == dir;
      assert Reached(l, p, range);
    }
  }

  lemma {:induction false} UnvisitedConcat(l: Layout, a: seq<Entry>, b: seq<Entry>, dir: Path, range: Range)
    ensures Unvisited(l, a + b, dir, range) == Unvisited(l, a, dir, range) + Unvisited(l, b, dir, range)
  {
    hide EntryUnvisited;
    if a == [] {
      assert a + b == b;
    } else {
      UnvisitedConcat(l, a[1..], b, dir, range);
      assert (a + b)[1..] == a[1..] + b;
      Regroup(EntryUnvisited(l, a[0], dir, range), Unvisited(l, a[1..], dir, range), Unvisited(l, b, dir, range));
    }
  }

  lemma {:induction false} UnvisitedWithout(
    l: Layout, entries: seq<Entry>, dir: Path, range: Range, gone: set<Path>)
    requires AllReached(l, gone, range)
    ensures Unvisited(l, Without(entries, dir, gone), dir, range) == Unvisited(l, entries, dir, range)
    decreases entries
  {
    hide IsVisited, Elsewhere, AllReached;
    if entries != [] {
      var entry, once := entries[0], EntryWithout(entries[0], dir, gone);
      if entry.node.Dir? {
        var path := dir + [entry.name];
        if IsVisited(l, path, range) {
          UnvisitedWithout(l, entry.node.entries, path, range, gone);
        } else {
          ReachedElsewhere(l, gone, path, range);
          WithoutElsewhere(entry.node.entries, path, gone);
        }
      }
      if once != [] {
        assert once[1..] == [];
      }
      UnvisitedWithout(l, entries[1..], dir, range, gone);
      UnvisitedConcat(l, once, Without(entries[1..], dir, gone), dir, range);
    }
  }

  lemma {:induction false} UnvisitedPruned(
    l: Layout, entries: seq<Entry>, dir: Path, range: Range, gone: set<Path>)
    requires AllReached(l, gone, range) && forall p :: p in gone ==> p != [] && IsVisited(l, p, range)
    ensures Unvisited(l, Pruned(entries, dir, gone), dir, range) == Unvisited(l, entries, dir, range)
    decreases entries
  {
    hide IsVisited, Elsewhere, AllReached;
    if entries != [] {
      var entry, once := entries[0], EntryPruned(entries[0], dir, gone);
      if entry.node.Dir? {
        var path := dir + [entry.name];
        if IsVisited(l, path, range) {
          UnvisitedPruned(l, entry.node.entries, path, range, gone);
        } else {
          ReachedElsewhere(l, gone, path, range);
          PrunedElsewhere(entry.node.entries, path, gone);
        }
      }
      if once != [] {
        assert once[1..] == [];
      }
      UnvisitedPruned(l, entries[1..], dir, range, gone);
      UnvisitedConcat(l, once, Pruned(entries[1..], dir, gone), dir, range);
    }
  }

  function PathOf(v: Visit): Path {
    match v case VisitFile(f) => f.path case LeaveDir(p) => p
  }

  /** What a walk visits it has reached, directories included. */
  ghost predicate VisitReached(l: Layout, v: Visit, range: Range) {
    Reached(l, PathOf(v), range) && (v.LeaveDir? ==> v.path != [] && IsVisited(l, v.path, range))
  }

  lemma {:induction false} VisitsReached(l: Layout, entries: seq<Entry>, dir: Path, range: Range, i: nat)
    requires i < |Visits(l, entries, dir, range)|
    requires Reached(l, dir, range) && (dir != [] ==> IsVisited(l, dir, range))
    ensures VisitReached(l, Visits(l, entries, dir, range)[i], range)
    decreases entries
  {
    hide IsVisited, Name;
    var first, path := EntryVisits(l, entries[0], dir, range), dir + [entries[0].name];
    if i >= |first| {
      VisitsReached(l, entries[1..], dir, range, i - |first|);
    } else {
      assert forall k :: 0 < k < |path| ==> path[..k] == dir[..k];
      assert dir[..|dir|] == dir;
      assert Reached(l, path, range);
      if entries[0].node.Dir? && i < |first| - 1 {
        VisitsReached(l, entries[0].node.entries, path, range, i);
      }
    }
  }

  lemma {:induction false} FoundVisit(visits: seq<Visit>, range: Range, f: Found)
    requires f in FilesIn(visits, range)
    ensures VisitFile(f) in visits && range.Contains(f.window)
  {
    if f !in FileIn(visits[0], range) {
      FoundVisit(visits[1..], range, f);
    }
  }

  lemma {:induction false} LeftVisit(visits: seq<Visit>, d: Path)
    requires d in DirsIn(visits)
    ensures LeaveDir(d) in visits
  {
    if visits[0] != LeaveDir(d) {
      LeftVisit(visits[1..], d);
    }
  }

  lemma SweepReaches(l: Layout, root: seq<Entry>, cutoff: int)
    ensures AllReached(l, PathsOf(Expired(l, root, cutoff)), Before(cutoff))
    ensures AllReached(l, Visited(l, root, cutoff), Before(cutoff))
    ensures forall d :: d in Visited(l, root, cutoff) ==> d != [] && IsVisited(l, d, Before(cutoff))
  {
    hide IsVisited, Visits;
    var range := Before(cutoff);
    var visits := Visits(l, root, [], range);
    forall v | v in visits
      ensures VisitReached(l, v, range)
    {
      var i :| 0 <= i < |visits| && visits[i] == v;
      VisitsReached(l, root, [], range, i);
    }
    var expired := Expired(l, root, cutoff);
    forall p | p in PathsOf(expired)
      ensures Reached(l, p, range)
    {
      var i :| 0 <= i < |expired| && expired[i].path == p;
      FoundVisit(visits, range, expired[i]);
      assert VisitReached(l, VisitFile(expired[i]), range);
    }
    forall d | d in Visited(l, root, cutoff)
      ensures Reached(l, d, range) && d != [] && IsVisited(l, d, range)
    {
      LeftVisit(visits, d);
      assert VisitReached(l, LeaveDir(d), range);
    }
  }

  /** A sweep leaves every directory it does not visit just as it was. */
  lemma SweptUnvisited(l: Layout, root: seq<Entry>, cutoff: int)
    ensures Unvisited(l, Swept(l, root, cutoff), [], Before(cutoff)) == Unvisited(l, root, [], Before(cutoff))
  {
    hide IsVisited, AllReached, Without, Pruned, Unvisited;
    var gone := PathsOf(Expired(l, root, cutoff));
    SweepReaches(l, root, cutoff);
    UnvisitedWithout(l, root, [], Before(cutoff), gone);
    UnvisitedPruned(l, Without(root, [], gone), [], Before(cutoff), Visited(l, root, cutoff));
  }

  // A second sweep

  lemma {:induction false} FilesPruned(l: Layout, entries: seq<Entry>, dir: Path, range: Range, gone: set<Path>)
    ensures FilesIn(Visits(l, Pruned(entries, dir, gone), dir, range), range)
         == FilesIn(Visits(l, entries, dir, range), range)
    decreases entries
  {
    hide EntryVisits, EntryPruned;
    if entries != [] {
      EntryFilesPruned(l, entries[0], dir, range, gone);
      FilesPruned(l, entries[1..], dir, range, gone);
      VisitsConcat(l, EntryPruned(entries[0], dir, gone), Pruned(entries[1..], dir, gone), dir, range);
      FilesInConcat(
        Visits(l, EntryPruned(entries[0], dir, gone), dir, range),
        Visits(l, Pruned(entries[1..], dir, gone), dir, range), range);
      FilesInConcat(EntryVisits(l, entries[0], dir, range), Visits(l, entries[1..], dir, range), range);
    }
  }

  lemma {:induction false} EntryFilesPruned(l: Layout, entry: Entry, dir: Path, range: Range, gone: set<Path>)
    ensures FilesIn(Visits(l, EntryPruned(entry, dir, gone), dir, range), range)
         == FilesIn(EntryVisits(l, entry, dir, range), range)
    decreases entry
  {
    hide IsVisited, Name;
    var path, once := dir + [entry.name], EntryPruned(entry, dir, gone);
    if once != [] {
      assert once[1..] == [];
      assert Visits(l, once, dir, range) == EntryVisits(l, once[0], dir, range);
    }
    if entry.node.Dir? {
      FilesPruned(l, entry.node.entries, path, range, gone);
      FilesLeft(Visits(l, entry.node.entries, path, range), path, range);
      FilesLeft(Visits(l, Pruned(entry.node.entries, path, gone), path, range), path, range);
    }
  }

  lemma {:induction false} NoneLeft(l: Layout, entries: seq<Entry>, dir: Path, range: Range, gone: set<Path>)
    requires PathsOf(FilesIn(Visits(l, entries, dir, range), range)) <= gone
    ensures FilesIn(Visits(l, Without(entries, dir, gone), dir, range), range) == []
    decreases entries
  {
    hide EntryVisits, EntryWithout, PathsOf;
    if entries != [] {
      var mine := FilesIn(EntryVisits(l, entries[0], dir, range), range);
      var rest := FilesIn(Visits(l, entries[1..], dir, range), range);
      FilesInConcat(EntryVisits(l, entries[0], dir, range), Visits(l, entries[1..], dir, range), range);
      PathsConcat(mine, rest);
      EntryNoneLeft(l, entries[0], dir, range, gone);
      NoneLeft(l, entries[1..], dir, range, gone);
      VisitsConcat(l, EntryWithout(entries[0], dir, gone), Without(entries[1..], dir, gone), dir, range);
      FilesInConcat(
        Visits(l, EntryWithout(entries[0], dir, gone), dir, range),
        Visits(l, Without(entries[1..], dir, gone), dir, range), range);
    }
  }

  lemma PathsConcat(a: seq<Found>, b: seq<Found>)
    ensures PathsOf(a + b) == PathsOf(a) + PathsOf(b)
  {
    forall p | p in PathsOf(a) + PathsOf(b)
      ensures p in PathsOf(a + b)
    {
      if p in PathsOf(a) {
        var i :| 0 <= i < |a| && a[i].path == p;
        assert (a + b)[i].path == p;
      } else {
        var i :| 0 <= i < |b| && b[i].path == p;
        assert (a + b)[|a| + i].path == p;
      }
    }
  }

  lemma {:induction false} EntryNoneLeft(l: Layout, entry: Entry, dir: Path, range: Range, gone: set<Path>)
    requires PathsOf(FilesIn(EntryVisits(l, entry, dir, range), range)) <= gone
    ensures FilesIn(Visits(l, EntryWithout(entry, dir, gone), dir, range), range) == []
    decreases entry
  {
    hide IsVisited, Name;
    var path, once := dir + [entry.name], EntryWithout(entry, dir, gone);
    if once != [] {
      assert once[1..] == [];
      assert Visits(l, once, dir, range) == EntryVisits(l, once[0], dir, range);
    }
    match entry.node {
      case File =>
        var fs := FilesIn(VisitsOf(l, path, entry.name), range);
        if fs != [] {
          assert fs[0].path in PathsOf(fs);
        }
      case Special =>
      case Dir(children) =>
        if IsVisited(l, path, range) {
          FilesLeft(Visits(l, children, path, range), path, range);
          NoneLeft(l, children, path, range, gone);
          FilesLeft(Visits(l, Without(children, path, gone), path, range), path, range);
        }
    }
  }

  lemma {:induction false} NoneToPrune(l: Layout, entries: seq<Entry>, dir: Path, range: Range, gone: set<Path>)
    requires NoneEmpty(l, entries, dir, range)
    requires AllReached(l, gone, range) && forall p :: p in gone ==> p != [] && IsVisited(l, p, range)
    ensures Pruned(entries, dir, gone) == entries
    decreases entries
  {
    hide IsVisited, AllReached, Elsewhere;
    if entries != [] {
      var entry := entries[0];
      if entry.node.Dir? {
        var path := dir + [entry.name];
        if IsVisited(l, path, range) {
          NoneToPrune(l, entry.node.entries, path, range, gone);
        } else {
          ReachedElsewhere(l, gone, path, range);
          PrunedElsewhere(entry.node.entries, path, gone);
        }
      }
      NoneToPrune(l, entries[1..], dir, range, gone);
      assert entries == [entry] + entries[1..];
    }
  }

  /** A second sweep at the same time removes no file, and no directory. */
  lemma SecondSweep(l: Layout, root: seq<Entry>, cutoff: int)
    ensures Expired(l, Swept(l, root, cutoff), cutoff) == []
    ensures Swept(l, Swept(l, root, cutoff), cutoff) == Swept(l, root, cutoff)
  {
    hide Visits, FilesIn, DirsIn, Without, Pruned, NoneEmpty, IsVisited, AllReached;
    var gone, once := PathsOf(Expired(l, root, cutoff)), Swept(l, root, cutoff);
    NoneLeft(l, root, [], Before(cutoff), gone);
    FilesPruned(l, Without(root, [], gone), [], Before(cutoff), Visited(l, root, cutoff));
    assert PathsOf([]) == {};
    WithoutElsewhere(once, [], {});
    SweptNoneEmpty(l, root, cutoff);
    SweepReaches(l, once, cutoff);
    NoneToPrune(l, once, [], Before(cutoff), Visited(l, once, cutoff));
  }
}
