/** Walking an output tree: partitions outside a time range are not listed, and no file is lost for it. */
module OutputTrees {
  import opened Bytes
  import opened Calendar
  import opened Digits
  import opened Layouts
  import opened Sequences

  // Time ranges

  datatype Bound = Included(at: int) | Excluded(at: int) | Unbounded

  datatype Range = Range(low: Bound, high: Bound) {
    predicate Contains(t: int) {
      && (match low case Included(a) => a <= t case Excluded(a) => a < t case Unbounded => true)
      && (match high case Included(a) => t <= a case Excluded(a) => t < a case Unbounded => true)
    }
  }

  function Before(cutoff: int): Range {
    Range(Unbounded, Excluded(cutoff))
  }

  predicate Overlaps(p: Period, range: Range) {
    && (match range.low case Included(a) => p.end > a case Excluded(a) => p.end > a + 1 case Unbounded => true)
    && (match range.high case Included(a) => p.start <= a case Excluded(a) => p.start < a case Unbounded => true)
  }

  /** A period overlaps a range exactly when they share a time, unless the range holds no time at all. */
  lemma OverlapsShares(p: Period, range: Range)
    requires p.start < p.end && exists t :: range.Contains(t)
    ensures Overlaps(p, range) <==> exists t :: p.Holds(t) && range.Contains(t)
  {
    if Overlaps(p, range) {
      var low := match range.low case Included(a) => a case Excluded(a) => a + 1 case Unbounded => p.start;
      var t := if low < p.start then p.start else low;
      var u :| range.Contains(u);
      assert p.Holds(t) && range.Contains(t);
    }
  }

  // Trees

  /** A directory's entries come in whatever order they are listed in. */
  datatype Node = File | Special | Dir(entries: seq<Entry>)

  datatype Entry = Entry(name: string, node: Node)

  type Path = seq<string>

  datatype Found = Found(path: Path, window: int, temporary: bool)

  datatype Visit = VisitFile(found: Found) | LeaveDir(path: Path)

  /** Whether a directory is a partition whose period overlaps the range. */
  predicate IsVisited(l: Layout, path: Path, range: Range)
    requires path != []
  {
    var p := PeriodOf(l.partitioning, path);
    p.Some? && Overlaps(p.value, range)
  }

  function VisitsOf(l: Layout, path: Path, name: string): seq<Visit> {
    match Name(l, name)
    case None => []
    case Some(own) => [VisitFile(Found(path, own.window, own.temporary))]
  }

  function Visits(l: Layout, entries: seq<Entry>, dir: Path, range: Range): seq<Visit>
    decreases entries
  {
    if entries == [] then []
    else EntryVisits(l, entries[0], dir, range) + Visits(l, entries[1..], dir, range)
  }

  function EntryVisits(l: Layout, entry: Entry, dir: Path, range: Range): seq<Visit>
    decreases entry
  {
    var path := dir + [entry.name];
    match entry.node
    case File => VisitsOf(l, path, entry.name)
    case Special => []
    case Dir(children) =>
      if IsVisited(l, path, range) then Visits(l, children, path, range) + [LeaveDir(path)] else []
  }

  method Walk(l: Layout, entries: seq<Entry>, dir: Path, range: Range) returns (visits: seq<Visit>)
    ensures visits == Visits(l, entries, dir, range)
    decreases entries
  {
    hide VisitsOf, IsVisited;
    visits := [];
    for i := 0 to |entries|
      invariant visits + Visits(l, entries[i..], dir, range) == Visits(l, entries, dir, range)
    {
      var path := dir + [entries[i].name];
      ghost var before := visits;
      match entries[i].node {
        case File =>
          visits := visits + VisitsOf(l, path, entries[i].name);
        case Special =>
        case Dir(children) =>
          if IsVisited(l, path, range) {
            var below := Walk(l, children, path, range);
            visits := visits + (below + [LeaveDir(path)]);
          }
      }
      assert entries[i..][1..] == entries[i + 1..];
      assert visits == before + EntryVisits(l, entries[i], dir, range);
      Regroup(before, EntryVisits(l, entries[i], dir, range), Visits(l, entries[i + 1..], dir, range));
    }
  }

  // What a walk finds

  function FileIn(v: Visit, range: Range): seq<Found> {
    if v.VisitFile? && range.Contains(v.found.window) then [v.found] else []
  }

  function FilesIn(visits: seq<Visit>, range: Range): seq<Found> {
    if visits == [] then [] else FileIn(visits[0], range) + FilesIn(visits[1..], range)
  }

  function DirIn(v: Visit): seq<Path> {
    if v.LeaveDir? then [v.path] else []
  }

  function DirsIn(visits: seq<Visit>): seq<Path> {
    if visits == [] then [] else DirIn(visits[0]) + DirsIn(visits[1..])
  }

  lemma {:induction false} FilesInConcat(a: seq<Visit>, b: seq<Visit>, range: Range)
    ensures FilesIn(a + b, range) == FilesIn(a, range) + FilesIn(b, range)
  {
    hide FileIn;
    if a == [] {
      assert a + b == b;
    } else {
      FilesInConcat(a[1..], b, range);
      assert (a + b)[1..] == a[1..] + b;
      Regroup(FileIn(a[0], range), FilesIn(a[1..], range), FilesIn(b, range));
    }
  }

  lemma FilesLeft(visits: seq<Visit>, path: Path, range: Range)
    ensures FilesIn(visits + [LeaveDir(path)], range) == FilesIn(visits, range)
  {
    FilesInConcat(visits, [LeaveDir(path)], range);
    assert [LeaveDir(path)][1..] == [];
  }

  lemma {:induction false} DirsInConcat(a: seq<Visit>, b: seq<Visit>)
    ensures DirsIn(a + b) == DirsIn(a) + DirsIn(b)
  {
    hide DirIn;
    if a == [] {
      assert a + b == b;
    } else {
      DirsInConcat(a[1..], b);
      assert (a + b)[1..] == a[1..] + b;
      Regroup(DirIn(a[0]), DirsIn(a[1..]), DirsIn(b));
    }
  }

  /** What a walk of the range finds, less the files it finds outside it. */
  method Files(l: Layout, root: seq<Entry>, range: Range) returns (files: seq<Found>)
    ensures files == FilesIn(Visits(l, root, [], range), range)
  {
    var visits := Walk(l, root, [], range);
    files := FilesIn(visits, range);
  }

  /** The partitions overlapping the range, deepest first. */
  method Dirs(l: Layout, root: seq<Entry>, range: Range) returns (dirs: seq<Path>)
    ensures dirs == DirsIn(Visits(l, root, [], range))
  {
    var visits := Walk(l, root, [], range);
    dirs := DirsIn(visits);
  }

  // Every file of the layout, wherever it lies

  function Own(l: Layout, entries: seq<Entry>, dir: Path): seq<Found>
    decreases entries
  {
    if entries == [] then [] else EntryOwn(l, entries[0], dir) + Own(l, entries[1..], dir)
  }

  function EntryOwn(l: Layout, entry: Entry, dir: Path): seq<Found>
    decreases entry
  {
    var path := dir + [entry.name];
    match entry.node
    case File =>
      (match Name(l, entry.name)
       case None => []
       case Some(own) => [Found(path, own.window, own.temporary)])
    case Special => []
    case Dir(children) => Own(l, children, path)
  }

  function Filter(fs: seq<Found>, range: Range): seq<Found> {
    if fs == [] then []
    else (if range.Contains(fs[0].window) then [fs[0]] else []) + Filter(fs[1..], range)
  }

  lemma {:induction false} FilterConcat(a: seq<Found>, b: seq<Found>, range: Range)
    ensures Filter(a + b, range) == Filter(a, range) + Filter(b, range)
  {
    if a == [] {
      assert a + b == b;
    } else {
      FilterConcat(a[1..], b, range);
      assert (a + b)[1..] == a[1..] + b;
    }
  }

  lemma {:induction false} FilterNone(fs: seq<Found>, range: Range)
    requires forall i :: 0 <= i < |fs| ==> !range.Contains(fs[i].window)
    ensures Filter(fs, range) == []
  {
    if fs != [] {
      FilterNone(fs[1..], range);
    }
  }

  /** The file lies where some level puts files of its window. */
  ghost predicate FiledAt(l: Layout, f: Found, level: nat) {
    && level <= 3 && f.path != []
    && f.path[..|f.path| - 1] == DirNames(l.partitioning, level, At(f.window))
  }

  ghost predicate IsFiled(l: Layout, f: Found) {
    exists level :: FiledAt(l, f, level)
  }

  ghost predicate AllFiled(l: Layout, fs: seq<Found>) {
    forall i :: 0 <= i < |fs| ==> IsFiled(l, fs[i])
  }

  /** What lies in a directory has its path, and a window in years of four digits. */
  ghost predicate Below(f: Found, dir: Path) {
    dir < f.path && 0 <= At(f.window).year <= 9999
  }

  lemma {:induction false} OwnBelow(l: Layout, entries: seq<Entry>, dir: Path, i: nat)
    requires i < |Own(l, entries, dir)|
    ensures Below(Own(l, entries, dir)[i], dir)
    decreases entries
  {
    hide Name, At;
    var first := EntryOwn(l, entries[0], dir);
    if i < |first| {
      var path := dir + [entries[0].name];
      match entries[0].node {
        case File =>
          NameYear(l, entries[0].name);
        case Special =>
        case Dir(children) =>
          OwnBelow(l, children, path, i);
      }
    } else {
      OwnBelow(l, entries[1..], dir, i - |first|);
    }
  }

  lemma NameYear(l: Layout, name: string)
    requires Name(l, name).Some?
    ensures 0 <= At(Name(l, name).value.window).year <= 9999
  {
    hide At, StripPrefix, StripSuffix, SplitLast, Unhidden, ParseStamp;
    forall s: string | |s| == STAMP_LEN && ParseStamp(s).Some?
      ensures 0 <= At(ParseStamp(s).value).year <= 9999
    {
      StampYear(s);
    }
  }

  lemma StampYear(s: string)
    requires |s| == STAMP_LEN && ParseStamp(s).Some?
    ensures 0 <= At(ParseStamp(s).value).year <= 9999
  {
    hide Timestamp, At, Number;
    var date, time := s[..8], s[9..15];
    var second := Number(time[4..]);
    var c := Civil(Number(date[..4]), Number(date[4..6]), Number(date[6..]), Number(time[..2]), Number(time[2..4]),
                   if second == 60 then 59 else second);
    AtTimestamp(c);
    NumberBound(date[..4]);
    Pow10Values();
  }

  lemma {:induction false} NumberBound(s: string)
    requires AllDigits(s)
    ensures Number(s) < Pow10(|s|)
  {
    if s != [] {
      NumberBound(s[..|s| - 1]);
    }
  }

  /** A partition that holds a filed file in the range is visited. */
  lemma FiledIsVisited(l: Layout, f: Found, path: Path, range: Range)
    requires IsFiled(l, f) && 0 <= At(f.window).year <= 9999 && range.Contains(f.window)
    requires path != [] && path < f.path
    ensures IsVisited(l, path, range)
  {
    hide At, DirNames, PeriodOf;
    var level :| FiledAt(l, f, level);
    var names := DirNames(l.partitioning, level, At(f.window));
    assert names[..|path|] == path;
    PartitionsHoldStart(l.partitioning, level, f.window, |path|);
  }

  lemma {:induction false} WalkFindsOwn(l: Layout, entries: seq<Entry>, dir: Path, range: Range)
    requires AllFiled(l, Own(l, entries, dir))
    ensures FilesIn(Visits(l, entries, dir, range), range) == Filter(Own(l, entries, dir), range)
    decreases entries
  {
    hide EntryOwn, EntryVisits, IsFiled;
    if entries != [] {
      var first, rest := EntryOwn(l, entries[0], dir), Own(l, entries[1..], dir);
      assert Own(l, entries, dir)[..|first|] == first && Own(l, entries, dir)[|first|..] == rest;
      EntryFindsOwn(l, entries[0], dir, range);
      WalkFindsOwn(l, entries[1..], dir, range);
      FilesInConcat(EntryVisits(l, entries[0], dir, range), Visits(l, entries[1..], dir, range), range);
      FilterConcat(first, rest, range);
    }
  }

  lemma {:induction false} EntryFindsOwn(l: Layout, entry: Entry, dir: Path, range: Range)
    requires AllFiled(l, EntryOwn(l, entry, dir))
    ensures FilesIn(EntryVisits(l, entry, dir, range), range) == Filter(EntryOwn(l, entry, dir), range)
    decreases entry
  {
    hide Name, IsFiled, IsVisited, Visits, Own;
    var path := dir + [entry.name];
    if entry.node.Dir? {
      SubtreeFound(l, entry.node.entries, path, range);
      if IsVisited(l, path, range) {
        WalkFindsOwn(l, entry.node.entries, path, range);
        FilesLeft(Visits(l, entry.node.entries, path, range), path, range);
      }
    }
  }

  /** A directory that is not visited holds nothing in the range. */
  lemma SubtreeFound(l: Layout, children: seq<Entry>, path: Path, range: Range)
    requires path != [] && AllFiled(l, Own(l, children, path))
    ensures IsVisited(l, path, range) || Filter(Own(l, children, path), range) == []
  {
    hide IsFiled, IsVisited, At;
    var own := Own(l, children, path);
    if !IsVisited(l, path, range) {
      forall i | 0 <= i < |own|
        ensures !range.Contains(own[i].window)
      {
        OwnBelow(l, children, path, i);
        if range.Contains(own[i].window) {
          FiledIsVisited(l, own[i], path, range);
        }
      }
      FilterNone(own, range);
    }
  }

  /** On any tree filed by the layout, at any levels, a walk of some range finds just what a walk of everything, filtered
      by the range, would find. */
  method FilesOfFiledTree(l: Layout, root: seq<Entry>, range: Range) returns (files: seq<Found>)
    requires AllFiled(l, Own(l, root, []))
    ensures files == Filter(Own(l, root, []), range)
  {
    files := Files(l, root, range);
    WalkFindsOwn(l, root, [], range);
  }
}
