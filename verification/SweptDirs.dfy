/** Which directories a sweep goes through, and so may remove: the collector's own that begin before the cutoff. */
module SweptDirectories {
  import opened Calendar
  import opened Layouts
  import opened OutputTrees
  import opened Expiring
  import opened Naming
  import opened OwnNames

  /** The tree has the directory. */
  predicate HasDir(entries: seq<Entry>, dir: Path, p: Path)
    decreases entries
  {
    entries != [] && (EntryHas(entries[0], dir, p) || HasDir(entries[1..], dir, p))
  }

  predicate EntryHas(entry: Entry, dir: Path, p: Path)
    decreases entry
  {
    var path := dir + [entry.name];
    entry.node.Dir? && (p == path || HasDir(entry.node.entries, path, p))
  }

  /** Every directory on the way is a partition that overlaps the range. */
  ghost predicate AllVisited(l: Layout, from: nat, p: Path, range: Range) {
    forall k :: from < k <= |p| ==> IsVisited(l, p[..k], range)
  }

  lemma {:induction false} DirBelow(entries: seq<Entry>, dir: Path, p: Path)
    requires HasDir(entries, dir, p)
    ensures dir < p
    decreases entries
  {
    if EntryHas(entries[0], dir, p) {
      EntryBelow(entries[0], dir, p);
    } else {
      DirBelow(entries[1..], dir, p);
    }
  }

  lemma {:induction false} EntryBelow(entry: Entry, dir: Path, p: Path)
    requires EntryHas(entry, dir, p)
    ensures dir + [entry.name] <= p
    decreases entry
  {
    if p != dir + [entry.name] {
      DirBelow(entry.node.entries, dir + [entry.name], p);
    }
  }

  /** A walk goes through the directories of a tree that are visited all the way down. */
  lemma {:induction false} WalkedDirs(l: Layout, entries: seq<Entry>, dir: Path, range: Range, p: Path)
    ensures p in DirsIn(Visits(l, entries, dir, range)) <==> HasDir(entries, dir, p) && AllVisited(l, |dir|, p, range)
    decreases entries
  {
    hide EntryVisits, EntryHas, AllVisited;
    if entries != [] {
      DirsInConcat(EntryVisits(l, entries[0], dir, range), Visits(l, entries[1..], dir, range));
      EntryWalked(l, entries[0], dir, range, p);
      WalkedDirs(l, entries[1..], dir, range, p);
    }
  }

  lemma {:induction false} EntryWalked(l: Layout, entry: Entry, dir: Path, range: Range, p: Path)
    ensures p in DirsIn(EntryVisits(l, entry, dir, range)) <==> EntryHas(entry, dir, p) && AllVisited(l, |dir|, p, range)
    decreases entry
  {
    hide IsVisited, Name;
    var path := dir + [entry.name];
    match entry.node
    case File => assert DirsIn(EntryVisits(l, entry, dir, range)) == [];
    case Special =>
    case Dir(children) =>
      WalkedDirs(l, children, path, range, p);
      DirsInConcat(Visits(l, children, path, range), [LeaveDir(path)]);
      assert [LeaveDir(path)][1..] == [];
      if EntryHas(entry, dir, p) {
        EntryBelow(entry, dir, p);
        assert p[..|path|] == path;
        assert AllVisited(l, |dir|, p, range) <==> IsVisited(l, path, range) && AllVisited(l, |path|, p, range);
      }
  }

  lemma SpanStarts(ps: seq<int>)
    requires IsSpan(ps)
    ensures Span(ps).start == Timestamp(SpanStart(ps))
  {
  }

  lemma PartitionStarts(p: Partitioning, path: Path)
    requires path != [] && PeriodOf(p, path).Some?
    ensures |path| <= p.MaxDepth()
    ensures var t := PeriodOf(p, path).value.start; YearFits(t) && PeriodOf(p, path).value.Holds(t)
  {
    hide At, NameParts, Span;
    var ps := NameParts(p, path).value;
    FourDigits(p, path);
    NamePartsSize(p, path);
    AtTimestamp(SpanStart(ps));
    PartsOfStart(ps);
    SpanHolds(ps, Timestamp(SpanStart(ps)));
    SpanStarts(ps);
  }

  /** The collector has such a directory on the way to its files of the time. */
  ghost predicate IsDirOf(p: Partitioning, path: Path, t: int) {
    |path| <= p.MaxDepth() && YearFits(t) && path <= DirNames(p, 3, At(t))
  }

  lemma DirOfTime(p: Partitioning, path: Path, t: int)
    requires path != []
    ensures IsDirOf(p, path, t) <==> YearFits(t) && PeriodOf(p, path).Some? && PeriodOf(p, path).value.Holds(t)
  {
    hide At, DirNames, PeriodOf;
    if PeriodOf(p, path).Some? {
      PartitionStarts(p, path);
    }
    if |path| <= p.MaxDepth() && YearFits(t) {
      PartitionIs(p, path, t);
      DirNamesSize(p, 3, At(t));
      assert |DirNames(p, 3, At(t))| == p.MaxDepth() by {
        AllLevels(p, At(t));
      }
    }
  }

  lemma AllLevels(p: Partitioning, c: Civil)
    ensures |DirNames(p, 3, c)| == p.MaxDepth()
  {
  }

  /** A directory overlaps the times before a cutoff if and only if it is one the collector has for some earlier time. */
  lemma VisitedIs(l: Layout, path: Path, cutoff: int)
    requires path != []
    ensures IsVisited(l, path, Before(cutoff)) <==> exists t :: t < cutoff && IsDirOf(l.partitioning, path, t)
  {
    hide PeriodOf, IsDirOf, YearFits;
    var p := l.partitioning;
    if IsVisited(l, path, Before(cutoff)) {
      PartitionStarts(p, path);
      DirOfTime(p, path, PeriodOf(p, path).value.start);
    }
    if t :| t < cutoff && IsDirOf(p, path, t) {
      DirOfTime(p, path, t);
    }
  }
}
