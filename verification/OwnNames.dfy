/** Which names are the collector's own, and which directories its partitions: exactly those it gives itself. */
module OwnNames {
  import opened Bytes
  import opened Calendar
  import opened Digits
  import opened Layouts
  import opened OutputTrees
  import opened Expiring
  import opened SweptTrees
  import opened Naming

  // Stamps

  /** A time as written, or with second 60 for the last of its minute. */
  predicate IsStampOf(stamp: string, t: int) {
    && YearFits(t)
    && (stamp == StampText(At(t)) || (At(t).second == 59 && stamp == StampText(At(t).(second := 60))))
  }

  /** Year, month, day, T, hour, minute, second and Z, in decimal digits. */
  lemma StampAt(t: int)
    requires YearFits(t)
    ensures var c, text := At(t), StampText(At(t));
            && |text| == 16 && text[8] == 'T' && text[15] == 'Z'
            && AllDigits(text[..8]) && AllDigits(text[9..15])
            && Number(text[..4]) == c.year && Number(text[4..6]) == c.month && Number(text[6..8]) == c.day
            && Number(text[9..11]) == c.hour && Number(text[11..13]) == c.minute && Number(text[13..15]) == c.second
  {
    hide At, Timestamp, Number, StampText;
    StampDigits(At(t));
    var text := StampText(At(t));
    var date, time := text[..8], text[9..15];
    assert text[..4] == date[..4] && text[4..6] == date[4..6] && text[6..8] == date[6..];
    assert text[9..11] == time[..2] && text[11..13] == time[2..4] && text[13..15] == time[4..];
  }

  function StampParts(stamp: string): (parts: seq<string>)
    requires |stamp| == STAMP_LEN
    ensures |parts| == 6
    ensures stamp == parts[0] + parts[1] + parts[2] + [stamp[8]] + parts[3] + parts[4] + parts[5] + [stamp[15]]
  {
    [stamp[..4], stamp[4..6], stamp[6..8], stamp[9..11], stamp[11..13], stamp[13..15]]
  }

  lemma StampFits(stamp: string, t: int)
    requires |stamp| == STAMP_LEN && ParseStamp(stamp) == Some(t)
    ensures IsStampOf(stamp, t)
  {
    hide At, Timestamp, Padded, Number;
    var parts := StampParts(stamp);
    assert stamp[..8][..4] == parts[0] && stamp[..8][4..6] == parts[1] && stamp[..8][6..] == parts[2];
    assert stamp[9..15][..2] == parts[3] && stamp[9..15][2..4] == parts[4] && stamp[9..15][4..] == parts[5];
    forall i | 0 <= i < 6
      ensures AllDigits(parts[i])
    {
      assert forall j :: 0 <= j < 8 ==> IsDigit(stamp[..8][j]);
      assert forall j :: 0 <= j < 6 ==> IsDigit(stamp[9..15][j]);
    }
    PaddedNumber(parts[0]);
    PaddedNumber(parts[1]);
    PaddedNumber(parts[2]);
    PaddedNumber(parts[3]);
    PaddedNumber(parts[4]);
    PaddedNumber(parts[5]);
    NumberBound(parts[0]);
    Pow10Values();
    var second := Number(parts[5]);
    var c := Civil(Number(parts[0]), Number(parts[1]), Number(parts[2]), Number(parts[3]), Number(parts[4]),
                   if second == 60 then 59 else second);
    AtTimestamp(c);
    assert At(t) == c;
    var read := c.(second := second);
    assert StampText(read) == stamp;
  }

  lemma LeapStampReadsBack(t: int)
    requires YearFits(t) && At(t).second == 59
    ensures |StampText(At(t).(second := 60))| == STAMP_LEN && ParseStamp(StampText(At(t).(second := 60))) == Some(t)
  {
    hide At, Timestamp, Number, StampText;
    StampDigits(At(t).(second := 60));
  }

  /** A stamp is read as a time exactly when it is how the time is written. */
  lemma StampIs(stamp: string, t: int)
    requires |stamp| == STAMP_LEN
    ensures ParseStamp(stamp) == Some(t) <==> IsStampOf(stamp, t)
  {
    hide ParseStamp, At, StampText;
    if ParseStamp(stamp) == Some(t) {
      StampFits(stamp, t);
    }
    if IsStampOf(stamp, t) {
      StampReadsBack(t);
      if At(t).second == 59 {
        LeapStampReadsBack(t);
      }
    }
  }

  // Names

  /** Nothing, or a dash and a number. */
  predicate IsSuffix(s: string) {
    s == "" || (s[0] == '-' && IsNumber(s[1..]))
  }

  /** Prefix, dash, stamp, perhaps a number, and the extension. */
  ghost predicate IsFinalName(l: Layout, name: string, t: int) {
    exists stamp, suffix :: |stamp| == STAMP_LEN && IsStampOf(stamp, t) && IsSuffix(suffix)
      && name == l.prefix + "-" + (stamp + suffix) + "." + l.extension
  }

  /** A leading dot, and `.tmp` at the end. */
  ghost predicate IsHidden(name: string) {
    exists s :: name == "." + s + ".tmp"
  }

  /** A final name, hidden, with a number before the end. */
  ghost predicate IsTempName(l: Layout, name: string, t: int) {
    exists final, pid :: IsFinalName(l, final, t) && IsNumber(pid) && name == "." + (final + "." + pid) + ".tmp"
  }

  lemma MiddleIs(middle: string, t: int)
    ensures MiddleWindow(middle) == Some(t) <==>
            |middle| >= STAMP_LEN && IsStampOf(middle[..STAMP_LEN], t) && IsSuffix(middle[STAMP_LEN..])
  {
    hide IsStampOf, ParseStamp;
    if |middle| >= STAMP_LEN {
      StampIs(middle[..STAMP_LEN], t);
    }
  }

  lemma FinalTaken(l: Layout, name: string, t: int)
    requires FinalWindow(l, name) == Some(t)
    ensures exists middle :: MiddleWindow(middle) == Some(t) && name == l.prefix + "-" + middle + "." + l.extension
  {
    hide MiddleWindow;
    var afterDash := StripPrefix(StripPrefix(name, l.prefix).value, "-").value;
    var beforeExtension := StripSuffix(afterDash, l.extension).value;
    var middle := StripSuffix(beforeExtension, ".").value;
    assert beforeExtension == middle + ".";
    assert afterDash == beforeExtension + l.extension;
    assert name == l.prefix + ("-" + afterDash);
    assert name == l.prefix + "-" + middle + "." + l.extension;
  }

  lemma FinalIs(l: Layout, name: string, t: int)
    ensures FinalWindow(l, name) == Some(t) <==> IsFinalName(l, name, t)
  {
    hide MiddleWindow, FinalWindow, IsStampOf, IsSuffix;
    if FinalWindow(l, name) == Some(t) {
      FinalTaken(l, name, t);
      var middle :| MiddleWindow(middle) == Some(t) && name == l.prefix + "-" + middle + "." + l.extension;
      MiddleIs(middle, t);
      var stamp, suffix := middle[..STAMP_LEN], middle[STAMP_LEN..];
      assert middle == stamp + suffix;
      assert name == l.prefix + "-" + (stamp + suffix) + "." + l.extension;
    }
    if IsFinalName(l, name, t) {
      var stamp, suffix :| |stamp| == STAMP_LEN && IsStampOf(stamp, t) && IsSuffix(suffix)
        && name == l.prefix + "-" + (stamp + suffix) + "." + l.extension;
      var middle := stamp + suffix;
      assert middle[..STAMP_LEN] == stamp && middle[STAMP_LEN..] == suffix;
      MiddleIs(middle, t);
      FinalParts(l, middle);
    }
  }

  lemma HiddenIs(name: string, s: string)
    ensures Unhidden(name) == Some(s) <==> name == "." + s + ".tmp"
  {
    if Unhidden(name) == Some(s) {
      assert name == "." + name[1..] && name[1..] == s + ".tmp";
    }
    if name == "." + s + ".tmp" {
      assert name[1..] == s + ".tmp" && name[..1] == ".";
      assert (s + ".tmp")[|s|..] == ".tmp" && (s + ".tmp")[..|s|] == s;
    }
  }

  lemma {:induction false} SplitLastIs(s: string, c: char, before: string, after: string)
    ensures SplitLast(s, c) == Some((before, after)) <==> s == before + [c] + after && c !in after
  {
    if s == before + [c] + after && c !in after {
      SplitLastAt(before, c, after);
    }
    if SplitLast(s, c) == Some((before, after)) {
      var n := |s| - 1;
      if s[n] != c {
        SplitLastIs(s[..n], c, before, after[..|after| - 1]);
        assert after == after[..|after| - 1] + [s[n]];
      }
      assert s == s[..n] + [s[n]];
    }
  }

  lemma NoDotInNumber(pid: string)
    requires IsNumber(pid)
    ensures '.' !in pid
  {
  }

  /** A name is read as a complete file's of a window exactly when it is a final name of the window's and not hidden. */
  lemma CompleteIs(l: Layout, name: string, t: int)
    ensures Name(l, name) == Some(OwnName(t, false)) <==> IsFinalName(l, name, t) && !IsHidden(name)
  {
    hide FinalWindow, Unhidden, SplitLast, IsFinalName;
    FinalIs(l, name, t);
    var hidden := Unhidden(name);
    if hidden.Some? {
      HiddenIs(name, hidden.value);
    }
    if IsHidden(name) {
      var s :| name == "." + s + ".tmp";
      HiddenIs(name, s);
    }
  }

  /** And as a temporary file's exactly when it is a final name of the window's with a number, hidden. */
  lemma TemporaryIs(l: Layout, name: string, t: int)
    ensures Name(l, name) == Some(OwnName(t, true)) <==> IsTempName(l, name, t)
  {
    hide FinalWindow, Unhidden, SplitLast, IsFinalName;
    if Name(l, name) == Some(OwnName(t, true)) {
      var s := Unhidden(name).value;
      var (final, pid) := SplitLast(s, '.').value;
      HiddenIs(name, s);
      SplitLastIs(s, '.', final, pid);
      FinalIs(l, final, t);
      assert final + ['.'] + pid == final + "." + pid;
      assert IsFinalName(l, final, t) && IsNumber(pid) && name == "." + (final + "." + pid) + ".tmp";
    }
    if IsTempName(l, name, t) {
      var final, pid :| IsFinalName(l, final, t) && IsNumber(pid) && name == "." + (final + "." + pid) + ".tmp";
      var s := final + "." + pid;
      NoDotInNumber(pid);
      HiddenIs(name, s);
      assert final + ['.'] + pid == s;
      SplitLastIs(s, '.', final, pid);
      FinalIs(l, final, t);
    }
  }

  /** The names of a window's own files, of either kind. */
  ghost predicate IsOwnName(l: Layout, name: string, t: int) {
    (IsFinalName(l, name, t) && !IsHidden(name)) || IsTempName(l, name, t)
  }

  ghost predicate IsOwnBefore(l: Layout, name: string, cutoff: int) {
    exists t :: t < cutoff && IsOwnName(l, name, t)
  }

  // What a sweep can take

  lemma {:induction false} VisitedDescribed(l: Layout, entries: seq<Entry>, dir: Path, range: Range, i: nat)
    requires i < |FilesIn(Visits(l, entries, dir, range), range)|
    ensures var f := FilesIn(Visits(l, entries, dir, range), range)[i]; Described(l, f) && range.Contains(f.window)
    decreases entries
  {
    hide Name;
    var first := EntryVisits(l, entries[0], dir, range);
    FilesInConcat(first, Visits(l, entries[1..], dir, range), range);
    var n := |FilesIn(first, range)|;
    if i >= n {
      VisitedDescribed(l, entries[1..], dir, range, i - n);
    } else {
      EntryDescribed(l, entries[0], dir, range, i);
    }
  }

  lemma {:induction false} EntryDescribed(l: Layout, entry: Entry, dir: Path, range: Range, i: nat)
    requires i < |FilesIn(EntryVisits(l, entry, dir, range), range)|
    ensures var f := FilesIn(EntryVisits(l, entry, dir, range), range)[i]; Described(l, f) && range.Contains(f.window)
    decreases entry
  {
    hide Name;
    var path := dir + [entry.name];
    if entry.node.Dir? {
      var inside := Visits(l, entry.node.entries, path, range);
      FilesInConcat(inside, [LeaveDir(path)], range);
      assert [LeaveDir(path)][1..] == [];
      VisitedDescribed(l, entry.node.entries, path, range, i);
    } else {
      assert path[|path| - 1] == entry.name;
      var visits := EntryVisits(l, entry, dir, range);
      assert visits != [] ==> visits[1..] == [];
    }
  }

  /** On any tree, whatever is not a file under an own name of a window before the cutoff stays. */
  lemma OthersStay(l: Layout, root: seq<Entry>, cutoff: int, leaf: Leaf)
    requires leaf in Leaves(root, [])
    requires leaf.special || leaf.path == [] || !IsOwnBefore(l, leaf.path[|leaf.path| - 1], cutoff)
    ensures leaf in Leaves(Swept(l, root, cutoff), [])
  {
    hide Name, Leaves, Swept, Visits, IsFinalName, IsTempName, IsHidden, Kept;
    var expired := Expired(l, root, cutoff);
    OnlyExpiredGo(l, root, cutoff);
    if leaf.special || leaf.path !in PathsOf(expired) {
      KeptLeaves(Leaves(root, []), PathsOf(expired), leaf);
    } else {
      var i :| 0 <= i < |expired| && expired[i].path == leaf.path;
      ExpiredIsOwn(l, root, cutoff, i);
    }
  }

  lemma ExpiredIsOwn(l: Layout, root: seq<Entry>, cutoff: int, i: nat)
    requires i < |Expired(l, root, cutoff)|
    ensures var path := Expired(l, root, cutoff)[i].path;
            path != [] && IsOwnBefore(l, path[|path| - 1], cutoff)
  {
    hide Name, Visits, IsFinalName, IsTempName, IsHidden;
    VisitedDescribed(l, root, [], Before(cutoff), i);
    var f := Expired(l, root, cutoff)[i];
    var name := f.path[|f.path| - 1];
    CompleteIs(l, name, f.window);
    TemporaryIs(l, name, f.window);
    assert f.window < cutoff && IsOwnName(l, name, f.window);
  }

  lemma {:induction false} KeptLeaves(leaves: seq<Leaf>, gone: set<Path>, leaf: Leaf)
    requires leaf in leaves && (leaf.special || leaf.path !in gone)
    ensures leaf in Kept(leaves, gone)
  {
    if leaf != leaves[0] {
      KeptLeaves(leaves[1..], gone, leaf);
    }
  }

  // Partitions

  lemma {:induction false} SameNames(p: Partitioning, names: seq<string>, others: seq<string>)
    requires 1 <= |names| == |others| <= p.MaxDepth()
    requires NameParts(p, names).Some? && NameParts(p, names) == NameParts(p, others)
    ensures names == others
  {
    hide NameParts;
    var n := |names| - 1;
    var x, y := names[n], others[n];
    assert names == names[..n] + [x] && others == others[..n] + [y];
    if n > 0 {
      PartsGrow(p, names[..n], x);
      PartsGrow(p, others[..n], y);
      NamePartsSize(p, names[..n]);
      NamePartsSize(p, others[..n]);
      var all, a, b := NameParts(p, names).value, NameParts(p, names[..n]).value, NameParts(p, others[..n]).value;
      assert a == all[..|a|] && b == all[..|b|];
      SameNames(p, names[..n], others[..n]);
    }
    if x != y {
      var i := PartsDiffer(p, names[..n], x, y);
    }
  }

  lemma FourDigits(p: Partitioning, names: seq<string>)
    requires 1 <= |names| <= p.MaxDepth() && NameParts(p, names).Some?
    ensures 0 <= NameParts(p, names).value[0] <= 9999
    decreases |names|
  {
    Pow10Values();
    if |names| > 1 {
      var n := |names| - 1;
      FourDigits(p, names[..n]);
    } else if p.Plain? {
      assert PlainParts(names[..0]) == Some([]);
      NumberBound(names[0]);
    } else {
      var (year, rest) := SplitOnce(names[0][5..], '-').value;
      NumberBound(year);
    }
  }

  lemma PartsOfStart(ps: seq<int>)
    requires IsSpan(ps)
    ensures Parts(SpanStart(ps))[..|ps|] == ps
  {
  }

  /** A directory is a partition exactly when it names the first parts of some time, as a file's directories do; and its
      period holds just the times whose first parts it names. */
  lemma PartitionIs(p: Partitioning, names: seq<string>, t: int)
    requires 1 <= |names| <= p.MaxDepth() && YearFits(t)
    ensures PeriodOf(p, names).Some? && PeriodOf(p, names).value.Holds(t)
            <==> names == DirNames(p, 3, At(t))[..|names|]
  {
    hide At, DirNames, NameParts, Span, IsSpan;
    var k := |names|;
    var n := if p.Plain? then k else k + 2;
    DirNamesSize(p, 3, At(t));
    var own := DirNames(p, 3, At(t))[..k];
    DirParts(p, At(t), k);
    if names == own {
      PartitionsHoldStart(p, 3, t, k);
    }
    if PeriodOf(p, names).Some? && PeriodOf(p, names).value.Holds(t) {
      var ps := NameParts(p, names).value;
      NamePartsSize(p, names);
      SpanHolds(ps, t);
      assert ps == Parts(At(t))[..n];
      SameNames(p, names, own);
    }
  }

  /** Every partition is one of some time. */
  lemma PartitionOfSome(p: Partitioning, names: seq<string>) returns (t: int)
    requires names != [] && PeriodOf(p, names).Some?
    ensures YearFits(t) && PeriodOf(p, names).value.Holds(t)
  {
    hide At, NameParts, Span;
    var ps := NameParts(p, names).value;
    FourDigits(p, names);
    NamePartsSize(p, names);
    var c := SpanStart(ps);
    t := Timestamp(c);
    AtTimestamp(c);
    PartsOfStart(ps);
    SpanHolds(ps, t);
  }

  /** The number that ends a directory's name. */
  predicate Ends(name: string, start: string, width: nat, n: int) {
    |name| == |start| + width && start <= name && AllDigits(name[|start|..]) && Number(name[|start|..]) == n
  }

  lemma PaddedEnds(start: string, width: nat, n: nat)
    requires n < Pow10(width)
    ensures Ends(start + Padded(n, width), start, width, n)
  {
    NumberPadded(n, width);
    assert (start + Padded(n, width))[|start|..] == Padded(n, width);
  }

  /** Directories by year, month and day, by hour and by five minutes. */
  ghost predicate PlainNames(names: seq<string>, c: Civil) {
    && |names| == 5
    && Ends(names[0], "", 4, c.year) && Ends(names[1], "", 2, c.month) && Ends(names[2], "", 2, c.day)
    && Ends(names[3], "", 2, c.hour) && Ends(names[4], "", 2, c.minute - c.minute % 5)
  }

  /** Directories by date, by hour and by five minutes, each with its name. */
  ghost predicate HiveNames(names: seq<string>, c: Civil) {
    && |names| == 3 && DateName(names[0], c)
    && Ends(names[1], "hour=", 2, c.hour) && Ends(names[2], "minute=", 2, c.minute - c.minute % 5)
  }

  ghost predicate DateName(name: string, c: Civil) {
    && |name| == 15 && name[9] == '-' == name[12]
    && Ends(name[..9], "date=", 4, c.year) && Ends(name[10..12], "", 2, c.month) && Ends(name[13..], "", 2, c.day)
  }

  lemma PlainAt(c: Civil)
    requires Valid(c) && 0 <= c.year <= 9999
    ensures PlainNames(DirNames(Plain, 3, c), c)
  {
    hide Padded, Ends;
    Pow10Values();
    var bucket := c.minute - c.minute % 5;
    PaddedAlone(4, c.year);
    PaddedAlone(2, c.month);
    PaddedAlone(2, c.day);
    PaddedAlone(2, c.hour);
    PaddedAlone(2, bucket);
    assert c.minute / 5 * 5 == bucket;
    assert DirNames(Plain, 3, c)
        == [Padded(c.year, 4), Padded(c.month, 2), Padded(c.day, 2), Padded(c.hour, 2), Padded(bucket, 2)];
  }

  lemma PaddedAlone(width: nat, n: nat)
    requires n < Pow10(width)
    ensures Ends(Padded(n, width), "", width, n)
  {
    PaddedEnds("", width, n);
    assert "" + Padded(n, width) == Padded(n, width);
  }

  lemma DateAt(c: Civil)
    requires Valid(c) && 0 <= c.year <= 9999
    ensures DateName("date=" + Padded(c.year, 4) + "-" + Padded(c.month, 2) + "-" + Padded(c.day, 2), c)
  {
    hide Padded, Ends;
    Pow10Values();
    PaddedEnds("date=", 4, c.year);
    PaddedAlone(2, c.month);
    PaddedAlone(2, c.day);
    var y, m, d := "date=" + Padded(c.year, 4), Padded(c.month, 2), Padded(c.day, 2);
    var name := y + "-" + m + "-" + d;
    assert name[..9] == y && name[10..12] == m && name[13..] == d;
  }

  lemma HiveAt(c: Civil)
    requires Valid(c) && 0 <= c.year <= 9999
    ensures HiveNames(DirNames(Hive, 3, c), c)
  {
    hide Padded, Ends, DateName;
    Pow10Values();
    var bucket := c.minute - c.minute % 5;
    DateAt(c);
    PaddedEnds("hour=", 2, c.hour);
    PaddedEnds("minute=", 2, bucket);
    assert c.minute / 5 * 5 == bucket;
    assert DirNames(Hive, 3, c)
        == ["date=" + Padded(c.year, 4) + "-" + Padded(c.month, 2) + "-" + Padded(c.day, 2),
            "hour=" + Padded(c.hour, 2), "minute=" + Padded(bucket, 2)];
  }

  /** The names of a time's directories have the digits of its parts. */
  lemma PartitionAt(p: Partitioning, t: int)
    requires YearFits(t)
    ensures if p.Plain? then PlainNames(DirNames(p, 3, At(t)), At(t)) else HiveNames(DirNames(p, 3, At(t)), At(t))
  {
    hide At, DirNames, PlainNames, HiveNames;
    if p.Plain? {
      PlainAt(At(t));
    } else {
      HiveAt(At(t));
    }
  }
}
