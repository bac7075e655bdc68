/** Names and partitions of an output tree, and the times that belong in them. */
module Layouts {
  import opened Bytes
  import opened Calendar
  import opened Digits

  const MAX_PARTITION_LEVEL: nat := 3
  const STAMP_LEN: nat := 16

  datatype Partitioning = Plain | Hive {
    function MaxDepth(): nat {
      if Plain? then 5 else 3
    }
  }

  /** Paths are below the root. */
  datatype Layout = Layout(prefix: string, extension: string, level: nat, partitioning: Partitioning)

  // Paths

  /** A year outside 0..=9999 carries a sign, and as many digits as it takes. */
  function YearText(y: int): string {
    if 0 <= y <= 9999 then Padded(y, 4)
    else
      var n := if y < 0 then -y else y;
      (if y < 0 then "-" else "+") + Padded(n, if Width(n) < 4 then 4 else Width(n))
  }

  function StampText(c: Civil): string {
    YearText(c.year) + Padded(c.month, 2) + Padded(c.day, 2) + "T"
    + Padded(c.hour, 2) + Padded(c.minute, 2) + Padded(c.second, 2) + "Z"
  }

  function FileName(l: Layout, t: int): string {
    l.prefix + "-" + StampText(At(t)) + "." + l.extension
  }

  function DirNames(p: Partitioning, level: nat, c: Civil): seq<string> {
    var bucket := c.minute / BUCKET_MINUTES * BUCKET_MINUTES;
    match p
    case Plain =>
      (if level >= 1 then [YearText(c.year), Padded(c.month, 2), Padded(c.day, 2)] else [])
      + (if level >= 2 then [Padded(c.hour, 2)] else [])
      + (if level >= 3 then [Padded(bucket, 2)] else [])
    case Hive =>
      (if level >= 1 then ["date=" + YearText(c.year) + "-" + Padded(c.month, 2) + "-" + Padded(c.day, 2)] else [])
      + (if level >= 2 then ["hour=" + Padded(c.hour, 2)] else [])
      + (if level >= 3 then ["minute=" + Padded(bucket, 2)] else [])
  }

  function PathFor(l: Layout, t: int): seq<string> {
    DirNames(l.partitioning, l.level, At(t)) + [FileName(l, t)]
  }

  // Reading names

  function StripPrefix(s: string, prefix: string): Option<string> {
    if prefix <= s then Some(s[|prefix|..]) else None
  }

  function StripSuffix(s: string, suffix: string): Option<string> {
    if |suffix| <= |s| && s[|s| - |suffix|..] == suffix then Some(s[..|s| - |suffix|]) else None
  }

  function SplitOnce(s: string, c: char): Option<(string, string)> {
    if s == [] then None
    else if s[0] == c then Some(([], s[1..]))
    else
      match SplitOnce(s[1..], c)
      case None => None
      case Some((before, after)) => Some(([s[0]] + before, after))
  }

  function SplitLast(s: string, c: char): Option<(string, string)> {
    if s == [] then None
    else if s[|s| - 1] == c then Some((s[..|s| - 1], []))
    else
      match SplitLast(s[..|s| - 1], c)
      case None => None
      case Some((before, after)) => Some((before, after + [s[|s| - 1]]))
  }

  /** A window start in a name; a leap second counts as the one before. */
  function ParseStamp(s: string): Option<int>
    requires |s| == STAMP_LEN
  {
    var date, time := s[..8], s[9..15];
    if s[8] == 'T' && s[15] == 'Z' && AllDigits(date) && AllDigits(time) then
      var second := Number(time[4..]);
      var c := Civil(Number(date[..4]), Number(date[4..6]), Number(date[6..]), Number(time[..2]), Number(time[2..4]),
                     if second == 60 then 59 else second);
      if Valid(c) then Some(Timestamp(c)) else None
    else None
  }

  datatype OwnName = OwnName(window: int, temporary: bool)

  /** When the window of a complete file starts, if the name is of the collector's making. */
  function FinalWindow(l: Layout, name: string): Option<int> {
    match StripPrefix(name, l.prefix)
    case None => None
    case Some(afterPrefix) =>
      match StripPrefix(afterPrefix, "-")
      case None => None
      case Some(afterDash) =>
        match StripSuffix(afterDash, l.extension)
        case None => None
        case Some(beforeExtension) =>
          match StripSuffix(beforeExtension, ".")
          case None => None
          case Some(middle) => MiddleWindow(middle)
  }

  /** A stamp, and perhaps a number after a dash. */
  function MiddleWindow(middle: string): Option<int> {
    if |middle| < STAMP_LEN then None
    else
      var stamp, rest := middle[..STAMP_LEN], middle[STAMP_LEN..];
      if rest == [] || (rest[0] == '-' && IsNumber(rest[1..])) then ParseStamp(stamp) else None
  }

  function Unhidden(name: string): Option<string> {
    match StripPrefix(name, ".")
    case None => None
    case Some(s) => StripSuffix(s, ".tmp")
  }

  /** A name of either kind: complete, or hidden and marked as temporary. */
  function Name(l: Layout, name: string): Option<OwnName> {
    match Unhidden(name)
    case Some(tmp) =>
      (match SplitLast(tmp, '.')
       case None => None
       case Some((final, pid)) =>
         if !IsNumber(pid) then None
         else
           match FinalWindow(l, final)
           case None => None
           case Some(t) => Some(OwnName(t, true)))
    case None =>
      match FinalWindow(l, name)
      case None => None
      case Some(t) => Some(OwnName(t, false))
  }

  // Partitions

  function PlainParts(names: seq<string>): (r: Option<seq<int>>)
    ensures r.Some? ==> |r.value| == |names| && forall i :: 0 <= i < |names| ==> r.value[i] >= 0
  {
    if names == [] then Some([])
    else
      var n := |names| - 1;
      match PlainParts(names[..n])
      case None => None
      case Some(ps) =>
        match PartitionNumber(names[n], if n == 0 then 4 else 2)
        case None => None
        case Some(x) => Some(ps + [x])
  }

  /** A date under its key. */
  function HiveDate(name: string): (r: Option<seq<int>>)
    ensures r.Some? ==> |r.value| == 3 && forall i :: 0 <= i < 3 ==> r.value[i] >= 0
  {
    match StripPrefix(name, "date=")
    case None => None
    case Some(date) =>
      match SplitOnce(date, '-')
      case None => None
      case Some((year, rest)) =>
        match SplitOnce(rest, '-')
        case None => None
        case Some((month, day)) =>
          var y, m, d := PartitionNumber(year, 4), PartitionNumber(month, 2), PartitionNumber(day, 2);
          if y.Some? && m.Some? && d.Some? then Some([y.value, m.value, d.value]) else None
  }

  function HivePart(name: string, key: string): Option<nat> {
    match StripPrefix(name, key)
    case None => None
    case Some(value) => PartitionNumber(value, 2)
  }

  /** A date, and below it an hour and a bucket, each under its key. */
  function HiveParts(names: seq<string>): (r: Option<seq<int>>)
    requires 1 <= |names| <= 3
    ensures r.Some? ==> |r.value| == |names| + 2 && forall i :: 0 <= i < |r.value| ==> r.value[i] >= 0
  {
    if |names| == 1 then HiveDate(names[0])
    else
      var n := |names| - 1;
      match HiveParts(names[..n])
      case None => None
      case Some(ps) =>
        match HivePart(names[n], if n == 1 then "hour=" else "minute=")
        case None => None
        case Some(x) => Some(ps + [x])
  }

  function NameParts(p: Partitioning, names: seq<string>): (r: Option<seq<int>>)
    requires 1 <= |names| <= p.MaxDepth()
  {
    if p.Plain? then PlainParts(names) else HiveParts(names)
  }

  /** The period of the partition directory at a path, or none when it is no partition. */
  function PeriodOf(p: Partitioning, names: seq<string>): Option<Period>
    requires names != []
  {
    if |names| > p.MaxDepth() then None
    else
      match NameParts(p, names)
      case None => None
      case Some(ps) => if IsSpan(ps) then Some(Span(ps)) else None
  }

  // The partitions of a tree are spans, one inside another

  lemma PartsGrow(p: Partitioning, names: seq<string>, name: string)
    requires names != [] && |names| < p.MaxDepth() && NameParts(p, names + [name]).Some?
    ensures NameParts(p, names).Some? && NameParts(p, names).value < NameParts(p, names + [name]).value
  {
    assert (names + [name])[..|names|] == names;
  }

  /** A partition inside another covers no time outside it, and what holds it is a partition. */
  lemma PartitionsNest(p: Partitioning, names: seq<string>, name: string, t: int)
    requires names != [] && PeriodOf(p, names + [name]).Some?
    ensures PeriodOf(p, names).Some?
    ensures PeriodOf(p, names + [name]).value.Holds(t) ==> PeriodOf(p, names).value.Holds(t)
  {
    hide NameParts, Span, IsSpan;
    PartsGrow(p, names, name);
    var ps, qs := NameParts(p, names).value, NameParts(p, names + [name]).value;
    NamePartsSize(p, names);
    SpanPrefix(qs, |ps|);
    assert qs[..|ps|] == ps;
    if Span(qs).Holds(t) {
      SpansNest(ps, qs, t);
    }
  }

  lemma NamePartsSize(p: Partitioning, names: seq<string>)
    requires 1 <= |names| <= p.MaxDepth()
    ensures NameParts(p, names).Some? ==>
      |NameParts(p, names).value| == |names| + if p.Plain? then 0 else 2
  {
  }

  /** Partitions side by side cover no time in common. */
  lemma SiblingsApart(p: Partitioning, names: seq<string>, x: string, y: string, t: int)
    requires x != y && PeriodOf(p, names + [x]).Some? && PeriodOf(p, names + [y]).Some?
    ensures !(PeriodOf(p, names + [x]).value.Holds(t) && PeriodOf(p, names + [y]).value.Holds(t))
  {
    hide Span, IsSpan, NameParts;
    var i := PartsDiffer(p, names, x, y);
    SpansApart(NameParts(p, names + [x]).value, NameParts(p, names + [y]).value, i, t);
  }

  lemma PartsDiffer(p: Partitioning, names: seq<string>, x: string, y: string) returns (i: nat)
    requires x != y && |names| < p.MaxDepth()
    requires NameParts(p, names + [x]).Some? && NameParts(p, names + [y]).Some?
    ensures i < |NameParts(p, names + [x]).value| && i < |NameParts(p, names + [y]).value|
    ensures NameParts(p, names + [x]).value[i] != NameParts(p, names + [y]).value[i]
  {
    hide PartitionNumber;
    assert (names + [x])[..|names|] == names && (names + [y])[..|names|] == names;
    if p.Plain? {
      i := |names|;
      if PartitionNumber(x, if i == 0 then 4 else 2) == PartitionNumber(y, if i == 0 then 4 else 2) {
        PartitionNumberIsInjective(x, y, if i == 0 then 4 else 2);
      }
    } else if names == [] {
      i := DatesDiffer(x, y);
    } else {
      i := |names| + 2;
      var key := if |names| == 1 then "hour=" else "minute=";
      assert x == key + x[|key|..] && y == key + y[|key|..];
      if HivePart(x, key) == HivePart(y, key) {
        PartitionNumberIsInjective(x[|key|..], y[|key|..], 2);
      }
    }
  }

  lemma {:induction false} SplitOnceJoins(s: string, c: char)
    requires SplitOnce(s, c).Some?
    ensures s == SplitOnce(s, c).value.0 + [c] + SplitOnce(s, c).value.1
  {
    if s[0] != c {
      SplitOnceJoins(s[1..], c);
      assert s == [s[0]] + s[1..];
    }
  }

  lemma DatesDiffer(x: string, y: string) returns (i: nat)
    requires x != y && HiveDate(x).Some? && HiveDate(y).Some?
    ensures i < 3 && HiveDate(x).value[i] != HiveDate(y).value[i]
  {
    hide PartitionNumber, SplitOnce;
    var (xy, xr) := SplitOnce(x[5..], '-').value;
    var (yy, yr) := SplitOnce(y[5..], '-').value;
    var (xm, xd) := SplitOnce(xr, '-').value;
    var (ym, yd) := SplitOnce(yr, '-').value;
    SplitOnceJoins(x[5..], '-');
    SplitOnceJoins(y[5..], '-');
    SplitOnceJoins(xr, '-');
    SplitOnceJoins(yr, '-');
    assert x == x[..5] + x[5..] && y == y[..5] + y[5..];
    if HiveDate(x).value[0] != HiveDate(y).value[0] {
      i := 0;
    } else if HiveDate(x).value[1] != HiveDate(y).value[1] {
      PartitionNumberIsInjective(xy, yy, 4);
      i := 1;
    } else {
      PartitionNumberIsInjective(xy, yy, 4);
      PartitionNumberIsInjective(xm, ym, 2);
      i := 2;
      if HiveDate(x).value[2] == HiveDate(y).value[2] {
        PartitionNumberIsInjective(xd, yd, 2);
      }
    }
  }

  // The partitions of a window

  /** How deep a level nests its directories. */
  function Depth(p: Partitioning, level: nat): nat {
    if level == 0 then 0
    else
      var n := if level > MAX_PARTITION_LEVEL then MAX_PARTITION_LEVEL else level;
      if p.Plain? then n + 2 else n
  }

  lemma DirNamesDeepen(p: Partitioning, level: nat, c: Civil)
    ensures DirNames(p, level, c) == DirNames(p, MAX_PARTITION_LEVEL, c)[..Depth(p, level)]
  {
    assert |DirNames(p, MAX_PARTITION_LEVEL, c)| == p.MaxDepth();
  }

  /** The directories of a window name the parts of its start. */
  lemma {:induction false} DirParts(p: Partitioning, c: Civil, k: nat)
    requires Valid(c) && 0 <= c.year <= 9999 && 1 <= k <= p.MaxDepth()
    ensures NameParts(p, DirNames(p, MAX_PARTITION_LEVEL, c)[..k]) == Some(Parts(c)[..if p.Plain? then k else k + 2])
  {
    hide PartitionNumber, HiveDate, HivePart, Padded, YearText, Valid;
    var names := DirNames(p, MAX_PARTITION_LEVEL, c);
    assert names[..k][..k - 1] == names[..k - 1];
    PartRead(p, c, k - 1);
    var n := if p.Plain? then k else k + 2;
    assert Parts(c)[..n] == Parts(c)[..n - 1] + [Parts(c)[n - 1]];
    if k > 1 {
      DirParts(p, c, k - 1);
    } else if p.Plain? {
      assert PlainParts([]) == Some([]);
    }
  }

  lemma PartRead(p: Partitioning, c: Civil, i: nat)
    requires Valid(c) && 0 <= c.year <= 9999 && i < p.MaxDepth()
    ensures var name := DirNames(p, MAX_PARTITION_LEVEL, c)[i];
            if p.Plain? then PartitionNumber(name, if i == 0 then 4 else 2) == Some(Parts(c)[i])
            else if i == 0 then HiveDate(name) == Some(Parts(c)[..3])
            else HivePart(name, if i == 1 then "hour=" else "minute=") == Some(Parts(c)[i + 2])
  {
    hide PartitionNumber, HiveDate;
    Pow10Values();
    PartitionNumberPadded(c.year, 4);
    PartitionNumberPadded(c.month, 2);
    PartitionNumberPadded(c.day, 2);
    PartitionNumberPadded(c.hour, 2);
    PartitionNumberPadded(c.minute / BUCKET_MINUTES * BUCKET_MINUTES, 2);
    if p.Hive? && i == 0 {
      DateRead(c);
      assert Parts(c)[..3] == [c.year, c.month, c.day];
    }
  }

  lemma {:induction false} SplitOnceAt(before: string, c: char, after: string)
    requires c !in before
    ensures SplitOnce(before + [c] + after, c) == Some((before, after))
  {
    var s := before + [c] + after;
    if before != [] {
      SplitOnceAt(before[1..], c, after);
      assert s[1..] == before[1..] + [c] + after;
      assert before == [before[0]] + before[1..];
    }
  }

  lemma DateRead(c: Civil)
    requires Valid(c) && 0 <= c.year <= 9999
    ensures HiveDate("date=" + YearText(c.year) + "-" + Padded(c.month, 2) + "-" + Padded(c.day, 2))
         == Some([c.year, c.month, c.day])
  {
    hide PartitionNumber, Padded;
    var y, m, d := Padded(c.year, 4), Padded(c.month, 2), Padded(c.day, 2);
    Pow10Values();
    PartitionNumberPadded(c.year, 4);
    PartitionNumberPadded(c.month, 2);
    PartitionNumberPadded(c.day, 2);
    var rest := m + "-" + d;
    var name := "date=" + y + "-" + m + "-" + d;
    assert name == "date=" + (y + "-" + rest) && name[5..] == y + "-" + rest;
    SplitOnceAt(y, '-', rest);
    SplitOnceAt(m, '-', d);
  }

  /** Every partition on the way to a file holds the start of its window. */
  lemma PartitionsHoldStart(p: Partitioning, level: nat, t: int, k: nat)
    requires 0 <= At(t).year <= 9999 && 1 <= k <= |DirNames(p, level, At(t))|
    ensures PeriodOf(p, DirNames(p, level, At(t))[..k]).Some?
    ensures PeriodOf(p, DirNames(p, level, At(t))[..k]).value.Holds(t)
  {
    hide NameParts, At, Span, IsSpan, DirNames;
    var c, n := At(t), if p.Plain? then k else k + 2;
    DirNamesSize(p, level, c);
    DirNamesSize(p, MAX_PARTITION_LEVEL, c);
    DirNamesDeepen(p, level, c);
    assert DirNames(p, MAX_PARTITION_LEVEL, c)[..Depth(p, level)][..k] == DirNames(p, MAX_PARTITION_LEVEL, c)[..k];
    DirParts(p, c, k);
    PartsAreSpans(c, n);
    SpanHolds(Parts(c)[..n], t);
  }

  lemma DirNamesSize(p: Partitioning, level: nat, c: Civil)
    ensures |DirNames(p, level, c)| == Depth(p, level) <= p.MaxDepth()
  {
  }

  // Windows

  /** The start of the window of a time, a multiple of the interval. */
  function WindowStart(now: int, interval: nat): (w: int)
    requires interval > 0
    ensures w <= now < w + interval
  {
    now / interval * interval
  }

  function LevelPeriod(level: nat): nat {
    if level == 1 then 86_400 else if level == 2 then 3600 else BUCKET_MINUTES * 60
  }

  /** Whether the interval is accepted; without a level there are no partitions. */
  predicate CheckInterval(interval: nat, level: Option<nat>) {
    interval != 0 && (level.Some? ==> LevelPeriod(level.value) % interval == 0)
  }

  predicate LevelOk(level: nat) {
    1 <= level <= 3
  }

  /** The partition holding the files of a level takes the level's period, from a multiple of it on. */
  lemma DeepestPartition(p: Partitioning, level: nat, t: int)
    requires LevelOk(level) && 0 <= At(t).year <= 9999
    ensures var names := DirNames(p, level, At(t));
            && names != [] && PeriodOf(p, names).Some?
            && PeriodOf(p, names).value.start % LevelPeriod(level) == 0
            && PeriodOf(p, names).value.end == PeriodOf(p, names).value.start + LevelPeriod(level)
  {
    hide NameParts, At, DirNames, Span, IsSpan;
    var c := At(t);
    DirNamesSize(p, level, c);
    DirNamesDeepen(p, level, c);
    DirParts(p, c, Depth(p, level));
    PartsAreSpans(c, level + 2);
    SpanSize(Parts(c)[..level + 2]);
  }

  lemma SpanSize(ps: seq<int>)
    requires IsSpan(ps) && |ps| >= 3
    ensures var size := LevelPeriod(|ps| - 2);
            Span(ps).start % size == 0 && Span(ps).end == Span(ps).start + size
  {
    hide Days;
    var c := SpanStart(ps);
    var d := Days(c) - EPOCH_DAYS;
    if |ps| == 3 {
      ModUnique(Timestamp(c), DAY, d, 0);
    } else if |ps| == 4 {
      ModUnique(Timestamp(c), 3600, d * 24 + c.hour, 0);
    } else {
      var b := c.minute / BUCKET_MINUTES;
      assert c.minute == BUCKET_MINUTES * b;
      ModUnique(Timestamp(c), 300, d * 288 + c.hour * 12 + b, 0);
    }
  }

  lemma WindowFits(start: int, size: nat, interval: nat, now: int)
    requires interval > 0 && size > 0 && size % interval == 0 && start % size == 0
    requires start <= WindowStart(now, interval) < start + size
    ensures WindowStart(now, interval) + interval <= start + size
  {
    var q, a, b := now / interval, start / size, size / interval;
    assert size == b * interval;
    assert start == a * size;
    assert start + size == (a + 1) * (b * interval) == ((a + 1) * b) * interval;
    var n := (a + 1) * b;
    assert q * interval < n * interval;
    MulLess(q, n, interval);
    assert (q + 1) * interval <= n * interval by {
      Monotone(q + 1, n, interval);
    }
  }

  lemma MulLess(a: int, b: int, m: nat)
    requires a * m < b * m
    ensures a < b
  {
    if a >= b {
      Monotone(b, a, m);
    }
  }

  lemma DeepestHoldsWindow(p: Partitioning, level: nat, interval: nat, now: int, t: int)
    requires LevelOk(level) && CheckInterval(interval, Some(level))
    requires var w := WindowStart(now, interval); 0 <= At(w).year <= 9999 && w <= t < w + interval
    ensures var names := DirNames(p, level, At(WindowStart(now, interval)));
            names != [] && PeriodOf(p, names).Some? && PeriodOf(p, names).value.Holds(t)
  {
    hide At, DirNames, PeriodOf, WindowStart, LevelPeriod;
    var w := WindowStart(now, interval);
    var names := DirNames(p, level, At(w));
    DeepestPartition(p, level, w);
    assert names[..|names|] == names;
    PartitionsHoldStart(p, level, w, |names|);
    LevelPeriods(level);
    WindowFits(PeriodOf(p, names).value.start, LevelPeriod(level), interval, now);
  }

  lemma LevelPeriods(level: nat)
    ensures LevelPeriod(level) > 0
  {
  }

  /** With an accepted interval, every partition on the way to a file holds the whole of its window. */
  lemma PartitionsHoldWindow(p: Partitioning, level: nat, interval: nat, now: int, k: nat, t: int)
    requires LevelOk(level) && CheckInterval(interval, Some(level))
    requires var w := WindowStart(now, interval);
             && 0 <= At(w).year <= 9999 && 1 <= k <= |DirNames(p, level, At(w))| && w <= t < w + interval
    ensures var names := DirNames(p, level, At(WindowStart(now, interval)));
            PeriodOf(p, names[..k]).Some? && PeriodOf(p, names[..k]).value.Holds(t)
    decreases |DirNames(p, level, At(WindowStart(now, interval)))| - k
  {
    hide At, DirNames, PeriodOf, WindowStart;
    var w := WindowStart(now, interval);
    var names := DirNames(p, level, At(w));
    if k == |names| {
      assert names[..k] == names;
      DeepestHoldsWindow(p, level, interval, now, t);
    } else {
      PartitionsHoldWindow(p, level, interval, now, k + 1, t);
      assert names[..k + 1] == names[..k] + [names[k]];
      PartitionsNest(p, names[..k], names[k], t);
    }
  }

  /** With any other interval some window is not inside its partition. */
  lemma CheckIsNeeded(p: Partitioning, level: nat, interval: nat)
    requires LevelOk(level) && interval > 0 && !CheckInterval(interval, Some(level))
    ensures var now := LevelPeriod(level) - 1;
            var w := WindowStart(now, interval);
            var names := DirNames(p, level, At(w));
            && 0 <= At(w).year <= 9999 && names != [] && PeriodOf(p, names).Some?
            && w <= LevelPeriod(level) < w + interval && !PeriodOf(p, names).value.Holds(LevelPeriod(level))
  {
    hide At, DirNames, PeriodOf;
    var size := LevelPeriod(level);
    var w := WindowStart(size - 1, interval);
    Monotone(0, (size - 1) / interval, interval);
    assert 0 <= w < size;
    if w + interval == size {
      ModUnique(size, interval, (size - 1) / interval + 1, 0);
    }
    FirstYear(w);
    DeepestPartition(p, level, w);
    DirNamesSize(p, level, At(w));
    var names := DirNames(p, level, At(w));
    PartitionsHoldStart(p, level, w, |names|);
    assert names[..|names|] == names;
    ModUnique(PeriodOf(p, names).value.start, size, PeriodOf(p, names).value.start / size, 0);
  }

  /** The first day is in 1970. */
  lemma FirstYear(t: int)
    requires 0 <= t < DAY
    ensures At(t).year == 1970
  {
    hide At, DaysBeforeYear;
    var c := At(t);
    var epoch := Civil(1970, 1, 1, 0, 0, 0);
    Epoch();
    assert Days(c) == Days(epoch);
    DayHolds(c, epoch);
  }
}
