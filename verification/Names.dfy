/** The names a window's file goes by, how they read back, and how they are claimed. */
module Naming {
  import opened Bytes
  import opened Calendar
  import opened Digits
  import opened Layouts
  import opened Sequences

  const MAX_NAME_ATTEMPTS: nat := 1000

  /** Every extension the collector writes has no dot, and none is `tmp`. */
  predicate ExtensionOk(extension: string) {
    '.' !in extension && extension != "tmp"
  }

  const EXTENSIONS: seq<string> := ["ndjson", "csv", "parquet", "arrows", "pb", "discard"]

  lemma KnownExtensionsOk(i: nat)
    requires i < |EXTENSIONS|
    ensures ExtensionOk(EXTENSIONS[i])
  {
  }

  /** A file name before its last dot, unless that leads the name, and what follows with the dot. */
  function StemAndExtension(name: string): (string, string) {
    match SplitLast(name, '.')
    case None => (name, "")
    case Some((stem, extension)) => if stem == "" then (name, "") else (stem, "." + extension)
  }

  /** The n-th name to try. */
  function Candidate(wanted: string, n: nat): string {
    if n == 0 then wanted
    else
      var (stem, extension) := StemAndExtension(wanted);
      stem + "-" + Decimal(n) + extension
  }

  function TempName(final: string, pid: nat): string {
    "." + final + "." + Decimal(pid) + ".tmp"
  }

  // Reading back

  lemma {:induction false} SplitLastAt(before: string, c: char, after: string)
    requires c !in after
    ensures SplitLast(before + [c] + after, c) == Some((before, after))
  {
    var s := before + [c] + after;
    if after == [] {
      assert s[..|s| - 1] == before;
    } else {
      var n := |after| - 1;
      SplitLastAt(before, c, after[..n]);
      assert s[..|s| - 1] == before + [c] + after[..n];
      assert after == after[..n] + [after[n]];
      assert s[|s| - 1] == after[n];
    }
  }

  predicate YearFits(t: int) {
    0 <= At(t).year <= 9999
  }

  lemma Cut(a: string, b: string)
    ensures (a + b)[..|a|] == a && (a + b)[|a|..] == b
  {
  }

  lemma Cut3(a: string, b: string, c: string)
    ensures (a + b + c)[..|a|] == a && (a + b + c)[|a|..|a| + |b|] == b && (a + b + c)[|a| + |b|..] == c
  {
  }

  lemma StampSplits(c: Civil)
    requires 0 <= c.year <= 9999 && 0 <= c.month && 0 <= c.day && 0 <= c.hour && 0 <= c.minute && 0 <= c.second
    ensures var text := StampText(c);
            && |text| == STAMP_LEN && text[8] == 'T' && text[15] == 'Z'
            && text[..8] == Padded(c.year, 4) + Padded(c.month, 2) + Padded(c.day, 2)
            && text[9..15] == Padded(c.hour, 2) + Padded(c.minute, 2) + Padded(c.second, 2)
  {
    hide Padded;
    var date := Padded(c.year, 4) + Padded(c.month, 2) + Padded(c.day, 2);
    var h, i, s := Padded(c.hour, 2), Padded(c.minute, 2), Padded(c.second, 2);
    var a, time := date + "T", h + i + s;
    Regroup(a, h, i);
    Regroup(a, h + i, s);
    var text := a + time + "Z";
    assert StampText(c) == text;
    Cut3(a, time, "Z");
    Cut(date, "T");
    assert text[..9] == a && text[..8] == a[..8] && text[8] == a[8];
    assert text[15] == text[15..][0];
  }

  /** The digits of a stamp, as they are read. */
  lemma StampDigits(c: Civil)
    requires 0 <= c.year <= 9999 && 0 <= c.month < 100 && 0 <= c.day < 100
    requires 0 <= c.hour < 100 && 0 <= c.minute < 100 && 0 <= c.second < 100
    ensures var text := StampText(c);
            && |text| == STAMP_LEN && text[8] == 'T' && text[15] == 'Z'
            && var date, time := text[..8], text[9..15];
            && AllDigits(date) && AllDigits(time)
            && Number(date[..4]) == c.year && Number(date[4..6]) == c.month && Number(date[6..]) == c.day
            && Number(time[..2]) == c.hour && Number(time[2..4]) == c.minute && Number(time[4..]) == c.second
  {
    hide Padded, Number, StampText;
    StampSplits(c);
    Cut3(Padded(c.year, 4), Padded(c.month, 2), Padded(c.day, 2));
    Cut3(Padded(c.hour, 2), Padded(c.minute, 2), Padded(c.second, 2));
    Pow10Values();
    NumberPadded(c.year, 4);
    NumberPadded(c.month, 2);
    NumberPadded(c.day, 2);
    NumberPadded(c.hour, 2);
    NumberPadded(c.minute, 2);
    NumberPadded(c.second, 2);
  }

  /** A stamp is read back to its time. */
  lemma StampReadsBack(t: int)
    requires YearFits(t)
    ensures |StampText(At(t))| == STAMP_LEN && ParseStamp(StampText(At(t))) == Some(t)
  {
    hide At, Timestamp, Number, StampText;
    StampDigits(At(t));
  }

  /** A stamp of another year is no stamp of a name. */
  lemma LongStampIsNone(t: int, rest: string)
    requires !YearFits(t)
    ensures MiddleWindow(StampText(At(t)) + rest) == None
  {
    hide At, Padded;
    var text := StampText(At(t)) + rest;
    assert YearText(At(t).year)[0] == '+' || YearText(At(t).year)[0] == '-';
    assert text[0] == YearText(At(t).year)[0];
    assert !IsDigit(text[0]);
    if |text| >= STAMP_LEN {
      assert text[..STAMP_LEN][..8][0] == text[0];
    }
  }

  lemma FinalParts(l: Layout, middle: string)
    ensures FinalWindow(l, l.prefix + "-" + middle + "." + l.extension) == MiddleWindow(middle)
  {
    hide MiddleWindow;
    var name := l.prefix + "-" + middle + "." + l.extension;
    var afterPrefix := "-" + middle + "." + l.extension;
    assert name == l.prefix + afterPrefix && name[|l.prefix|..] == afterPrefix;
    var afterDash := middle + "." + l.extension;
    assert afterPrefix == "-" + afterDash && afterPrefix[1..] == afterDash;
    assert afterDash == (middle + ".") + l.extension;
    assert afterDash[|afterDash| - |l.extension|..] == l.extension;
    assert afterDash[..|afterDash| - |l.extension|] == middle + ".";
    assert (middle + ".")[..|middle|] == middle && (middle + ".")[|middle|..] == ".";
  }

  /** What follows the stamp in the n-th name. */
  function Suffix(n: nat): string {
    if n == 0 then "" else "-" + Decimal(n)
  }

  lemma StemCandidate(stem: string, extension: string, n: nat)
    requires ExtensionOk(extension) && stem != ""
    ensures Candidate(stem + "." + extension, n) == stem + Suffix(n) + "." + extension
  {
    hide Decimal;
    assert stem + "." + extension == stem + ['.'] + extension;
    SplitLastAt(stem, '.', extension);
    assert stem + "" == stem;
    if n > 0 {
      assert stem + "-" + Decimal(n) == stem + Suffix(n);
      assert stem + Suffix(n) + "." + extension == stem + Suffix(n) + ("." + extension);
    }
  }

  /** A dot that leads a name begins no extension. */
  lemma LeadingDot(name: string, n: nat)
    requires '.' !in name && n > 0
    ensures Candidate("." + name, n) == "." + name + "-" + Decimal(n)
  {
    hide Decimal;
    assert [] + ['.'] + name == "." + name;
    SplitLastAt([], '.', name);
    assert "." + name + "-" + Decimal(n) + "" == "." + name + "-" + Decimal(n);
  }

  lemma CandidateParts(l: Layout, t: int, n: nat)
    requires ExtensionOk(l.extension)
    ensures Candidate(FileName(l, t), n) == l.prefix + "-" + (StampText(At(t)) + Suffix(n)) + "." + l.extension
  {
    hide At, StampText, Candidate, Suffix;
    var stem := l.prefix + "-" + StampText(At(t));
    StemCandidate(stem, l.extension, n);
    assert stem + Suffix(n) == l.prefix + "-" + (StampText(At(t)) + Suffix(n));
  }

  /** Neither a final name nor a numbered one passes for a temporary one. */
  lemma NotTemporary(name: string, extension: string, stem: string)
    requires ExtensionOk(extension) && name == stem + "." + extension
    ensures Unhidden(name) == None
  {
    if Unhidden(name).Some? {
      var s := name[1..];
      assert name[|name| - 4..] == ".tmp" by {
        assert name[|name| - 4..] == s[|s| - 4..];
      }
      DotBefore(name, stem, extension);
    }
  }

  lemma DotBefore(name: string, stem: string, extension: string)
    requires ExtensionOk(extension) && name == stem + "." + extension && |name| >= 4
    ensures name[|name| - 4..] != ".tmp"
  {
    var tail := name[|name| - 4..];
    if tail == ".tmp" {
      assert name == name[..|name| - 4] + "." + "tmp";
      SplitLastAt(stem, '.', extension);
      SplitLastAt(name[..|name| - 4], '.', "tmp");
    }
  }

  /** Every name tried for a window reads back to it, as complete, exactly when its year has four digits. */
  lemma CandidateReadsBack(l: Layout, t: int, n: nat)
    requires ExtensionOk(l.extension)
    ensures Name(l, Candidate(FileName(l, t), n)) == if YearFits(t) then Some(OwnName(t, false)) else None
  {
    hide At, StampText, MiddleWindow, Unhidden, YearFits;
    var middle := StampText(At(t)) + Suffix(n);
    var name := Candidate(FileName(l, t), n);
    CandidateParts(l, t, n);
    NotTemporary(name, l.extension, l.prefix + "-" + middle);
    FinalParts(l, middle);
    MiddleReadsBack(t, n);
  }

  lemma MiddleReadsBack(t: int, n: nat)
    ensures MiddleWindow(StampText(At(t)) + Suffix(n)) == if YearFits(t) then Some(t) else None
  {
    hide At, StampText, ParseStamp, Decimal;
    if YearFits(t) {
      StampReadsBack(t);
      var middle := StampText(At(t)) + Suffix(n);
      assert middle[..STAMP_LEN] == StampText(At(t)) && middle[STAMP_LEN..] == Suffix(n);
      if n > 0 {
        assert Suffix(n)[1..] == Decimal(n);
      }
    } else {
      LongStampIsNone(t, Suffix(n));
    }
  }

  /** The name a window's file is written under reads back to the window, as temporary. */
  lemma TempReadsBack(l: Layout, t: int, pid: nat)
    requires ExtensionOk(l.extension)
    ensures Name(l, TempName(FileName(l, t), pid)) == if YearFits(t) then Some(OwnName(t, true)) else None
  {
    hide At, StampText, MiddleWindow, FinalWindow, YearFits, Decimal;
    var final, name := FileName(l, t), TempName(FileName(l, t), pid);
    var tmp := final + "." + Decimal(pid);
    assert name == "." + (tmp + ".tmp") && name[1..] == tmp + ".tmp";
    assert (tmp + ".tmp")[..|tmp|] == tmp && (tmp + ".tmp")[|tmp|..] == ".tmp";
    assert forall i :: 0 <= i < |Decimal(pid)| ==> IsDigit(Decimal(pid)[i]);
    assert '.' !in Decimal(pid);
    SplitLastAt(final, '.', Decimal(pid));
    assert StampText(At(t)) + Suffix(0) == StampText(At(t));
    FinalParts(l, StampText(At(t)));
    MiddleReadsBack(t, 0);
  }

  /** The names tried for a file all differ. */
  lemma CandidatesDiffer(l: Layout, t: int, m: nat, n: nat)
    requires ExtensionOk(l.extension) && m < n
    ensures Candidate(FileName(l, t), m) != Candidate(FileName(l, t), n)
  {
    hide At, StampText, Candidate, Suffix;
    var stem := l.prefix + "-" + StampText(At(t));
    StemCandidate(stem, l.extension, m);
    StemCandidate(stem, l.extension, n);
    SuffixesDiffer(m, n);
    assert stem + Suffix(m) + "." + l.extension == stem + Suffix(m) + ("." + l.extension);
    assert stem + Suffix(n) + "." + l.extension == stem + Suffix(n) + ("." + l.extension);
    Middle(stem, Suffix(m), "." + l.extension);
    Middle(stem, Suffix(n), "." + l.extension);
  }

  lemma SuffixesDiffer(m: nat, n: nat)
    requires m < n
    ensures Suffix(m) != Suffix(n)
  {
    hide Decimal;
    DecimalIsInjective(m, n);
    assert Suffix(n)[1..] == Decimal(n);
    assert m > 0 ==> Suffix(m)[1..] == Decimal(m);
  }

  lemma Middle(a: string, b: string, c: string)
    ensures (a + b + c)[|a|..|a + b + c| - |c|] == b
  {
  }
}
