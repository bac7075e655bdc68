/** Unix timestamps, civil dates and times, and the spans of time that begin one. */
module Calendar {
  import opened Bytes

  predicate IsLeap(y: int) {
    y % 4 == 0 && (y % 100 != 0 || y % 400 == 0)
  }

  function DaysIn(y: int, m: nat): (n: nat)
    requires 1 <= m <= 12
    ensures 28 <= n <= 31
  {
    if m == 2 then (if IsLeap(y) then 29 else 28)
    else if m == 4 || m == 6 || m == 9 || m == 11 then 30
    else 31
  }

  /** Days from 1 January of year 0, in the Gregorian calendar kept up forever, both ways. */
  function DaysBeforeYear(y: int): int {
    365 * y + (y + 3) / 4 - (y + 99) / 100 + (y + 399) / 400
  }

  function DaysBeforeMonth(y: int, m: nat): nat
    requires 1 <= m <= 13
  {
    if m == 1 then 0 else DaysBeforeMonth(y, m - 1) + DaysIn(y, m - 1)
  }

  datatype Civil = Civil(year: int, month: nat, day: nat, hour: nat, minute: nat, second: nat)

  predicate Valid(c: Civil) {
    && 1 <= c.month <= 12 && 1 <= c.day <= DaysIn(c.year, c.month)
    && c.hour < 24 && c.minute < 60 && c.second < 60
  }

  const EPOCH_DAYS: nat := 719_528
  const DAY: nat := 86_400

  function Days(c: Civil): int
    requires Valid(c)
  {
    DaysBeforeYear(c.year) + DaysBeforeMonth(c.year, c.month) + c.day - 1
  }

  function Timestamp(c: Civil): int
    requires Valid(c)
  {
    (Days(c) - EPOCH_DAYS) * DAY + c.hour * 3600 + c.minute * 60 + c.second
  }

  lemma Epoch()
    ensures Timestamp(Civil(1970, 1, 1, 0, 0, 0)) == 0
  {
  }

  lemma YearLength(y: int)
    ensures DaysBeforeYear(y + 1) == DaysBeforeYear(y) + if IsLeap(y) then 366 else 365
  {
    CeilingStep(y, 4);
    CeilingStep(y, 100);
    CeilingStep(y, 400);
    if y % 400 == 0 {
      ModUnique(y, 100, 4 * (y / 400), 0);
    }
    if y % 100 == 0 {
      ModUnique(y, 4, 25 * (y / 100), 0);
    }
  }

  lemma {:induction false} YearsGrow(x: int, y: int)
    requires x < y
    ensures DaysBeforeYear(x + 1) <= DaysBeforeYear(y)
    decreases y - x
  {
    if x + 1 < y {
      YearsGrow(x + 1, y);
      YearLength(x + 1);
    }
  }

  lemma {:induction false} MonthsGrow(y: int, m: nat, n: nat)
    requires 1 <= m < n <= 13
    ensures DaysBeforeMonth(y, m + 1) <= DaysBeforeMonth(y, n)
    decreases n
  {
    if m + 1 < n {
      MonthsGrow(y, m, n - 1);
    }
  }

  lemma MonthsOfYear(y: int)
    ensures DaysBeforeYear(y) + DaysBeforeMonth(y, 13) == DaysBeforeYear(y + 1)
  {
    hide DaysBeforeYear;
    YearLength(y);
    var february := DaysIn(y, 2);
    assert DaysBeforeMonth(y, 2) == 31;
    assert DaysBeforeMonth(y, 3) == 31 + february;
    assert DaysBeforeMonth(y, 5) == 92 + february;
    assert DaysBeforeMonth(y, 7) == 153 + february;
    assert DaysBeforeMonth(y, 9) == 215 + february;
    assert DaysBeforeMonth(y, 11) == 276 + february;
    assert DaysBeforeMonth(y, 13) == 337 + february;
  }

  /** How many days of a common year come before each month, and before the next year. */
  const MONTH_STARTS: seq<nat> := [0, 31, 59, 90, 120, 151, 181, 212, 243, 273, 304, 334, 365]

  /** And of a leap year, one more from March on. */
  lemma {:induction false} MonthStarts(y: int, m: nat)
    requires 1 <= m <= 13
    ensures DaysBeforeMonth(y, m) == MONTH_STARTS[m - 1] + if IsLeap(y) && m > 2 then 1 else 0
    decreases m
  {
    if m > 1 {
      MonthStarts(y, m - 1);
    }
  }

  // From a timestamp to its date and time

  lemma Centuries(days: int)
    ensures DaysBeforeYear(days / 146_097 * 400) == days / 146_097 * 146_097 <= days
  {
    var n := days / 146_097;
    assert (n * 400 + 3) / 4 == n * 100;
    assert (n * 400 + 99) / 100 == n * 4;
    assert (n * 400 + 399) / 400 == n;
  }

  function YearFrom(days: int, y: int): (r: int)
    requires DaysBeforeYear(y) <= days
    ensures DaysBeforeYear(r) <= days < DaysBeforeYear(r + 1)
    decreases days - DaysBeforeYear(y)
  {
    if days < DaysBeforeYear(y + 1) then y else YearFrom(days, y + 1)
  }

  function MonthFrom(y: int, day: nat, m: nat): (r: nat)
    requires 1 <= m <= 12 && DaysBeforeMonth(y, m) <= day < DaysBeforeMonth(y, 13)
    ensures m <= r <= 12 && DaysBeforeMonth(y, r) <= day < DaysBeforeMonth(y, r + 1)
    decreases 12 - m
  {
    if day < DaysBeforeMonth(y, m + 1) then m else MonthFrom(y, day, m + 1)
  }

  /** The date and time at a timestamp. */
  function At(t: int): (c: Civil)
    ensures Valid(c) && Timestamp(c) == t
  {
    var days, s := t / DAY + EPOCH_DAYS, t % DAY;
    Centuries(days);
    var y := YearFrom(days, days / 146_097 * 400);
    MonthsOfYear(y);
    var m := MonthFrom(y, days - DaysBeforeYear(y), 1);
    var c := Civil(y, m, days - DaysBeforeYear(y) - DaysBeforeMonth(y, m) + 1, s / 3600, s / 60 % 60, s % 60);
    TimeOfDay(c, days, t);
    c
  }

  lemma TimeOfDay(c: Civil, days: int, t: int)
    requires 1 <= c.month <= 12 && 1 <= c.day <= DaysIn(c.year, c.month)
    requires DaysBeforeYear(c.year) + DaysBeforeMonth(c.year, c.month) + c.day - 1 == days == t / DAY + EPOCH_DAYS
    requires c.hour == t % DAY / 3600 && c.minute == t % DAY / 60 % 60 && c.second == t % DAY % 60
    ensures Valid(c) && Timestamp(c) == t
  {
    hide DaysBeforeYear, DaysBeforeMonth;
  }

  // Years, months and days as stretches of days

  lemma YearHolds(c: Civil, y: int)
    requires Valid(c)
    ensures DaysBeforeYear(y) <= Days(c) < DaysBeforeYear(y + 1) <==> c.year == y
  {
    hide DaysBeforeYear;
    MonthsOfYear(c.year);
    MonthsGrow(c.year, c.month, 13);
    if c.year < y {
      YearsGrow(c.year, y);
    } else if y < c.year {
      YearsGrow(y, c.year);
    }
  }

  lemma MonthHolds(c: Civil, y: int, m: nat)
    requires Valid(c) && 1 <= m <= 12
    ensures DaysBeforeYear(y) + DaysBeforeMonth(y, m) <= Days(c) < DaysBeforeYear(y) + DaysBeforeMonth(y, m + 1)
            <==> c.year == y && c.month == m
  {
    hide DaysBeforeYear;
    YearHolds(c, y);
    MonthsOfYear(y);
    if m < 12 {
      MonthsGrow(y, m, 13);
    }
    if c.year == y {
      if c.month < m {
        MonthsGrow(y, c.month, m);
      } else if m < c.month {
        MonthsGrow(y, m, c.month);
      }
    }
  }

  lemma DayHolds(c: Civil, d: Civil)
    requires Valid(c) && Valid(d)
    ensures Days(c) == Days(d) <==> c.year == d.year && c.month == d.month && c.day == d.day
  {
    hide DaysBeforeYear;
    MonthHolds(c, d.year, d.month);
  }

  /** A timestamp is the time of one date and time only. */
  lemma AtTimestamp(c: Civil)
    requires Valid(c)
    ensures At(Timestamp(c)) == c
  {
    hide DaysBeforeYear, At, Days;
    var d := At(Timestamp(c));
    assert Days(c) == Days(d);
    DayHolds(c, d);
  }

  // Spans

  /** The time from `start` on and before `end`. */
  datatype Period = Period(start: int, end: int) {
    predicate Holds(t: int) {
      start <= t < end
    }
  }

  const BUCKET_MINUTES: nat := 5

  /** The year, month, day, hour and bucket of a date and time. */
  function Parts(c: Civil): (ps: seq<int>)
    ensures |ps| == 5
  {
    [c.year, c.month, c.day, c.hour, c.minute / BUCKET_MINUTES * BUCKET_MINUTES]
  }

  function Part(ps: seq<int>, i: nat, default: int): int {
    if i < |ps| then ps[i] else default
  }

  /** The start of the span its parts name, later parts at their least. */
  function SpanStart(ps: seq<int>): Civil
    requires forall i :: 0 < i < |ps| ==> ps[i] >= 0
  {
    Civil(Part(ps, 0, 1970), Part(ps, 1, 1), Part(ps, 2, 1), Part(ps, 3, 0), Part(ps, 4, 0), 0)
  }

  predicate IsSpan(ps: seq<int>) {
    && 1 <= |ps| <= 5
    && (forall i :: 0 < i < |ps| ==> ps[i] >= 0)
    && (|ps| == 5 ==> ps[4] % BUCKET_MINUTES == 0)
    && Valid(SpanStart(ps))
  }

  /** The time a year, month, day, hour or bucket takes. */
  function Span(ps: seq<int>): Period
    requires IsSpan(ps)
  {
    var c := SpanStart(ps);
    var start := Timestamp(c);
    var end :=
      if |ps| == 1 then Timestamp(c.(year := c.year + 1))
      else if |ps| == 2 then
        Timestamp(if c.month == 12 then c.(year := c.year + 1, month := 1) else c.(month := c.month + 1))
      else if |ps| == 3 then start + DAY
      else if |ps| == 4 then start + 3600
      else start + BUCKET_MINUTES * 60;
    Period(start, end)
  }

  /** A span holds exactly the times whose parts it names. */
  lemma SpanHolds(ps: seq<int>, t: int)
    requires IsSpan(ps)
    ensures Span(ps).Holds(t) <==> ps <= Parts(At(t))
  {
    hide DaysBeforeYear, At, Days;
    var c := At(t);
    if |ps| == 1 {
      DateSpan(ps, c);
      YearHolds(c, ps[0]);
    } else if |ps| == 2 {
      DateSpan(ps, c);
      MonthHolds(c, ps[0], ps[1]);
    } else {
      DayHolds(c, SpanStart(ps));
      TimeSpan(ps, c);
    }
  }

  lemma DateSpan(ps: seq<int>, c: Civil)
    requires IsSpan(ps) && |ps| <= 2 && Valid(c)
    ensures Span(ps).Holds(Timestamp(c)) <==>
            DaysBeforeYear(ps[0]) + (if |ps| == 1 then 0 else DaysBeforeMonth(ps[0], ps[1]))
            <= Days(c)
            < if |ps| == 1 then DaysBeforeYear(ps[0] + 1) else DaysBeforeYear(ps[0]) + DaysBeforeMonth(ps[0], ps[1] + 1)
  {
    hide DaysBeforeYear;
    MonthsOfYear(ps[0]);
  }

  lemma TimeSpan(ps: seq<int>, c: Civil)
    requires IsSpan(ps) && |ps| >= 3 && Valid(c)
    ensures Span(ps).Holds(Timestamp(c)) <==>
            Days(c) == Days(SpanStart(ps)) && (|ps| >= 4 ==> c.hour == ps[3])
            && (|ps| == 5 ==> c.minute / BUCKET_MINUTES * BUCKET_MINUTES == ps[4])
  {
    hide Days;
    var x, s := Days(c) - Days(SpanStart(ps)), SpanStart(ps);
    assert Timestamp(c) - Timestamp(s)
        == x * DAY + (c.hour - s.hour) * 3600 + (c.minute - s.minute) * 60 + c.second;
  }

  /** Every span of parts that begin another holds it. */
  lemma SpansNest(ps: seq<int>, qs: seq<int>, t: int)
    requires IsSpan(ps) && IsSpan(qs) && ps <= qs && Span(qs).Holds(t)
    ensures Span(ps).Holds(t)
  {
    SpanHolds(ps, t);
    SpanHolds(qs, t);
  }

  /** Spans whose parts differ somewhere share no time. */
  lemma SpansApart(ps: seq<int>, qs: seq<int>, i: nat, t: int)
    requires IsSpan(ps) && IsSpan(qs) && i < |ps| && i < |qs| && ps[i] != qs[i]
    ensures !(Span(ps).Holds(t) && Span(qs).Holds(t))
  {
    SpanHolds(ps, t);
    SpanHolds(qs, t);
  }

  /** The first parts of any date and time name a span. */
  lemma PartsAreSpans(c: Civil, n: nat)
    requires Valid(c) && 1 <= n <= 5
    ensures IsSpan(Parts(c)[..n])
  {
    var ps := Parts(c)[..n];
    assert forall i :: 0 < i < |ps| ==> ps[i] == Parts(c)[i];
  }

  /** So do the first parts of a span. */
  lemma SpanPrefix(ps: seq<int>, n: nat)
    requires IsSpan(ps) && 1 <= n <= |ps|
    ensures IsSpan(ps[..n])
  {
    var qs := ps[..n];
    assert forall i :: 0 <= i < n ==> qs[i] == ps[i];
  }
}
