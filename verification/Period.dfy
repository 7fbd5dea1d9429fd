/**
 Budget periods on the proleptic Gregorian calendar, as Go's `time` package
 keeps it.  An instant is a number of nanoseconds since 0001-01-01T00:00Z; a day
 number counts days from the same origin, which was a Monday.
 */
module Period {
  const HOUR: int := 3_600_000_000_000
  const DAY: int := 24 * HOUR

  // ------------------------------------------------------------------ calendar

  predicate IsLeap(y: int) {
    y % 4 == 0 && (y % 100 != 0 || y % 400 == 0)
  }

  function LeapDay(y: int): int { if IsLeap(y) then 1 else 0 }

  function DaysBeforeYear(y: int): int {
    365 * (y - 1) + (y - 1) / 4 - (y - 1) / 100 + (y - 1) / 400
  }

  /** Days of a year before the first of month `m`, where 13 stands for the end of the year. */
  function DaysBeforeMonth(y: int, m: int): int
    requires 1 <= m <= 13
  {
    var before := [0, 31, 59, 90, 120, 151, 181, 212, 243, 273, 304, 334, 365];
    before[m - 1] + (if m > 2 then LeapDay(y) else 0)
  }

  /** Day number of a date; months and days out of range carry over, as in `time.Date`. */
  function DayNumber(y: int, m: int, d: int): int {
    var y', m' := y + (m - 1) / 12, (m - 1) % 12 + 1;
    DaysBeforeYear(y') + DaysBeforeMonth(y', m') + d - 1
  }

  /** Year of a day number, by cycles of 400, 100, 4 and 1 years. */
  function YearOf(n: int): int {
    var r400 := n % 146097;
    var n100 := if r400 / 36524 > 3 then 3 else r400 / 36524;
    var r100 := r400 - 36524 * n100;
    var r4 := r100 % 1461;
    var n1 := if r4 / 365 > 3 then 3 else r4 / 365;
    400 * (n / 146097) + 100 * n100 + 4 * (r100 / 1461) + n1 + 1
  }

  function DayOfYear(n: int): int { n - DaysBeforeYear(YearOf(n)) }

  /** Last month that starts on or before day `yday` of the year. */
  function MonthFrom(y: int, yday: int, m: int): int
    requires 1 <= m <= 12
    decreases m
  {
    if m == 1 || DaysBeforeMonth(y, m) <= yday then m else MonthFrom(y, yday, m - 1)
  }

  function MonthOf(n: int): int { MonthFrom(YearOf(n), DayOfYear(n), 12) }

  function DayOf(n: int): int { DayOfYear(n) - DaysBeforeMonth(YearOf(n), MonthOf(n)) + 1 }

  /** Go's weekday: Sunday is 0, Monday 1. */
  function Weekday(n: int): int { (n + 1) % 7 }

  function Date(y: int, m: int, d: int, hour: int): int {
    DayNumber(y, m, d) * DAY + hour * HOUR
  }

  /** `Time.AddDate` on an instant at a full hour. */
  function AddDate(t: int, months: int, days: int): int {
    var n := t / DAY;
    Date(YearOf(n), MonthOf(n) + months, DayOf(n) + days, t % DAY / HOUR)
  }

  // -------------------------------------------------------------- PeriodBounds

  datatype Bounds = Bounds(start: int, end: int)

  function PeriodBounds(period: string, t: int): Bounds {
    var n := t / DAY;
    var y, m, d := YearOf(n), MonthOf(n), DayOf(n);
    if period == "hourly" then
      var start := Date(y, m, d, t % DAY / HOUR);
      Bounds(start, start + HOUR)
    else if period == "weekly" then
      var weekday := if Weekday(n) == 0 then 7 else Weekday(n);
      var start := Date(y, m, d - (weekday - 1), 0);
      Bounds(start, AddDate(start, 0, 7))
    else if period == "monthly" then
      var start := Date(y, m, 1, 0);
      Bounds(start, AddDate(start, 1, 0))
    else
      var start := Date(y, m, d, 0);
      Bounds(start, AddDate(start, 0, 1))
  }

  // ------------------------------------------------------------ calendar facts

  lemma Step4(y: int)
    ensures y / 4 - (y - 1) / 4 == if y % 4 == 0 then 1 else 0
  {
  }

  lemma Parts4(y: int, q: int, r: int)
    requires y == 4 * q + r && 0 <= r < 4
    ensures y / 4 == q && y % 4 == r
  {
  }

  lemma Parts100(y: int, q: int, r: int)
    requires y == 100 * q + r && 0 <= r < 100
    ensures y / 100 == q && y % 100 == r
  {
  }

  lemma Parts400(y: int, q: int, r: int)
    requires y == 400 * q + r && 0 <= r < 400
    ensures y / 400 == q && y % 400 == r
  {
  }

  lemma Step100(y: int)
    ensures y / 100 - (y - 1) / 100 == if y % 100 == 0 then 1 else 0
    ensures y % 100 == 0 ==> y % 4 == 0
  {
    var q, r := y / 100, y % 100;
    if r == 0 {
      Parts100(y - 1, q - 1, 99);
      Parts4(y, 25 * q, 0);
    } else {
      Parts100(y - 1, q, r - 1);
    }
  }

  lemma Step400(y: int)
    ensures y / 400 - (y - 1) / 400 == if y % 400 == 0 then 1 else 0
    ensures y % 400 == 0 ==> y % 100 == 0
  {
    var q, r := y / 400, y % 400;
    if r == 0 {
      Parts400(y - 1, q - 1, 399);
      Parts100(y, 4 * q, 0);
    } else {
      Parts400(y - 1, q, r - 1);
    }
  }

  lemma YearLength(y: int)
    ensures DaysBeforeYear(y + 1) == DaysBeforeYear(y) + 365 + LeapDay(y)
  {
    Step4(y);
    Step100(y);
    Step400(y);
  }

  /** The days before a year, from its place in the 400-, 100- and 4-year cycles. */
  lemma YearParts(a: int, b: int, c: int, d: int)
    requires 0 <= b <= 3 && 0 <= c <= 24 && 0 <= d <= 3
    ensures DaysBeforeYear(400 * a + 100 * b + 4 * c + d + 1) == 146097 * a + 36524 * b + 1461 * c + 365 * d
  {
    var z := 400 * a + 100 * b + 4 * c + d;
    assert z / 400 == a;
    assert z / 100 == 4 * a + b;
    assert z / 4 == 100 * a + 25 * b + c;
  }

  lemma LeapParts(a: int, b: int, c: int, d: int)
    requires 0 <= b <= 3 && 0 <= c <= 24 && 0 <= d <= 3
    ensures d == 3 && !(c == 24 && b < 3) ==> IsLeap(400 * a + 100 * b + 4 * c + d + 1)
  {
    var y := 400 * a + 100 * b + 4 * c + d + 1;
    if d == 3 {
      Parts4(y, 100 * a + 25 * b + c + 1, 0);
      if c < 24 { Parts100(y, 4 * a + b, 4 * c + 4); }
      if c == 24 && b == 3 { Parts400(y, a + 1, 0); }
    }
  }

  /** A day number as whole cycles of 400, 100, 4 and 1 years and the day of its year. */
  lemma Cycles(n: int) returns (a: int, b: int, c: int, d: int)
    ensures 0 <= b <= 3 && 0 <= c <= 24 && 0 <= d <= 3 && YearOf(n) == 400 * a + 100 * b + 4 * c + d + 1
    ensures var r := n - (146097 * a + 36524 * b + 1461 * c + 365 * d);
            0 <= r <= 365 && (r == 365 ==> d == 3 && !(c == 24 && b < 3))
  {
    var r400 := n % 146097;
    a, b := n / 146097, if r400 / 36524 > 3 then 3 else r400 / 36524;
    var r100 := r400 - 36524 * b;
    assert 0 <= r100 <= 36524 && (b < 3 ==> r100 < 36524);
    var r4 := r100 % 1461;
    c, d := r100 / 1461, if r4 / 365 > 3 then 3 else r4 / 365;
    assert 0 <= c <= 24;
  }

  lemma YearBounds(n: int)
    ensures DaysBeforeYear(YearOf(n)) <= n < DaysBeforeYear(YearOf(n) + 1)
  {
    var a, b, c, d := Cycles(n);
    YearParts(a, b, c, d);
    LeapParts(a, b, c, d);
    YearLength(YearOf(n));
  }

  lemma {:induction false} YearsAscend(y: int, z: int)
    requires y <= z
    ensures DaysBeforeYear(y) + 365 * (z - y) <= DaysBeforeYear(z)
    decreases z - y
  {
    if y < z {
      YearLength(y);
      YearsAscend(y + 1, z);
    }
  }

  lemma YearUnique(n: int, y: int)
    requires DaysBeforeYear(y) <= n < DaysBeforeYear(y + 1)
    ensures YearOf(n) == y
  {
    YearBounds(n);
    if YearOf(n) < y {
      YearsAscend(YearOf(n) + 1, y);
    } else if YearOf(n) > y {
      YearsAscend(y + 1, YearOf(n));
    }
  }

  lemma {:induction false} MonthBounds(y: int, yday: int, m: int)
    requires 1 <= m <= 12 && 0 <= yday < DaysBeforeMonth(y, m + 1)
    ensures var k := MonthFrom(y, yday, m);
            1 <= k <= m && DaysBeforeMonth(y, k) <= yday < DaysBeforeMonth(y, k + 1)
  {
    if m > 1 && DaysBeforeMonth(y, m) > yday { MonthBounds(y, yday, m - 1); }
  }

  lemma {:induction false} MonthUnique(y: int, yday: int, m: int, k: int)
    requires 1 <= k <= m <= 12
    requires DaysBeforeMonth(y, k) <= yday < DaysBeforeMonth(y, k + 1)
    ensures MonthFrom(y, yday, m) == k
  {
    if k < m {
      MonthUnique(y, yday, m - 1, k);
    }
  }

  lemma DayNumberIn(y: int, m: int, d: int)
    requires 1 <= m <= 13
    ensures DayNumber(y, m, d) == DaysBeforeYear(y) + DaysBeforeMonth(y, m) + d - 1
  {
    if m == 13 { YearLength(y); }
  }

  lemma YearEnds(y: int)
    ensures DaysBeforeMonth(y, 1) == 0 && DaysBeforeMonth(y, 13) == 365 + LeapDay(y)
  {
  }

  /** The date of a day number leads back to it. */
  lemma DateOfDay(n: int)
    ensures 1 <= MonthOf(n) <= 12
    ensures DaysBeforeMonth(YearOf(n), MonthOf(n)) <= DayOfYear(n) < DaysBeforeMonth(YearOf(n), MonthOf(n) + 1)
    ensures DayNumber(YearOf(n), MonthOf(n), DayOf(n)) == n
  {
    YearBounds(n);
    YearLength(YearOf(n));
    YearEnds(YearOf(n));
    MonthBounds(YearOf(n), DayOfYear(n), 12);
    DayNumberIn(YearOf(n), MonthOf(n), DayOf(n));
  }

  lemma MonthDays(y: int, m: int)
    requires 1 <= m <= 12
    ensures 28 <= DaysBeforeMonth(y, m + 1) - DaysBeforeMonth(y, m) <= 31
    ensures 0 <= DaysBeforeMonth(y, m) && DaysBeforeMonth(y, m + 1) <= 365 + LeapDay(y)
  {
  }

  lemma MonthLength(y: int, m: int)
    requires 1 <= m <= 12
    ensures 28 <= DayNumber(y, m + 1, 1) - DayNumber(y, m, 1) <= 31
  {
    DayNumberIn(y, m, 1);
    DayNumberIn(y, m + 1, 1);
    MonthDays(y, m);
  }

  /** Day numbers are linear in the day, whatever month it overflows into. */
  lemma DayShift(y: int, m: int, d: int, k: int)
    ensures DayNumber(y, m, d + k) == DayNumber(y, m, d) + k
  {
  }

  /** The days of a month are exactly those from its first to the next month's first. */
  lemma InMonth(n: int, y: int, m: int)
    requires 1 <= m <= 12
    ensures DayNumber(y, m, 1) <= n < DayNumber(y, m + 1, 1) <==> YearOf(n) == y && MonthOf(n) == m
  {
    DayNumberIn(y, m, 1);
    DayNumberIn(y, m + 1, 1);
    MonthDays(y, m);
    YearLength(y);
    if DayNumber(y, m, 1) <= n < DayNumber(y, m + 1, 1) {
      YearUnique(n, y);
      MonthUnique(y, DayOfYear(n), 12, m);
    }
    DateOfDay(n);
  }

  lemma FirstOfMonth(y: int, m: int)
    requires 1 <= m <= 12
    ensures var n := DayNumber(y, m, 1); YearOf(n) == y && MonthOf(n) == m && DayOf(n) == 1
  {
    MonthLength(y, m);
    InMonth(DayNumber(y, m, 1), y, m);
    DayNumberIn(y, m, 1);
  }

  // --------------------------------------------------------- what the bounds are

  lemma WholeDay(n: int)
    ensures n * DAY / DAY == n && n * DAY % DAY == 0
  {
  }

  lemma ShiftedDate(n: int, k: int)
    ensures Date(YearOf(n), MonthOf(n), DayOf(n) + k, 0) == (n + k) * DAY
  {
    DateOfDay(n);
    DayShift(YearOf(n), MonthOf(n), DayOf(n), k);
  }

  lemma AddDays(n: int, k: int)
    ensures AddDate(n * DAY, 0, k) == (n + k) * DAY
  {
    WholeDay(n);
    ShiftedDate(n, k);
  }

  lemma AddMonth(y: int, m: int)
    requires 1 <= m <= 12
    ensures AddDate(DayNumber(y, m, 1) * DAY, 1, 0) == DayNumber(y, m + 1, 1) * DAY
  {
    WholeDay(DayNumber(y, m, 1));
    FirstOfMonth(y, m);
  }

  lemma HourInDay(t: int)
    ensures t / DAY * DAY + t % DAY / HOUR * HOUR == t / HOUR * HOUR
  {
    var n, r := t / DAY, t % DAY;
    assert t == n * DAY + r;
    assert t / HOUR == 24 * n + r / HOUR;
  }

  /** A period as a span of hours or days. */
  datatype Span = Span(unit: int, first: int, last: int)   // from `first` up to `last` units

  /** Each kind of period in plain arithmetic. */
  function SpanOf(period: string, t: int): Span {
    var n := t / DAY;
    if period == "hourly" then Span(HOUR, t / HOUR, t / HOUR + 1)
    else if period == "weekly" then Span(DAY, n / 7 * 7, n / 7 * 7 + 7)
    else if period == "monthly" then
      Span(DAY, DayNumber(YearOf(n), MonthOf(n), 1), DayNumber(YearOf(n), MonthOf(n) + 1, 1))
    else Span(DAY, n, n + 1)
  }

  function BoundsOf(s: Span): Bounds { Bounds(s.first * s.unit, s.last * s.unit) }

  lemma WeekStart(n: int)
    ensures var weekday := if Weekday(n) == 0 then 7 else Weekday(n); n - (weekday - 1) == n / 7 * 7
    ensures Weekday(n / 7 * 7) == 1
  {
  }

  lemma WeekDate(n: int)
    ensures var weekday := if Weekday(n) == 0 then 7 else Weekday(n);
            Date(YearOf(n), MonthOf(n), DayOf(n) - (weekday - 1), 0) == n / 7 * 7 * DAY
  {
    WeekStart(n);
    ShiftedDate(n, n / 7 * 7 - n);
  }

  lemma WeeklyAre(t: int)
    ensures PeriodBounds("weekly", t) == BoundsOf(SpanOf("weekly", t))
  {
    WeekDate(t / DAY);
    AddDays(t / DAY / 7 * 7, 7);
  }

  lemma MonthlyAre(t: int)
    ensures PeriodBounds("monthly", t) == BoundsOf(SpanOf("monthly", t))
  {
    var n := t / DAY;
    DateOfDay(n);
    AddMonth(YearOf(n), MonthOf(n));
  }

  lemma HourlyAre(t: int)
    ensures PeriodBounds("hourly", t) == BoundsOf(SpanOf("hourly", t))
  {
    DateOfDay(t / DAY);
    HourInDay(t);
  }

  lemma DailyAre(period: string, t: int)
    requires period != "hourly" && period != "weekly" && period != "monthly"
    ensures PeriodBounds(period, t) == BoundsOf(SpanOf(period, t))
  {
    DateOfDay(t / DAY);
    AddDays(t / DAY, 1);
  }

  lemma BoundsAre(period: string, t: int)
    ensures PeriodBounds(period, t) == BoundsOf(SpanOf(period, t))
  {
    if period == "hourly" {
      HourlyAre(t);
    } else if period == "weekly" {
      WeeklyAre(t);
    } else if period == "monthly" {
      MonthlyAre(t);
    } else {
      DailyAre(period, t);
    }
  }

  lemma UnitOfInstant(t: int, unit: int, a: int, b: int)
    requires unit == HOUR || unit == DAY
    ensures a * unit <= t < b * unit <==> a <= t / unit < b
    ensures a * unit / unit == a
  {
  }

  lemma SameWeek(n: int, k: int)
    ensures n / 7 * 7 <= k < n / 7 * 7 + 7 <==> k / 7 * 7 == n / 7 * 7
  {
  }

  lemma SameMonth(k: int, y: int, m: int)
    requires 1 <= m <= 12
    ensures DayNumber(y, m, 1) <= k < DayNumber(y, m + 1, 1) <==>
              && DayNumber(YearOf(k), MonthOf(k), 1) == DayNumber(y, m, 1)
              && DayNumber(YearOf(k), MonthOf(k) + 1, 1) == DayNumber(y, m + 1, 1)
  {
    DateOfDay(k);
    InMonth(k, y, m);
    InMonth(k, YearOf(k), MonthOf(k));
  }

  /** A span holds exactly the instants that have it as their own span. */
  lemma SpanIsShared(period: string, t: int, u: int)
    ensures var s := SpanOf(period, t);
            s.first <= u / s.unit < s.last <==> SpanOf(period, u) == s
  {
    if period == "monthly" {
      MonthlyShared(t, u);
    } else if period == "weekly" {
      SameWeek(t / DAY, u / DAY);
    }
  }

  lemma MonthlyShared(t: int, u: int)
    ensures var s := SpanOf("monthly", t);
            s.first <= u / s.unit < s.last <==> SpanOf("monthly", u) == s
  {
    var n := t / DAY;
    DateOfDay(n);
    SameMonth(u / DAY, YearOf(n), MonthOf(n));
    assert SpanOf("monthly", u).unit == SpanOf("monthly", t).unit == DAY;
  }

  /** The first of the next month starts its own month, also over the end of the year. */
  lemma NextMonthStarts(y: int, m: int)
    requires 1 <= m <= 12
    ensures var next := DayNumber(y, m + 1, 1); DayNumber(YearOf(next), MonthOf(next), 1) == next
  {
    if m < 12 {
      FirstOfMonth(y, m + 1);
    } else {
      NextYear(y);
      FirstOfMonth(y + 1, 1);
    }
  }

  lemma NextYear(y: int)
    ensures DayNumber(y, 13, 1) == DayNumber(y + 1, 1, 1)
  {
  }

  /** The span of the instant at which another ends starts there. */
  lemma SpansTile(period: string, t: int)
    ensures var s := SpanOf(period, t);
            SpanOf(period, s.last * s.unit).first == s.last && SpanOf(period, s.last * s.unit).unit == s.unit
  {
    if period == "monthly" {
      MonthlyTile(t);
    } else {
      var s := SpanOf(period, t);
      UnitOfInstant(t, s.unit, s.last, s.last);
    }
  }

  lemma MonthlyTile(t: int)
    ensures var s := SpanOf("monthly", t);
            SpanOf("monthly", s.last * s.unit).first == s.last && SpanOf("monthly", s.last * s.unit).unit == s.unit
  {
    var n, s := t / DAY, SpanOf("monthly", t);
    UnitOfInstant(t, s.unit, s.last, s.last);
    DateOfDay(n);
    NextMonthStarts(YearOf(n), MonthOf(n));
  }

  // ------------------------------------------------------------------- results

  /** An instant has the bounds of a period exactly when it lies within them; in particular within its own. */
  lemma PeriodIsShared(period: string, t: int, u: int)
    ensures PeriodBounds(period, t).start <= u < PeriodBounds(period, t).end
       <==> PeriodBounds(period, u) == PeriodBounds(period, t)
    ensures PeriodBounds(period, t).start <= t < PeriodBounds(period, t).end
  {
    BoundsAre(period, t);
    BoundsAre(period, u);
    SpanBounds(period, t, u);
    SpanBounds(period, t, t);
    SpanBounds(period, u, u);
  }

  lemma SpanBounds(period: string, t: int, u: int)
    ensures var b := BoundsOf(SpanOf(period, t));
            && (b.start <= u < b.end <==> SpanOf(period, u) == SpanOf(period, t))
            && b.start < b.end
  {
    var s := SpanOf(period, t);
    SpanIsShared(period, t, u);
    SpanIsShared(period, t, t);
    UnitOfInstant(u, s.unit, s.first, s.last);
    UnitOfInstant(t, s.unit, s.first, s.last);
  }

  /** The period after one begins where it ends. */
  lemma PeriodsTile(period: string, t: int)
    ensures PeriodBounds(period, PeriodBounds(period, t).end).start == PeriodBounds(period, t).end
  {
    BoundsAre(period, t);
    BoundsAre(period, PeriodBounds(period, t).end);
    SpansTile(period, t);
  }

  /** Two periods of one kind are equal or do not overlap. */
  lemma PeriodsDisjoint(period: string, t: int, u: int)
    ensures var a, b := PeriodBounds(period, t), PeriodBounds(period, u);
            a == b || a.end <= b.start || b.end <= a.start
  {
    var a, b := PeriodBounds(period, t), PeriodBounds(period, u);
    PeriodIsShared(period, t, b.start);
    PeriodIsShared(period, u, b.start);
    PeriodIsShared(period, t, a.start);
    PeriodIsShared(period, u, a.start);
  }

  /** Weeks start on a Monday at midnight and last seven days, also when the day number underflows the month. */
  lemma WeekShape(t: int)
    ensures var week := PeriodBounds("weekly", t);
            week.start % DAY == 0 && Weekday(week.start / DAY) == 1 && week.end == week.start + 7 * DAY
  {
    BoundsAre("weekly", t);
    WeekSpan(t / DAY / 7 * 7);
    WeekStart(t / DAY);
  }

  lemma WeekSpan(first: int)
    ensures (first * DAY) % DAY == 0 && (first * DAY) / DAY == first && (first + 7) * DAY == first * DAY + 7 * DAY
  {
    WholeDay(first);
  }

  lemma MonthShape(t: int)
    ensures var month := PeriodBounds("monthly", t);
            && month.start % DAY == 0 && DayOf(month.start / DAY) == 1
            && 28 * DAY <= month.end - month.start <= 31 * DAY
  {
    BoundsAre("monthly", t);
    DateOfDay(t / DAY);
    MonthSpanShape(YearOf(t / DAY), MonthOf(t / DAY));
  }

  lemma MonthSpanShape(y: int, m: int)
    requires 1 <= m <= 12
    ensures var start, end := DayNumber(y, m, 1) * DAY, DayNumber(y, m + 1, 1) * DAY;
            start % DAY == 0 && DayOf(start / DAY) == 1 && 28 * DAY <= end - start <= 31 * DAY
  {
    MonthLength(y, m);
    FirstOfMonth(y, m);
    DaySpan(DayNumber(y, m, 1), DayNumber(y, m + 1, 1));
  }

  lemma DaySpan(a: int, b: int)
    requires 28 <= b - a <= 31
    ensures a * DAY % DAY == 0 && a * DAY / DAY == a && 28 * DAY <= b * DAY - a * DAY <= 31 * DAY
  {
    WholeDay(a);
  }
}
