/** New York wall-clock time: the rule stated on UTC instants, the rule stated on the wall clock, and
    exactly where the two part. */
module NewYorkTime {
  import opened CivilTime
  import opened MarketCalendar

  const STANDARD: int := -5 * 3600
  const DAYLIGHT: int := -4 * 3600

  function DstStartDate(year: int): CalendarDate {
    if year == 1974 then CalendarDate(year, 1, 6)
    else if year == 1975 then CalendarDate(year, 2, 23)
    else if year >= 2007 then CalendarDate(year, 3, NthWeekdayOfMonth(year, 3, 2, 0))
    else if year >= 1987 then CalendarDate(year, 4, NthWeekdayOfMonth(year, 4, 1, 0))
    else CalendarDate(year, 4, LastWeekdayOfMonth(year, 4, 0))
  }

  function DstEndDate(year: int): CalendarDate {
    if year >= 2007 then CalendarDate(year, 11, NthWeekdayOfMonth(year, 11, 1, 0))
    else CalendarDate(year, 10, LastWeekdayOfMonth(year, 10, 0))
  }

  function EasternDstStartUtc(year: int): int {
    TimeOf(Tm(DstStartDate(year), 7, 0, 0))
  }

  function EasternDstEndUtc(year: int): int {
    TimeOf(Tm(DstEndDate(year), 6, 0, 0))
  }

  /** The wall-clock rule, month by month. */
  predicate IsUsEasternDstLocal(year: int, month: int, day: int, hour: int) {
    if year < 1967 then false
    else
      var start, end := DstStartDate(year), DstEndDate(year);
      if month < start.month || month > end.month then false
      else if month > start.month && month < end.month then true
      else if month == start.month then day > start.day || (day == start.day && hour >= 2)
      else day < end.day || (day == end.day && hour < 2)
  }

  /** Instants whose New York reading lies in year 1 or later. */
  predicate InRange(t: int) {
    DayOf(t) >= 2
  }

  function UtcYear(t: int): int
    requires InRange(t)
  {
    GmTime(t).date.year
  }

  function NewYorkUtcOffsetSeconds(t: int): int
    requires InRange(t)
  {
    var year := UtcYear(t);
    if year < 1967 then STANDARD
    else if EasternDstStartUtc(year) <= t < EasternDstEndUtc(year) then DAYLIGHT
    else STANDARD
  }

  /** The wall clock as a count of seconds, and as fields. */
  function Wall(t: int): (w: int)
    requires InRange(t)
    ensures DayOf(w) >= 1
  {
    t + NewYorkUtcOffsetSeconds(t)
  }

  function CurrentNewYorkTime(t: int): Tm
    requires InRange(t)
  {
    GmTime(Wall(t))
  }

  predicate DstLocalAt(tm: Tm) {
    IsUsEasternDstLocal(tm.date.year, tm.date.month, tm.date.day, tm.hour)
  }

  /** The conversion the searches end with: read the fields as UTC and take the local rule's offset off. */
  function LocalToUtc(tm: Tm): int
    requires 1 <= tm.date.month <= 12
  {
    TimeOf(tm) - if DstLocalAt(tm) then DAYLIGHT else STANDARD
  }

  /** The hour the wall clock reads a second time. */
  predicate InRepeatedHour(t: int)
    requires InRange(t)
  {
    var year := UtcYear(t);
    year >= 1967 && EasternDstEndUtc(year) <= t < EasternDstEndUtc(year) + HOUR
  }

  /** The wall-clock hour that no instant reads. */
  predicate InSkippedHour(tm: Tm) {
    tm.date.year >= 1967 && tm.date == DstStartDate(tm.date.year) && tm.hour == 2
  }

  // ---------------------------------------------------------------- transitions

  predicate IsSunday(d: CalendarDate)
    requires 1 <= d.month <= 12
  {
    Weekday(DayNumber(d)) == 0
  }

  lemma DstStartFacts(year: int)
    requires year >= 1967
    ensures var d := DstStartDate(year);
            ValidDate(d) && d.year == year && 1 <= d.month <= 4 && IsSunday(d)
            && (d.month == 1 ==> d.day >= 6)
  {
    if year == 1974 {
      assert LeapYearsThrough(1973) == 478;
      assert DayNumber(CalendarDate(1974, 1, 6)) == 7 * 102947;
    } else if year == 1975 {
      assert LeapYearsThrough(1974) == 478;
      assert DayNumber(CalendarDate(1975, 2, 23)) == 7 * 103006;
    } else if year >= 2007 {
      SundayInGroup(year, 3, 2);
    } else if year >= 1987 {
      SundayInGroup(year, 4, 1);
    } else {
      LastWeekday(year, 4, 0);
    }
  }

  lemma DstEndFacts(year: int)
    requires year >= 1967
    ensures var d := DstEndDate(year);
            ValidDate(d) && d.year == year && 10 <= d.month <= 11 && IsSunday(d)
  {
    if year >= 2007 {
      SundayInGroup(year, 11, 1);
    } else {
      LastWeekday(year, 10, 0);
    }
  }

  lemma SundayInGroup(year: int, month: int, nth: int)
    requires year >= 1 && 1 <= month <= 12 && 1 <= nth <= 2
    ensures var r := NthWeekdayOfMonth(year, month, nth, 0);
            1 <= r <= 14 && r <= DaysInMonth(year, month) && WeekdayOf(year, month, r) == 0
  {
    NthWeekday(year, month, nth, 0);
    NthWeekdaySlot(year, month, nth, 0);
    var slot := 1 + (0 - WeekdayOf(year, month, 1) + 7) % 7 + (nth - 1) * 7;
    assert 1 <= slot <= 14;
  }

  /** Both rules in one picture: the transition days as day numbers. */
  lemma DstDays(year: int) returns (start: int, end: int)
    requires year >= 1967
    ensures start == DayNumber(DstStartDate(year)) && end == DayNumber(DstEndDate(year))
    ensures DaysBeforeYear(year) + 5 < start && start + 100 < end && end + 30 < DaysBeforeYear(year + 1)
    ensures Weekday(start) == 0 && Weekday(end) == 0
    ensures EasternDstStartUtc(year) == (start - EPOCH_DAY) * DAY + 7 * HOUR
    ensures EasternDstEndUtc(year) == (end - EPOCH_DAY) * DAY + 6 * HOUR
  {
    DstStartFacts(year);
    DstEndFacts(year);
    var s, e := DstStartDate(year), DstEndDate(year);
    start, end := DayNumber(s), DayNumber(e);
    DayBounds(s);
    DayBounds(e);
    hide DstStartDate, DstEndDate, DayNumber;
    YearStep(year);
  }

  lemma DayBounds(d: CalendarDate)
    requires ValidDate(d)
    ensures d.month <= 4 ==> DayNumber(d) <= DaysBeforeYear(d.year) + 121
    ensures d.month > 1 || d.day >= 6 ==> DayNumber(d) > DaysBeforeYear(d.year) + 5
    ensures 10 <= d.month <= 11 ==> DaysBeforeYear(d.year) + 273 < DayNumber(d) <= DaysBeforeYear(d.year) + 335
  {
  }

  /** The days of the Uniform Time Act and of its amendments, as first Sundays from a date on. */
  function FirstDaylightDay(year: int): int {
    if year == 1974 then DayNumber(CalendarDate(1974, 1, 6))
    else if year == 1975 then DayNumber(CalendarDate(1975, 2, 23))
    else if year <= 1986 then FirstFrom(DayNumber(CalendarDate(year, 4, 24)), 0)
    else if year <= 2006 then FirstFrom(DayNumber(CalendarDate(year, 4, 1)), 0)
    else FirstFrom(DayNumber(CalendarDate(year, 3, 8)), 0)
  }

  function LastDaylightDay(year: int): int {
    if year <= 2006 then FirstFrom(DayNumber(CalendarDate(year, 10, 25)), 0)
    else FirstFrom(DayNumber(CalendarDate(year, 11, 1)), 0)
  }

  /** Daylight saving starts and ends on those days. */
  lemma DaylightDays(year: int)
    requires year >= 1967
    ensures EasternDstStartUtc(year) == (FirstDaylightDay(year) - EPOCH_DAY) * DAY + 7 * HOUR
    ensures EasternDstEndUtc(year) == (LastDaylightDay(year) - EPOCH_DAY) * DAY + 6 * HOUR
  {
    hide NthWeekdayOfMonth, LastWeekdayOfMonth, FirstFrom, DayNumber;
    NthIsFirstFrom(year, 3, 2, 0);
    NthIsFirstFrom(year, 4, 1, 0);
    NthIsFirstFrom(year, 11, 1, 0);
    LastIsFirstFrom(year, 4, 0);
    LastIsFirstFrom(year, 10, 0);
  }

  /** The wall-clock rule, on day numbers. */
  lemma LocalRule(d: CalendarDate, hour: int)
    requires ValidDate(d) && d.year >= 1967
    ensures var n, start, end := DayNumber(d), DayNumber(DstStartDate(d.year)), DayNumber(DstEndDate(d.year));
            IsUsEasternDstLocal(d.year, d.month, d.day, hour) <==>
            (n > start || (n == start && hour >= 2)) && (n < end || (n == end && hour < 2))
  {
    DstStartFacts(d.year);
    DstEndFacts(d.year);
    var s, e := DstStartDate(d.year), DstEndDate(d.year);
    DayNumberOrders(s, d);
    DayNumberOrders(d, s);
    DayNumberOrders(d, e);
    DayNumberOrders(e, d);
    hide DstStartDate, DstEndDate, DayNumber;
  }

  /** The wall-clock rule, on seconds of wall-clock time. */
  lemma LocalRuleSeconds(w: int)
    requires DayOf(w) >= 1
    ensures var tm := GmTime(w);
            tm.date.year >= 1967 ==>
              (DstLocalAt(tm) <==>
               TimeOf(Tm(DstStartDate(tm.date.year), 2, 0, 0)) <= w < TimeOf(Tm(DstEndDate(tm.date.year), 2, 0, 0)))
  {
    var tm := GmTime(w);
    if tm.date.year >= 1967 {
      LocalRule(tm.date, tm.hour);
      var start, end := DstDays(tm.date.year);
      var n := DayNumber(tm.date);
      hide DstStartDate, DstEndDate, DayNumber, DstLocalAt, GmTime;
      assert w == (n - EPOCH_DAY) * DAY + tm.hour * HOUR + tm.minute * 60 + tm.second;
    }
  }

  /** New Year of a year, in seconds. */
  function NewYear(year: int): int {
    (DaysBeforeYear(year) + 1 - EPOCH_DAY) * DAY
  }

  lemma YearBounds(t: int)
    requires DayOf(t) >= 1
    ensures var y := GmTime(t).date.year; NewYear(y) <= t < NewYear(y + 1)
  {
    WithinYear(GmTime(t).date);
    hide GmTime;
  }

  lemma YearIs(t: int, year: int)
    requires year >= 1 && NewYear(year) <= t < NewYear(year + 1)
    ensures DayOf(t) >= 1 && GmTime(t).date.year == year
  {
    var n := DayOf(t);
    assert (n - EPOCH_DAY) * DAY <= t < (n + 1 - EPOCH_DAY) * DAY;
    hide DaysBeforeYear;
    YearOfInstant(t, year);
  }

  /** An instant and its wall-clock reading fall in the same year, or the instant is in the first
      five hours of the next one. */
  lemma WallYear(t: int) returns (year: int, wallYear: int)
    requires InRange(t)
    ensures year == UtcYear(t) && wallYear == CurrentNewYorkTime(t).date.year
    ensures NewYear(year) <= t < NewYear(year + 1)
    ensures if t < NewYear(year) + 5 * HOUR
            then wallYear == year - 1 && NewYorkUtcOffsetSeconds(t) == STANDARD
            else wallYear == year
  {
    year := UtcYear(t);
    wallYear := CurrentNewYorkTime(t).date.year;
    YearBounds(t);
    var w := Wall(t);
    YearBounds(w);
    if year >= 1967 {
      var start, end := DstDays(year);
    }
    hide GmTime, DstStartDate, DstEndDate, EasternDstStartUtc, EasternDstEndUtc;
    if t < NewYear(year) + 5 * HOUR {
      assert NewYorkUtcOffsetSeconds(t) == STANDARD;
      assert year > 1;
      YearGap(year - 1);
      YearIs(w, year - 1);
    } else {
      YearIs(w, year);
    }
  }

  lemma YearGap(year: int)
    ensures NewYear(year + 1) >= NewYear(year) + 365 * DAY
  {
    YearStep(year);
  }

  /** The two daylight saving rules agree everywhere but in the repeated hour of a year from 1967 on. */
  lemma DstRulesAgree(t: int)
    requires InRange(t)
    ensures (DstLocalAt(CurrentNewYorkTime(t)) <==> NewYorkUtcOffsetSeconds(t) == DAYLIGHT)
            <==> !InRepeatedHour(t)
  {
    var year, wallYear := WallYear(t);
    LocalRuleSeconds(Wall(t));
    if year >= 1967 {
      var start, end := DstDays(year);
    }
    if wallYear >= 1967 {
      var wallStart, wallEnd := DstDays(wallYear);
      YearGap(wallYear);
    }
    hide DstStartDate, DstEndDate, DayNumber, GmTime, DaysBeforeYear;
  }

  /** Local-to-UTC undoes UTC-to-local everywhere but in the repeated hour. */
  lemma LocalToUtcUndoes(t: int)
    requires InRange(t)
    ensures LocalToUtc(CurrentNewYorkTime(t)) == t <==> !InRepeatedHour(t)
  {
    DstRulesAgree(t);
    hide DstLocalAt, UtcYear, InRepeatedHour, GmTime;
    assert TimeOf(CurrentNewYorkTime(t)) == Wall(t);
  }

  lemma DstEndsInYear(year: int)
    requires year >= 1967
    ensures EasternDstEndUtc(year) <= NewYear(year + 1)
  {
    hide DstStartDate, DstEndDate, DaysBeforeYear, EasternDstStartUtc, EasternDstEndUtc;
    var start, end := DstDays(year);
  }

  /** The offset of an instant in terms of its wall-clock year. */
  lemma OffsetInWallYear(t: int, y: int)
    requires InRange(t) && y >= 1
    requires NewYear(y) + 5 * HOUR <= t < NewYear(y + 1) + 5 * HOUR
    ensures NewYorkUtcOffsetSeconds(t) ==
            if y >= 1967 && EasternDstStartUtc(y) <= t < EasternDstEndUtc(y) then DAYLIGHT else STANDARD
  {
    hide EasternDstStartUtc, EasternDstEndUtc, GmTime, CurrentNewYorkTime, NewYear;
    if t < NewYear(y + 1) {
      YearIs(t, y);
    } else {
      YearGap(y + 1);
      YearIs(t, y + 1);
      var year, wallYear := WallYear(t);
      if y >= 1967 {
        DstEndsInYear(y);
      }
    }
  }

  /** What converting a wall-clock reading forth and back gives, in seconds. */
  lemma WallOfLocalToUtc(tm: Tm)
    requires ValidTm(tm) && tm.date.year >= 1 && DayNumber(tm.date) >= 2
    ensures InRange(LocalToUtc(tm))
    ensures Wall(LocalToUtc(tm)) == TimeOf(tm) <==> !InSkippedHour(tm)
  {
    TmRoundTrip(tm);
    var w, t, y := TimeOf(tm), LocalToUtc(tm), tm.date.year;
    YearBounds(w);
    LocalRuleSeconds(w);
    if y >= 1967 {
      var start, end := DstDays(y);
      SkippedSeconds(tm);
    }
    assert InRange(t);
    hide DstStartDate, DstEndDate, DaysBeforeYear, InSkippedHour, DstLocalAt, DayNumber, GmTime;
    OffsetInWallYear(t, y);
  }

  /** UTC-to-local undoes local-to-UTC on every wall-clock reading outside the skipped hour. */
  lemma WallRoundTrip(tm: Tm)
    requires ValidTm(tm) && tm.date.year >= 1 && DayNumber(tm.date) >= 2
    ensures InRange(LocalToUtc(tm))
    ensures CurrentNewYorkTime(LocalToUtc(tm)) == tm <==> !InSkippedHour(tm)
  {
    WallOfLocalToUtc(tm);
    TmIsItsSeconds(tm, CurrentNewYorkTime(LocalToUtc(tm)));
    hide InSkippedHour, LocalToUtc, NewYorkUtcOffsetSeconds;
  }

  lemma TmIsItsSeconds(a: Tm, b: Tm)
    requires ValidTm(a) && ValidTm(b) && a.date.year >= 1 && b.date.year >= 1
    ensures a == b <==> TimeOf(a) == TimeOf(b)
  {
    TmRoundTrip(a);
    TmRoundTrip(b);
  }

  lemma SkippedSeconds(tm: Tm)
    requires ValidTm(tm) && tm.date.year >= 1967
    ensures var start := TimeOf(Tm(DstStartDate(tm.date.year), 2, 0, 0));
            InSkippedHour(tm) <==> start <= TimeOf(tm) < start + HOUR
  {
    var d := DstStartDate(tm.date.year);
    DstStartFacts(tm.date.year);
    DayNumberOrders(d, tm.date);
    DayNumberOrders(tm.date, d);
    hide DstStartDate, DayNumber;
  }
}
