/** Proleptic Gregorian dates, day numbers and broken-down UTC time: the meaning of the C library's
    timegm and gmtime that the market calendar relies on. */
module CivilTime {

  datatype CalendarDate = CalendarDate(year: int, month: int, day: int)

  datatype Tm = Tm(date: CalendarDate, hour: int, minute: int, second: int)

  const DAY: int := 86400
  const HOUR: int := 3600

  /** The day number of 1 January 1970; 1 January of year 1 is day 1. */
  const EPOCH_DAY: int := 719163

  predicate IsLeapYear(year: int) {
    year % 4 == 0 && (year % 100 != 0 || year % 400 == 0)
  }

  function DaysInMonth(year: int, month: int): int {
    if month < 1 || month > 12 then 0
    else if month == 2 then if IsLeapYear(year) then 29 else 28
    else if month == 4 || month == 6 || month == 9 || month == 11 then 30
    else 31
  }

  predicate ValidDate(d: CalendarDate) {
    1 <= d.month <= 12 && 1 <= d.day <= DaysInMonth(d.year, d.month)
  }

  predicate ValidTm(tm: Tm) {
    && ValidDate(tm.date)
    && 0 <= tm.hour < 24 && 0 <= tm.minute < 60 && 0 <= tm.second < 60
  }

  function DaysBeforeYear(year: int): int {
    365 * (year - 1) + LeapYearsThrough(year - 1)
  }

  function LeapYearsThrough(year: int): int {
    year / 4 - year / 100 + year / 400
  }

  function DaysBeforeMonth(year: int, month: int): int
    requires 1 <= month <= 13
  {
    [0, 31, 59, 90, 120, 151, 181, 212, 243, 273, 304, 334, 365][month - 1]
    + if month > 2 && IsLeapYear(year) then 1 else 0
  }

  function DayNumber(d: CalendarDate): int
    requires 1 <= d.month <= 12
  {
    DaysBeforeYear(d.year) + DaysBeforeMonth(d.year, d.month) + d.day
  }

  /** timegm. */
  function TimeOf(tm: Tm): int
    requires 1 <= tm.date.month <= 12
  {
    (DayNumber(tm.date) - EPOCH_DAY) * DAY + tm.hour * HOUR + tm.minute * 60 + tm.second
  }

  function DayOf(t: int): int {
    t / DAY + EPOCH_DAY
  }

  function YearFrom(n: int, year: int): (y: int)
    requires DaysBeforeYear(year) < n
    ensures y >= year && DaysBeforeYear(y) < n <= DaysBeforeYear(y + 1)
    decreases n - DaysBeforeYear(year)
  {
    YearStep(year);
    if n <= DaysBeforeYear(year + 1) then year else YearFrom(n, year + 1)
  }

  function MonthFrom(n: int, year: int, month: int): (m: int)
    requires 1 <= month <= 12
    requires DaysBeforeMonth(year, month) < n <= DaysBeforeMonth(year, 13)
    ensures month <= m <= 12 && DaysBeforeMonth(year, m) < n <= DaysBeforeMonth(year, m + 1)
    decreases 12 - month
  {
    if n <= DaysBeforeMonth(year, month + 1) then month else MonthFrom(n, year, month + 1)
  }

  function DateOfDay(n: int): (d: CalendarDate)
    requires n >= 1
    ensures ValidDate(d) && d.year >= 1
    ensures DayNumber(d) == n
  {
    var year := YearFrom(n, 1);
    YearStep(year);
    var inYear := n - DaysBeforeYear(year);
    var month := MonthFrom(inYear, year, 1);
    MonthStep(year, month);
    CalendarDate(year, month, inYear - DaysBeforeMonth(year, month))
  }

  /** gmtime. */
  function GmTime(t: int): (tm: Tm)
    requires DayOf(t) >= 1
    ensures ValidTm(tm) && tm.date.year >= 1
    ensures TimeOf(tm) == t
    ensures tm.date == DateOfDay(DayOf(t))
  {
    hide DateOfDay, DayNumber;
    var s := t % DAY;
    Tm(DateOfDay(DayOf(t)), s / 60 / 60, s / 60 % 60, s % 60)
  }

  lemma QuotientStep(year: int, k: int)
    requires k == 4 || k == 100 || k == 400
    ensures year / k == (year - 1) / k + if year % k == 0 then 1 else 0
  {
  }

  lemma MultipleMod(q: int, m: int)
    requires m == 4 || m == 100
    ensures (m * q) % m == 0
  {
  }

  lemma DivisibleChain(year: int)
    ensures year % 400 == 0 ==> year % 100 == 0
    ensures year % 100 == 0 ==> year % 4 == 0
  {
    if year % 400 == 0 {
      MultipleMod(4 * (year / 400), 100);
      assert year == 100 * (4 * (year / 400));
    }
    if year % 100 == 0 {
      MultipleMod(25 * (year / 100), 4);
      assert year == 4 * (25 * (year / 100));
    }
  }

  lemma LeapYearStep(year: int)
    ensures LeapYearsThrough(year) == LeapYearsThrough(year - 1) + if IsLeapYear(year) then 1 else 0
  {
    QuotientStep(year, 4);
    QuotientStep(year, 100);
    QuotientStep(year, 400);
    DivisibleChain(year);
  }

  lemma YearStep(year: int)
    ensures DaysBeforeYear(year + 1) == DaysBeforeYear(year) + if IsLeapYear(year) then 366 else 365
  {
    hide LeapYearsThrough, IsLeapYear;
    LeapYearStep(year);
  }

  lemma MonthStep(year: int, month: int)
    requires 1 <= month <= 12
    ensures DaysBeforeMonth(year, month + 1) == DaysBeforeMonth(year, month) + DaysInMonth(year, month)
    ensures DaysBeforeMonth(year, 13) == if IsLeapYear(year) then 366 else 365
  {
  }

  lemma {:induction false} MonthsInOrder(year: int, a: int, b: int)
    requires 1 <= a < b <= 13
    ensures DaysBeforeMonth(year, a) + DaysInMonth(year, a) <= DaysBeforeMonth(year, b)
    decreases b
  {
    MonthStep(year, a);
    if a + 1 < b {
      MonthsInOrder(year, a, b - 1);
      MonthStep(year, b - 1);
    }
  }

  lemma {:induction false} YearsInOrder(a: int, b: int)
    requires a <= b
    ensures DaysBeforeYear(a) + 365 * (b - a) <= DaysBeforeYear(b)
    decreases b - a
  {
    if a < b {
      YearStep(b - 1);
      YearsInOrder(a, b - 1);
    }
  }

  /** A date lies inside its own year. */
  lemma WithinYear(d: CalendarDate)
    requires ValidDate(d)
    ensures DaysBeforeYear(d.year) < DayNumber(d) <= DaysBeforeYear(d.year + 1)
  {
    YearStep(d.year);
    MonthsInOrder(d.year, d.month, 13);
  }

  predicate DateBefore(a: CalendarDate, b: CalendarDate) {
    || a.year < b.year
    || (a.year == b.year && a.month < b.month)
    || (a.year == b.year && a.month == b.month && a.day < b.day)
  }

  /** Day numbers order dates exactly as the calendar does. */
  lemma DayNumberOrders(a: CalendarDate, b: CalendarDate)
    requires ValidDate(a) && ValidDate(b)
    ensures DateBefore(a, b) <==> DayNumber(a) < DayNumber(b)
  {
    hide LeapYearsThrough, DaysInMonth;
    WithinYear(a);
    WithinYear(b);
    if a.year < b.year {
      YearsInOrder(a.year + 1, b.year);
    } else if b.year < a.year {
      YearsInOrder(b.year + 1, a.year);
    } else if a.month < b.month {
      MonthsInOrder(a.year, a.month, b.month);
    } else if b.month < a.month {
      MonthsInOrder(a.year, b.month, a.month);
    }
  }

  /** Dates and day numbers correspond one to one. */
  lemma DateRoundTrip(d: CalendarDate)
    requires ValidDate(d) && d.year >= 1
    ensures DayNumber(d) >= 1 && DateOfDay(DayNumber(d)) == d
  {
    WithinYear(d);
    YearsInOrder(1, d.year);
    var e := DateOfDay(DayNumber(d));
    DayNumberOrders(d, e);
    DayNumberOrders(e, d);
  }

  /** timegm after gmtime is in GmTime's contract; this is gmtime after timegm. */
  lemma TmRoundTrip(tm: Tm)
    requires ValidTm(tm) && tm.date.year >= 1
    ensures DayOf(TimeOf(tm)) == DayNumber(tm.date) >= 1
    ensures GmTime(TimeOf(tm)) == tm
  {
    hide DateOfDay, DayNumber, DaysInMonth;
    var inDay := tm.hour * HOUR + tm.minute * 60 + tm.second;
    var t := TimeOf(tm);
    assert t == (DayNumber(tm.date) - EPOCH_DAY) * DAY + inDay;
    assert 0 <= inDay < DAY;
    assert t / DAY == DayNumber(tm.date) - EPOCH_DAY && t % DAY == inDay;
    DateRoundTrip(tm.date);
    assert inDay / 60 == tm.hour * 60 + tm.minute;
  }

  /** The formula of POSIX.1-2017 Base Definitions, section 4.16, with the year counted from 1900. */
  function PosixSeconds(tmYear: int, tmYday: int, hour: int, minute: int, second: int): int {
    second + minute * 60 + hour * 3600 + tmYday * 86400 + (tmYear - 70) * 31536000
    + ((tmYear - 69) / 4) * 86400 - ((tmYear - 1) / 100) * 86400 + ((tmYear + 299) / 400) * 86400
  }

  /** TimeOf is that formula. */
  lemma TimeOfIsPosix(tm: Tm)
    requires ValidTm(tm) && tm.date.year >= 1970
    ensures TimeOf(tm) ==
            PosixSeconds(tm.date.year - 1900,
                         DaysBeforeMonth(tm.date.year, tm.date.month) + tm.date.day - 1,
                         tm.hour, tm.minute, tm.second)
  {
    var y := tm.date.year;
    assert (y - 1) / 4 == (y - 1969) / 4 + 492;
    assert (y - 1) / 100 == (y - 1901) / 100 + 19;
    assert (y - 1) / 400 == (y - 1601) / 400 + 4;
    assert EPOCH_DAY == 365 * 1969 + 492 - 19 + 4 + 1;
  }

  /** Later days of the same month. */
  lemma DaysLater(d: CalendarDate, k: int)
    requires ValidDate(d) && d.year >= 1 && 0 <= k && d.day + k <= DaysInMonth(d.year, d.month)
    ensures DayNumber(d) >= 1
    ensures DateOfDay(DayNumber(d) + k) == d.(day := d.day + k)
  {
    DateRoundTrip(d);
    DateRoundTrip(d.(day := d.day + k));
  }

  lemma FirstYear()
    ensures DaysBeforeYear(1) == 0
  {
  }

  /** The year of a day is fixed by the two New Years around it. */
  lemma YearOfDay(n: int, year: int)
    requires year >= 1
    requires DaysBeforeYear(year) < n <= DaysBeforeYear(year + 1)
    ensures n >= 1 && DateOfDay(n).year == year
  {
    hide *;
    FirstYear();
    YearsInOrder(1, year);
    var d := DateOfDay(n);
    WithinYear(d);
    if d.year < year {
      YearsInOrder(d.year + 1, year);
    } else if d.year > year {
      YearsInOrder(year + 1, d.year);
    }
  }

  lemma YearOfInstant(t: int, year: int)
    requires year >= 1
    requires DaysBeforeYear(year) < DayOf(t) <= DaysBeforeYear(year + 1)
    ensures DayOf(t) >= 1 && GmTime(t).date.year == year
  {
    YearOfDay(DayOf(t), year);
  }
}
