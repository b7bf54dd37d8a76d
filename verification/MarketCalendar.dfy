/** The weekday formulas and Good Friday. */
module MarketCalendar {
  import opened CivilTime

  // ---------------------------------------------------------------- weekdays

  function TruncDiv(a: int, b: int): int
    requires b > 0
  {
    if a >= 0 then a / b else -((-a) / b)
  }

  function TruncMod(a: int, b: int): int
    requires b > 0
  {
    a - b * TruncDiv(a, b)
  }

  lemma TruncatedIsEuclidean(a: int, b: int)
    requires a >= 0 && b > 0
    ensures TruncMod(a, b) == a % b
  {
  }

  /** The year counted from March, so that its leap day comes last. */
  function FormulaYear(year: int, month: int): int {
    if month < 3 then year - 1 else year
  }

  function MonthOffset(month: int): int
    requires 1 <= month <= 12
  {
    [0, 3, 2, 5, 0, 3, 5, 1, 4, 6, 2, 4][month - 1]
  }

  /** Division truncates, as in the source language. */
  function TruncatedLeapTerms(y: int): int {
    TruncDiv(y, 4) - TruncDiv(y, 100) + TruncDiv(y, 400)
  }

  function WeekdaySum(year: int, month: int, day: int): int
    requires 1 <= month <= 12
  {
    var y := FormulaYear(year, month);
    y + TruncatedLeapTerms(y) + MonthOffset(month) + day
  }

  /** Sunday is 0; -1 is an invalid date. */
  function GregorianWeekday(year: int, month: int, day: int): int {
    if month < 1 || month > 12 || day < 1 || day > DaysInMonth(year, month) then -1
    else TruncMod(WeekdaySum(year, month, day), 7)
  }

  /** The weekday of a day number. */
  function Weekday(n: int): int {
    n % 7
  }

  lemma ModShift(a: int, b: int, k: int)
    requires a == b + 7 * k
    ensures a % 7 == b % 7
  {
  }

  /** The day number, up to whole weeks, in the terms of the weekday formula. */
  lemma DayNumberInWeeks(d: CalendarDate) returns (weeks: int)
    requires ValidDate(d)
    ensures var y := FormulaYear(d.year, d.month);
            DayNumber(d) == y + LeapYearsThrough(y) + MonthOffset(d.month) + d.day + 7 * weeks
  {
    LeapYearStep(d.year);
    hide LeapYearsThrough, IsLeapYear;
    var y := FormulaYear(d.year, d.month);
    weeks := 52 * y + [0, 4, -44, -40, -35, -31, -27, -22, -18, -14, -9, -5][d.month - 1];
  }

  /** Truncation rounds a negative quotient up. */
  lemma TruncationRoundsUp(y: int, k: int)
    requires y < 0 && (k == 4 || k == 100 || k == 400)
    ensures TruncDiv(y, k) == y / k + if y % k == 0 then 0 else 1
  {
  }

  /** Truncation counts one leap day too many before year 0, except in a leap year. */
  lemma LeapTerms(y: int)
    ensures TruncatedLeapTerms(y) == LeapYearsThrough(y) + if y >= 0 || IsLeapYear(y) then 0 else 1
  {
    if y < 0 {
      TruncationRoundsUp(y, 4);
      TruncationRoundsUp(y, 100);
      TruncationRoundsUp(y, 400);
      DivisibleChain(y);
      hide TruncDiv;
    }
  }

  lemma TruncatedRemainder(a: int)
    ensures a >= 0 ==> TruncMod(a, 7) == a % 7
    ensures a < 0 ==> TruncMod(a, 7) <= 0 && (TruncMod(a, 7) == 0 <==> a % 7 == 0)
  {
    if a < 0 {
      var q := (-a) / 7;
      assert TruncMod(a, 7) == a + 7 * q;
    }
  }

  /** When the formula is right: always if the year counted from March is not negative; before that only in
      leap years, and with a negative sum only on Sundays. */
  predicate WeekdayFormulaHolds(year: int, month: int, day: int)
    requires 1 <= month <= 12
  {
    var y := FormulaYear(year, month);
    var sum := WeekdaySum(year, month, day);
    y >= 0 || (IsLeapYear(y) && (sum >= 0 || sum % 7 == 0))
  }

  /** For every date of every year, the weekday formula is the day number modulo seven if and only if that
      condition holds. */
  lemma WeekdayFormula(d: CalendarDate)
    requires ValidDate(d)
    ensures GregorianWeekday(d.year, d.month, d.day) == Weekday(DayNumber(d))
            <==> WeekdayFormulaHolds(d.year, d.month, d.day)
  {
    var weeks := DayNumberInWeeks(d);
    var y, sum := FormulaYear(d.year, d.month), WeekdaySum(d.year, d.month, d.day);
    LeapTerms(y);
    assert GregorianWeekday(d.year, d.month, d.day) == TruncMod(sum, 7);
    hide LeapYearsThrough, GregorianWeekday, DayNumber, IsLeapYear, MonthOffset, TruncatedLeapTerms, TruncMod;
    TruncatedRemainder(sum);
    ModShift(DayNumber(d), if y >= 0 || IsLeapYear(y) then sum else sum - 1, weeks);
  }

  /** From year 0 on: it fails exactly in January and February of year 0. */
  lemma WeekdayFormulaFromYearZero(d: CalendarDate)
    requires ValidDate(d) && d.year >= 0
    ensures GregorianWeekday(d.year, d.month, d.day) == Weekday(DayNumber(d)) <==> d.year >= 1 || d.month >= 3
  {
    WeekdayFormula(d);
    hide GregorianWeekday, DayNumber;
    assert !IsLeapYear(-1);
  }

  /** 1 January of year 0, for one. */
  lemma WeekdayFormulaFailsInYearZero()
    ensures GregorianWeekday(0, 1, 1) != Weekday(DayNumber(CalendarDate(0, 1, 1)))
  {
    WeekdayFormulaFromYearZero(CalendarDate(0, 1, 1));
    hide GregorianWeekday, DayNumber;
  }

  function NthWeekdayOfMonth(year: int, month: int, nth: int, weekday: int): int {
    if nth < 1 || weekday < 0 || weekday > 6 then 0
    else
      var firstWeekday := GregorianWeekday(year, month, 1);
      if firstWeekday < 0 then 0
      else
        var result := 1 + TruncMod(weekday - firstWeekday + 7, 7) + (nth - 1) * 7;
        if result <= DaysInMonth(year, month) then result else 0
  }

  function LastWeekdayOfMonth(year: int, month: int, weekday: int): int {
    var lastDay := DaysInMonth(year, month);
    var lastWeekday := GregorianWeekday(year, month, lastDay);
    if lastDay == 0 || lastWeekday < 0 || weekday < 0 || weekday > 6 then 0
    else lastDay - TruncMod(lastWeekday - weekday + 7, 7)
  }

  function WeekdayOf(year: int, month: int, day: int): int
    requires 1 <= month <= 12
  {
    Weekday(DayNumber(CalendarDate(year, month, day)))
  }

  lemma WithinMonth(year: int, month: int, day: int)
    requires 1 <= month <= 12
    ensures WeekdayOf(year, month, day) == Weekday(DayNumber(CalendarDate(year, month, 1)) + day - 1)
  {
  }

  lemma NthWeekdaySlot(year: int, month: int, nth: int, weekday: int)
    requires 1 <= month <= 12 && 1 <= nth && 0 <= weekday <= 6 && WeekdayFormulaHolds(year, month, 1)
    ensures var slot := 1 + (weekday - WeekdayOf(year, month, 1) + 7) % 7 + (nth - 1) * 7;
            NthWeekdayOfMonth(year, month, nth, weekday) == if slot <= DaysInMonth(year, month) then slot else 0
  {
    WeekdayFormula(CalendarDate(year, month, 1));
    var firstWeekday := GregorianWeekday(year, month, 1);
    assert 0 <= firstWeekday <= 6;
    TruncatedIsEuclidean(weekday - firstWeekday + 7, 7);
    hide GregorianWeekday, DayNumber, TruncMod, Weekday;
  }

  /** Which day of the nth group of seven has the given weekday. */
  lemma DayInGroup(base: int, slot: int, nth: int, weekday: int, day: int)
    requires nth >= 1 && 0 <= weekday <= 6
    requires slot == 1 + (weekday - Weekday(base) + 7) % 7 + (nth - 1) * 7
    ensures 7 * (nth - 1) < slot <= 7 * nth
    ensures 7 * (nth - 1) < day <= 7 * nth ==> (Weekday(base + day - 1) == weekday <==> day == slot)
  {
    var w := Weekday(base);
    var gap := (weekday - w + 7) % 7;
    assert gap == if weekday >= w then weekday - w else weekday - w + 7;
    var k := day - 7 * (nth - 1) - 1;
    ModShift(base + day - 1, base + k, nth - 1);
    if 0 <= k < 7 {
      assert (base + k) % 7 == if w + k < 7 then w + k else w + k - 7;
    }
  }

  /** The nth such weekday is the day of that weekday in the nth group of seven days; 0 says that the
      month has no such day. */
  lemma NthWeekday(year: int, month: int, nth: int, weekday: int)
    requires 1 <= month <= 12 && 1 <= nth && WeekdayFormulaHolds(year, month, 1)
    ensures var r := NthWeekdayOfMonth(year, month, nth, weekday);
            r != 0 ==> 7 * (nth - 1) < r <= 7 * nth && r <= DaysInMonth(year, month)
    ensures forall day :: 7 * (nth - 1) < day <= 7 * nth && day <= DaysInMonth(year, month)
              ==> (WeekdayOf(year, month, day) == weekday <==> day == NthWeekdayOfMonth(year, month, nth, weekday))
  {
    if weekday < 0 || weekday > 6 {
      hide DayNumber;
      return;
    }
    NthWeekdaySlot(year, month, nth, weekday);
    WithinMonth(year, month, 1);
    var base := DayNumber(CalendarDate(year, month, 1));
    hide *;
    var slot := 1 + (weekday - Weekday(base) + 7) % 7 + (nth - 1) * 7;
    DayInGroup(base, slot, nth, weekday, slot);
    forall day | 7 * (nth - 1) < day <= 7 * nth && day <= DaysInMonth(year, month)
      ensures WeekdayOf(year, month, day) == weekday <==> day == NthWeekdayOfMonth(year, month, nth, weekday)
    {
      WithinMonth(year, month, day);
      DayInGroup(base, slot, nth, weekday, day);
    }
  }

  lemma CountedFrom(first: int, base: int, weekday: int, k: nat)
    requires 0 <= first <= 6 && 0 <= weekday <= 6
    ensures Weekday(base + (weekday - first + 7) % 7 + 7 * k) == weekday <==> first == Weekday(base)
  {
    var w := Weekday(base);
    var gap := (weekday - first + 7) % 7;
    assert gap == if weekday >= first then weekday - first else weekday - first + 7;
    ModShift(base + gap + 7 * k, w + gap, base / 7 + k);
    assert (w + gap) % 7 == if w + gap < 7 then w + gap else w + gap - 7;
  }

  /** The first four are found if and only if the weekday formula is right about the first of the month. */
  lemma NthWeekdayExactly(year: int, month: int, nth: int, weekday: int)
    requires 1 <= month <= 12 && 1 <= nth <= 4 && 0 <= weekday <= 6
    ensures (var r := NthWeekdayOfMonth(year, month, nth, weekday);
             r != 0 && WeekdayOf(year, month, r) == weekday) <==> WeekdayFormulaHolds(year, month, 1)
  {
    var first := GregorianWeekday(year, month, 1);
    WeekdayFormula(CalendarDate(year, month, 1));
    WeekdayIsSmall(year, month, 1);
    if first >= 0 {
      TruncatedIsEuclidean(weekday - first + 7, 7);
      assert DaysInMonth(year, month) >= 28;
      hide GregorianWeekday, DaysInMonth, DayNumber, TruncMod, Weekday, WeekdayFormulaHolds;
      CountedFrom(first, DayNumber(CalendarDate(year, month, 1)), weekday, nth - 1);
      WithinMonth(year, month, NthWeekdayOfMonth(year, month, nth, weekday));
    } else {
      hide GregorianWeekday, DayNumber, WeekdayFormulaHolds;
    }
  }

  lemma WeekdayIsSmall(year: int, month: int, day: int)
    ensures -6 <= GregorianWeekday(year, month, day) <= 6
  {
    hide WeekdaySum;
  }

  lemma BackInWeek(last: int, n: int, weekday: int)
    requires 0 <= last <= 6 && 0 <= weekday <= 6
    ensures 0 <= (last - weekday + 7) % 7 <= 6
    ensures Weekday(n - (last - weekday + 7) % 7) == weekday <==> last == Weekday(n)
  {
    var w := Weekday(n);
    var back := (last - weekday + 7) % 7;
    assert back == if last >= weekday then last - weekday else last - weekday + 7;
    assert (n - back) % 7 == if w >= back then w - back else w - back + 7;
  }

  /** The result lies in the last seven days of the month and has that weekday if and only if the weekday
      formula is right about the last day. */
  lemma LastWeekday(year: int, month: int, weekday: int)
    requires 1 <= month <= 12
    ensures (var r := LastWeekdayOfMonth(year, month, weekday);
             DaysInMonth(year, month) - 7 < r <= DaysInMonth(year, month) && WeekdayOf(year, month, r) == weekday)
            <==> 0 <= weekday <= 6 && WeekdayFormulaHolds(year, month, DaysInMonth(year, month))
  {
    if weekday < 0 || weekday > 6 {
      hide DayNumber, GregorianWeekday;
      return;
    }
    var last := DaysInMonth(year, month);
    var lastWeekday := GregorianWeekday(year, month, last);
    WeekdayFormula(CalendarDate(year, month, last));
    WeekdayIsSmall(year, month, last);
    assert last >= 28;
    if lastWeekday >= 0 {
      TruncatedIsEuclidean(lastWeekday - weekday + 7, 7);
      hide GregorianWeekday, DaysInMonth, DayNumber, TruncMod, Weekday, WeekdayFormulaHolds;
      BackInWeek(lastWeekday, DayNumber(CalendarDate(year, month, last)), weekday);
      WithinMonth(year, month, LastWeekdayOfMonth(year, month, weekday));
      LastIs(year, month);
    } else {
      hide GregorianWeekday, DayNumber, WeekdayFormulaHolds;
    }
  }

  lemma LastIs(year: int, month: int)
    requires 1 <= month <= 12
    ensures DayNumber(CalendarDate(year, month, DaysInMonth(year, month)))
            == DayNumber(CalendarDate(year, month, 1)) + DaysInMonth(year, month) - 1
  {
  }

  /** The first such weekday on a day or after it. */
  function FirstFrom(day: int, weekday: int): int {
    day + (weekday - Weekday(day)) % 7
  }

  lemma FirstFromIs(day: int, weekday: int, n: int)
    requires 0 <= weekday <= 6
    ensures n == FirstFrom(day, weekday) <==> day <= n < day + 7 && Weekday(n) == weekday
  {
    var gap := (weekday - Weekday(day)) % 7;
    assert gap == if weekday >= Weekday(day) then weekday - Weekday(day) else weekday - Weekday(day) + 7;
    var k := n - day;
    if 0 <= k < 7 {
      assert n % 7 == if day % 7 + k < 7 then day % 7 + k else day % 7 + k - 7;
    }
  }

  lemma NthIsFirstFrom(year: int, month: int, nth: int, weekday: int)
    requires year >= 1 && 1 <= month <= 12 && 1 <= nth <= 4 && 0 <= weekday <= 6
    ensures var r := NthWeekdayOfMonth(year, month, nth, weekday);
            && 7 * (nth - 1) < r <= 7 * nth && r <= DaysInMonth(year, month)
            && DayNumber(CalendarDate(year, month, r))
               == FirstFrom(DayNumber(CalendarDate(year, month, 7 * nth - 6)), weekday)
  {
    NthWeekday(year, month, nth, weekday);
    NthWeekdayExactly(year, month, nth, weekday);
    var r := NthWeekdayOfMonth(year, month, nth, weekday);
    assert DayNumber(CalendarDate(year, month, r))
           == DayNumber(CalendarDate(year, month, 7 * nth - 6)) + r - (7 * nth - 6);
    hide NthWeekdayOfMonth, DayNumber, Weekday;
    FirstFromIs(DayNumber(CalendarDate(year, month, 7 * nth - 6)), weekday, DayNumber(CalendarDate(year, month, r)));
  }

  lemma LastIsFirstFrom(year: int, month: int, weekday: int)
    requires year >= 1 && 1 <= month <= 12 && 0 <= weekday <= 6
    ensures var r := LastWeekdayOfMonth(year, month, weekday);
            && DaysInMonth(year, month) - 7 < r <= DaysInMonth(year, month)
            && DayNumber(CalendarDate(year, month, r))
               == FirstFrom(DayNumber(CalendarDate(year, month, DaysInMonth(year, month) - 6)), weekday)
  {
    LastWeekday(year, month, weekday);
    var r, last := LastWeekdayOfMonth(year, month, weekday), DaysInMonth(year, month);
    assert DayNumber(CalendarDate(year, month, r)) == DayNumber(CalendarDate(year, month, last - 6)) + r - (last - 6);
    hide LastWeekdayOfMonth, DayNumber, Weekday, DaysInMonth;
    FirstFromIs(DayNumber(CalendarDate(year, month, last - 6)), weekday, DayNumber(CalendarDate(year, month, r)));
  }

  // ---------------------------------------------------------------- Good Friday

  /** The computus: Easter is this many days after 22 March. */
  function EasterOffset(year: int): int
    requires year >= 1
  {
    var h, l := EpactTerm(year), SundayTerm(year);
    h + l - 7 * ((year % 19 + 11 * h + 22 * l) / 451)
  }

  function EpactTerm(year: int): int
    requires year >= 1
  {
    var a := year % 19;
    var b := year / 100;
    var d := b / 4;
    var f := (b + 8) / 25;
    var g := (b - f + 1) / 3;
    (19 * a + b - d - g + 15) % 30
  }

  function SundayTerm(year: int): int
    requires year >= 1
  {
    var b := year / 100;
    var c := year % 100;
    (32 + 2 * (b % 4) + 2 * (c / 4) - EpactTerm(year) - c % 4) % 7
  }

  /** Two days before Easter, whose month and day come from one numerator. */
  function GoodFridayDate(year: int): (d: CalendarDate)
    requires year >= 1
  {
    var n := EasterOffset(year) + 114;
    var easter := Tm(CalendarDate(year, n / 31, n % 31 + 1), 0, 0, 0);
    EasterInRange(year);
    assert DayOf(TimeOf(easter) - 2 * DAY) >= 1 by {
      YearsInOrder(1, year);
      assert DaysBeforeYear(1) == 0;
      EasterDay(year);
      MarchStart(year);
    }
    GmTime(TimeOf(easter) - 2 * DAY).date
  }

  lemma EasterInRange(year: int)
    requires year >= 1
    ensures 0 <= EasterOffset(year) <= 34
  {
    var a, h, l := year % 19, EpactTerm(year), SundayTerm(year);
    hide EpactTerm, SundayTerm;
    var m := (a + 11 * h + 22 * l) / 451;
    assert m == if a + 11 * h + 22 * l >= 451 then 1 else 0;
  }

  lemma MarchStart(year: int)
    ensures DayNumber(CalendarDate(year, 3, 22)) >= DaysBeforeYear(year) + 81
  {
  }

  lemma EasterDay(year: int)
    requires year >= 1
    ensures var n := EasterOffset(year) + 114;
            1 <= n / 31 <= 12 && ValidDate(CalendarDate(year, n / 31, n % 31 + 1))
            && DayNumber(CalendarDate(year, n / 31, n % 31 + 1))
               == DayNumber(CalendarDate(year, 3, 22)) + EasterOffset(year)
  {
    EasterInRange(year);
    var n := EasterOffset(year) + 114;
    hide EasterOffset;
    if n < 124 {
      assert n / 31 == 3 && n % 31 == n - 93;
    } else {
      assert n / 31 == 4 && n % 31 == n - 124;
    }
  }

  /** The century arithmetic that makes Easter a Sunday. */
  lemma EasterIsSunday(year: int)
    requires year >= 1
    ensures Weekday(DayNumber(CalendarDate(year, 3, 22)) + EasterOffset(year)) == 0
  {
    var b, c := year / 100, year % 100;
    var d, e, i, k := b / 4, b % 4, c / 4, c % 4;
    var h, l := EpactTerm(year), SundayTerm(year);
    var m := (year % 19 + 11 * h + 22 * l) / 451;
    assert year / 4 == 25 * b + i;
    assert year / 400 == d;
    var weeks := DayNumberInWeeks(CalendarDate(year, 3, 22));
    var march := DayNumber(CalendarDate(year, 3, 22));
    var s := year + LeapYearsThrough(year) + 24;
    assert march == s + 7 * weeks;
    assert s == 124 * b + 5 * i + k + d + 24;
    assert b == 4 * d + e;
    var r := 32 + 2 * e + 2 * i - h - k;
    assert l == r % 7;
    hide *;
    var q := r / 7;
    assert r == 7 * q + l;
    assert s + (h + l - 7 * m) == 7 * (71 * d + 18 * e + i + 8 - q - m);
    ModShift(s + (h + l - 7 * m), 0, 71 * d + 18 * e + i + 8 - q - m);
    ModShift(march + (h + l - 7 * m), s + (h + l - 7 * m), weeks);
  }

  lemma SpringDays(year: int, k: int)
    requires 20 <= k <= 56
    ensures DayNumber(CalendarDate(year, 3, k)) == DayNumber(CalendarDate(year, 3, 20)) + k - 20
    ensures DayNumber(CalendarDate(year, 4, k - 31)) == DayNumber(CalendarDate(year, 3, 20)) + k - 20
  {
  }

  lemma GoodFridayDay(year: int)
    requires year >= 1
    ensures var g := GoodFridayDate(year);
            && ValidDate(g) && g.year >= 1
            && DayNumber(g) == DayNumber(CalendarDate(year, 3, 20)) + EasterOffset(year)
  {
    EasterDay(year);
    SpringDays(year, 22);
    hide EasterOffset, DayNumber;
  }

  /** Between 20 March and 23 April of a year. */
  lemma SpringDate(g: CalendarDate, year: int)
    requires ValidDate(g)
    requires DayNumber(CalendarDate(year, 3, 20)) <= DayNumber(g) <= DayNumber(CalendarDate(year, 4, 23))
    ensures g.year == year && (g.month == 3 || g.month == 4)
  {
    var march, april := CalendarDate(year, 3, 20), CalendarDate(year, 4, 23);
    DayNumberOrders(g, march);
    DayNumberOrders(april, g);
    hide DayNumber;
  }

  lemma TwoDaysBeforeSunday(n: int)
    requires Weekday(n) == 0
    ensures Weekday(n - 2) == 5
  {
  }

  lemma ValidMonth(d: CalendarDate)
    requires ValidDate(d)
    ensures 1 <= d.month <= 12
  {
  }

  /** Good Friday is a Friday from 20 March to 23 April of its year. */
  lemma GoodFriday(year: int)
    requires year >= 1
    ensures var g := GoodFridayDate(year);
            && ValidDate(g) && g.year == year && (g.month == 3 || g.month == 4)
            && Weekday(DayNumber(g)) == 5
            && DayNumber(CalendarDate(year, 3, 20)) <= DayNumber(g) <= DayNumber(CalendarDate(year, 4, 23))
  {
    hide *;
    EasterInRange(year);
    EasterIsSunday(year);
    GoodFridayDay(year);
    SpringDays(year, 22);
    SpringDays(year, 54);
    var g := GoodFridayDate(year);
    ValidMonth(g);
    TwoDaysBeforeSunday(DayNumber(g) + 2);
    SpringDate(g, year);
  }

  /** Two days later is a Sunday from 22 March to 25 April. */
  lemma EasterSunday(year: int)
    requires year >= 1
    ensures var easter := DayNumber(GoodFridayDate(year)) + 2;
            && Weekday(easter) == 0
            && DayNumber(CalendarDate(year, 3, 22)) <= easter <= DayNumber(CalendarDate(year, 4, 25))
  {
    hide *;
    EasterInRange(year);
    EasterIsSunday(year);
    GoodFridayDay(year);
    SpringDays(year, 22);
    SpringDays(year, 56);
  }

  // ---------------------------------------------------------------- the ecclesiastical full moon

  /** The epact of the Gregorian ecclesiastical calendar: the moon's age on New Year's Day, from the golden
      number and the century's solar and lunar corrections. */
  function Epact(year: int): int
    requires year >= 1
  {
    var golden, century := year % 19 + 1, year / 100 + 1;
    var epact := (11 * golden + 20 + ((8 * century + 5) / 25 - 5) - (3 * century / 4 - 12)) % 30;
    if epact == 24 || (epact == 25 && golden > 11) then epact + 1 else epact
  }

  /** The first ecclesiastical full moon from 21 March on, as a day number. */
  function PaschalFullMoon(year: int): int
    requires year >= 1
  {
    var day := 44 - Epact(year);
    DayNumber(CalendarDate(year, 3, 1)) - 1 + if day < 21 then day + 30 else day
  }

  /** The two ways of writing the century's corrections. */
  lemma CenturyCorrections(b: int)
    requires b >= 0
    ensures b - b / 4 - (b - (b + 8) / 25 + 1) / 3 == 3 * (b + 1) / 4 - (8 * (b + 1) + 5) / 25
  {
    var q, r := b / 25, b % 25;
    assert b == 25 * q + r;
    assert (b + 8) / 25 == q + if r >= 17 then 1 else 0;
    var x := r - (if r >= 17 then 1 else 0) + 1;
    assert (b - (b + 8) / 25 + 1) == 3 * (8 * q) + x;
    assert (b - (b + 8) / 25 + 1) / 3 == 8 * q + x / 3;
    assert (8 * (b + 1) + 5) == 25 * (8 * q) + (8 * r + 13);
    assert (8 * (b + 1) + 5) / 25 == 8 * q + (8 * r + 13) / 25;
    assert x / 3 == (8 * r + 13) / 25;
    assert 3 * (b + 1) / 4 == b - b / 4;
  }

  lemma ModuloThirty(x: int, y: int, k: int)
    requires x + y == 23 + 30 * k
    ensures x % 30 == if y % 30 <= 23 then 23 - y % 30 else 53 - y % 30
  {
    var q := y / 30;
    assert x == 30 * (k - q) + (23 - y % 30);
  }

  /** The computus' term before its last correction is the epact counted backwards. */
  lemma EpactOfTerm(year: int)
    requires year >= 1
    ensures var h, golden := EpactTerm(year), year % 19 + 1;
            var epact := if h <= 23 then 23 - h else 53 - h;
            0 <= h < 30
            && Epact(year) == if epact == 24 || (epact == 25 && golden > 11) then epact + 1 else epact
  {
    var a, b := year % 19, year / 100;
    CenturyCorrections(b);
    var c := b - b / 4 - (b - (b + 8) / 25 + 1) / 3;
    ModuloThirty(11 * (a + 1) + 27 - c, 19 * a + c + 15, a + 1);
  }

  /** How far the moon is past 21 March. */
  lemma MoonOfTerm(year: int)
    requires year >= 1
    ensures var h := EpactTerm(year);
            PaschalFullMoon(year) == DayNumber(CalendarDate(year, 3, 22)) - 1
                                     + if h == 29 || (h == 28 && year % 19 >= 11) then h - 1 else h
  {
    EpactOfTerm(year);
    hide Epact, EpactTerm;
    MarchDays(year);
    hide DayNumber;
  }

  lemma MarchDays(year: int)
    ensures DayNumber(CalendarDate(year, 3, 22)) == DayNumber(CalendarDate(year, 3, 1)) + 21
  {
  }

  /** The week after the moon. */
  lemma OffsetFollowsMoon(a: int, h: int, l: int)
    requires 0 <= a < 19 && 0 <= h < 30 && 0 <= l < 7
    ensures var moon := if h == 29 || (h == 28 && a >= 11) then h - 1 else h;
            moon <= h + l - 7 * ((a + 11 * h + 22 * l) / 451) <= moon + 6
  {
    assert (a + 11 * h + 22 * l) / 451 == if a + 11 * h + 22 * l >= 451 then 1 else 0;
  }

  /** Easter is the first Sunday strictly after the paschal full moon. */
  lemma EasterFollowsFullMoon(year: int)
    requires year >= 1
    ensures var easter := DayNumber(GoodFridayDate(year)) + 2;
            Weekday(easter) == 0 && PaschalFullMoon(year) < easter <= PaschalFullMoon(year) + 7
  {
    hide DayNumber, EpactTerm, SundayTerm, Epact, EasterOffset, PaschalFullMoon, GoodFridayDate, Weekday;
    EasterSunday(year);
    GoodFridayDay(year);
    SpringDays(year, 22);
    MoonOfTerm(year);
    TermsOfOffset(year);
    OffsetFollowsMoon(year % 19, EpactTerm(year), SundayTerm(year));
  }

  lemma TermsOfOffset(year: int)
    requires year >= 1
    ensures var h, l := EpactTerm(year), SundayTerm(year);
            && 0 <= h < 30 && 0 <= l < 7
            && EasterOffset(year) == h + l - 7 * ((year % 19 + 11 * h + 22 * l) / 451)
  {
  }
}
