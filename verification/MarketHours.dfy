/** Trading days, market hours and the searches for the next opening and settlement. */
module MarketHours {
  import opened CivilTime
  import opened MarketCalendar
  import opened NewYorkTime

  // ---------------------------------------------------------------- closures

  /** Why the market is closed; Open stands for the source's empty text. */
  datatype ClosedReason =
    | Open
    | InvalidDate
    | Weekend
    | September11
    | MourningReagan
    | MourningFord
    | HurricaneSandy
    | MourningBush
    | NewYearsDay
    | Juneteenth
    | IndependenceDay
    | ChristmasDay
    | MartinLutherKingDay
    | WashingtonsBirthday
    | MemorialDay
    | LaborDay
    | ThanksgivingDay
    | GoodFridayHoliday

  function OneOffClosure(d: CalendarDate): ClosedReason {
    if d.year == 2001 && d.month == 9 && 11 <= d.day <= 14 then September11
    else if d == CalendarDate(2004, 6, 11) then MourningReagan
    else if d == CalendarDate(2007, 1, 2) then MourningFord
    else if d.year == 2012 && d.month == 10 && 29 <= d.day <= 30 then HurricaneSandy
    else if d == CalendarDate(2018, 12, 5) then MourningBush
    else Open
  }

  /** A fixed-date holiday, moved to Monday from Sunday and, where the rule has it, to Friday from Saturday. */
  predicate Observed(month: int, day: int, weekday: int, holidayMonth: int, holidayDay: int, fridayToo: bool) {
    month == holidayMonth && (day == holidayDay
                              || (day == holidayDay + 1 && weekday == 1)
                              || (fridayToo && day == holidayDay - 1 && weekday == 5))
  }

  function GetMarketClosedReason(year: int, month: int, day: int): ClosedReason
    requires year >= 1
  {
    var weekday := GregorianWeekday(year, month, day);
    if weekday < 0 then InvalidDate
    else if weekday == 0 || weekday == 6 then Weekend
    else if OneOffClosure(CalendarDate(year, month, day)) != Open then OneOffClosure(CalendarDate(year, month, day))
    else if Observed(month, day, weekday, 1, 1, false) then NewYearsDay
    else if year >= 2022 && Observed(month, day, weekday, 6, 19, true) then Juneteenth
    else if Observed(month, day, weekday, 7, 4, true) then IndependenceDay
    else if Observed(month, day, weekday, 12, 25, true) then ChristmasDay
    else if month == 1 && weekday == 1 && day == NthWeekdayOfMonth(year, 1, 3, 1) then MartinLutherKingDay
    else if month == 2 && weekday == 1 && day == NthWeekdayOfMonth(year, 2, 3, 1) then WashingtonsBirthday
    else if month == 5 && weekday == 1 && day == LastWeekdayOfMonth(year, 5, 1) then MemorialDay
    else if month == 9 && weekday == 1 && day == NthWeekdayOfMonth(year, 9, 1, 1) then LaborDay
    else if month == 11 && weekday == 4 && day == NthWeekdayOfMonth(year, 11, 4, 4) then ThanksgivingDay
    else if CalendarDate(year, month, day) == GoodFridayDate(year) then GoodFridayHoliday
    else Open
  }

  predicate IsMarketTradingDay(d: CalendarDate)
    requires d.year >= 1
  {
    GetMarketClosedReason(d.year, d.month, d.day) == Open
  }

  function MarketCloseMinutesForDate(d: CalendarDate): (minutes: int)
    requires d.year >= 1
    ensures minutes != 0 <==> IsMarketTradingDay(d)
  {
    if !IsMarketTradingDay(d) then 0
    else
      var weekday := GregorianWeekday(d.year, d.month, d.day);
      var thanksgiving := NthWeekdayOfMonth(d.year, 11, 4, 4);
      if || (d.month == 7 && d.day == 3)
         || (d.month == 11 && weekday == 5 && d.day == thanksgiving + 1)
         || (d.month == 12 && d.day == 24) then 13 * 60
      else 16 * 60
  }

  predicate Trading(n: int)
    requires n >= 1
  {
    IsMarketTradingDay(DateOfDay(n))
  }

  lemma TradingIsWeekday(n: int)
    requires n >= 1 && Trading(n)
    ensures 1 <= Weekday(n) <= 5
  {
    WeekdayFormula(DateOfDay(n));
    hide GregorianWeekday, DateOfDay;
  }

  // ---------------------------------------------------------------- the calendar in day numbers

  /** A date of a year as a day number. */
  function DayIn(year: int, month: int, day: int): int
    requires 1 <= month <= 12
  {
    DayNumber(CalendarDate(year, month, day))
  }

  /** A fixed holiday is kept on Monday when it falls on Sunday, on Friday when it falls on Saturday. */
  function Kept(n: int): int {
    if Weekday(n) == 0 then n + 1 else if Weekday(n) == 6 then n - 1 else n
  }

  /** New Year's Day is not kept on the Friday before. */
  function KeptNewYear(n: int): int {
    if Weekday(n) == 0 then n + 1 else n
  }

  predicate FixedHolidayKept(year: int, n: int) {
    || n == KeptNewYear(DayIn(year, 1, 1))
    || (year >= 2022 && n == Kept(DayIn(year, 6, 19)))
    || n == Kept(DayIn(year, 7, 4))
    || n == Kept(DayIn(year, 12, 25))
  }

  /** The third Mondays of January and February, the last of May, the first of September, the fourth Thursday
      of November, and the Friday before the first Sunday after the paschal full moon. */
  predicate MovableHoliday(year: int, n: int)
    requires year >= 1
  {
    || n == FirstFrom(DayIn(year, 1, 15), 1)
    || n == FirstFrom(DayIn(year, 2, 15), 1)
    || n == FirstFrom(DayIn(year, 5, 25), 1)
    || n == FirstFrom(DayIn(year, 9, 1), 1)
    || n == Thanksgiving(year)
    || n == FirstFrom(PaschalFullMoon(year) + 1, 0) - 2
  }

  function Thanksgiving(year: int): int {
    FirstFrom(DayIn(year, 11, 22), 4)
  }

  predicate ClosedOnce(year: int, n: int) {
    || (year == 2001 && DayIn(2001, 9, 11) <= n <= DayIn(2001, 9, 14))
    || (year == 2004 && n == DayIn(2004, 6, 11))
    || (year == 2007 && n == DayIn(2007, 1, 2))
    || (year == 2012 && DayIn(2012, 10, 29) <= n <= DayIn(2012, 10, 30))
    || (year == 2018 && n == DayIn(2018, 12, 5))
  }

  /** A day number inside one month of a year is a date of that month. */
  lemma InMonth(d: CalendarDate, year: int, month: int, first: int, last: int)
    requires ValidDate(d) && 1 <= month <= 12 && 1 <= first <= last <= DaysInMonth(year, month)
    ensures DayIn(year, month, first) <= DayNumber(d) <= DayIn(year, month, last)
            <==> d.year == year && d.month == month && first <= d.day <= last
    ensures DayIn(year, month, last) == DayIn(year, month, first) + last - first
  {
    hide DayNumber, DaysInMonth;
    DayNumberOrders(d, CalendarDate(year, month, first));
    DayNumberOrders(CalendarDate(year, month, last), d);
    DaysApart(year, month, first, last);
  }

  lemma DaysApart(year: int, month: int, first: int, last: int)
    requires 1 <= month <= 12
    ensures DayIn(year, month, last) == DayIn(year, month, first) + last - first
  {
  }

  lemma OnDate(d: CalendarDate, year: int, month: int, day: int)
    requires ValidDate(d) && 1 <= month <= 12 && 1 <= day <= DaysInMonth(year, month)
    ensures DayNumber(d) == DayIn(year, month, day) <==> d == CalendarDate(year, month, day)
  {
    hide DayNumber, DaysInMonth, DayIn;
    InMonth(d, year, month, day, day);
  }

  /** The source's test for an observed holiday. */
  lemma ObservedIsKept(d: CalendarDate, month: int, day: int)
    requires ValidDate(d) && 1 <= month <= 12 && 1 < day < DaysInMonth(d.year, month)
    requires 1 <= Weekday(DayNumber(d)) <= 5
    ensures Observed(d.month, d.day, Weekday(DayNumber(d)), month, day, true)
            <==> DayNumber(d) == Kept(DayIn(d.year, month, day))
  {
    hide DayNumber, DaysInMonth, DayIn;
    OnDate(d, d.year, month, day);
    OnDate(d, d.year, month, day + 1);
    OnDate(d, d.year, month, day - 1);
    DaysApart(d.year, month, day, day + 1);
    DaysApart(d.year, month, day, day - 1);
    NextWeekday(DayIn(d.year, month, day));
    NextWeekday(DayIn(d.year, month, day) - 1);
  }

  lemma NextWeekday(n: int)
    ensures Weekday(n + 1) == if Weekday(n) == 6 then 0 else Weekday(n) + 1
  {
  }

  lemma NewYearIsKept(d: CalendarDate)
    requires ValidDate(d) && 1 <= Weekday(DayNumber(d)) <= 5
    ensures Observed(d.month, d.day, Weekday(DayNumber(d)), 1, 1, false)
            <==> DayNumber(d) == KeptNewYear(DayIn(d.year, 1, 1))
  {
    hide DayNumber, DayIn;
    OnDate(d, d.year, 1, 1);
    OnDate(d, d.year, 1, 2);
    DaysApart(d.year, 1, 1, 2);
    NextWeekday(DayIn(d.year, 1, 1));
  }

  /** The source's test for the nth weekday of a month. */
  lemma NthIsMovable(d: CalendarDate, month: int, nth: int, weekday: int)
    requires ValidDate(d) && d.year >= 1 && 1 <= month <= 12 && 1 <= nth <= 4 && 0 <= weekday <= 6
    ensures (d.month == month && Weekday(DayNumber(d)) == weekday
             && d.day == NthWeekdayOfMonth(d.year, month, nth, weekday))
            <==> DayNumber(d) == FirstFrom(DayIn(d.year, month, 7 * nth - 6), weekday)
  {
    NthIsFirstFrom(d.year, month, nth, weekday);
    hide DayNumber, DaysInMonth, NthWeekdayOfMonth, FirstFrom, Weekday;
    OnDate(d, d.year, month, NthWeekdayOfMonth(d.year, month, nth, weekday));
    FirstFromIs(DayIn(d.year, month, 7 * nth - 6), weekday, DayNumber(d));
  }

  lemma LastIsMovable(d: CalendarDate)
    requires ValidDate(d) && d.year >= 1
    ensures d.month == 5 && Weekday(DayNumber(d)) == 1 && d.day == LastWeekdayOfMonth(d.year, 5, 1)
            <==> DayNumber(d) == FirstFrom(DayIn(d.year, 5, 25), 1)
  {
    LastIsFirstFrom(d.year, 5, 1);
    assert DaysInMonth(d.year, 5) == 31;
    hide DayNumber, DaysInMonth, LastWeekdayOfMonth, FirstFrom, Weekday;
    OnDate(d, d.year, 5, LastWeekdayOfMonth(d.year, 5, 1));
    FirstFromIs(DayIn(d.year, 5, 25), 1, DayNumber(d));
  }

  lemma GoodFridayIsMovable(d: CalendarDate)
    requires ValidDate(d) && d.year >= 1
    ensures d == GoodFridayDate(d.year) <==> DayNumber(d) == FirstFrom(PaschalFullMoon(d.year) + 1, 0) - 2
  {
    hide DayNumber, GoodFridayDate, PaschalFullMoon, FirstFrom, Weekday, DaysInMonth;
    EasterFollowsFullMoon(d.year);
    GoodFriday(d.year);
    var g := GoodFridayDate(d.year);
    OnDate(d, g.year, g.month, g.day);
    FirstFromIs(PaschalFullMoon(d.year) + 1, 0, DayNumber(g) + 2);
  }

  lemma OneOffIsClosedOnce(d: CalendarDate)
    requires ValidDate(d)
    ensures OneOffClosure(d) != Open <==> ClosedOnce(d.year, DayNumber(d))
  {
    hide DayNumber, DayIn;
    InMonth(d, 2001, 9, 11, 14);
    OnDate(d, 2004, 6, 11);
    OnDate(d, 2007, 1, 2);
    InMonth(d, 2012, 10, 29, 30);
    OnDate(d, 2018, 12, 5);
  }

  /** The source's holidays by the calendar of dates. */
  predicate FixedByDate(d: CalendarDate, weekday: int) {
    || Observed(d.month, d.day, weekday, 1, 1, false)
    || (d.year >= 2022 && Observed(d.month, d.day, weekday, 6, 19, true))
    || Observed(d.month, d.day, weekday, 7, 4, true)
    || Observed(d.month, d.day, weekday, 12, 25, true)
  }

  predicate MovableByDate(d: CalendarDate, weekday: int)
    requires d.year >= 1
  {
    || (d.month == 1 && weekday == 1 && d.day == NthWeekdayOfMonth(d.year, 1, 3, 1))
    || (d.month == 2 && weekday == 1 && d.day == NthWeekdayOfMonth(d.year, 2, 3, 1))
    || (d.month == 5 && weekday == 1 && d.day == LastWeekdayOfMonth(d.year, 5, 1))
    || (d.month == 9 && weekday == 1 && d.day == NthWeekdayOfMonth(d.year, 9, 1, 1))
    || (d.month == 11 && weekday == 4 && d.day == NthWeekdayOfMonth(d.year, 11, 4, 4))
    || d == GoodFridayDate(d.year)
  }

  lemma FixedAgree(d: CalendarDate)
    requires ValidDate(d) && 1 <= Weekday(DayNumber(d)) <= 5
    ensures FixedByDate(d, Weekday(DayNumber(d))) <==> FixedHolidayKept(d.year, DayNumber(d))
  {
    hide DayNumber, Weekday, Observed, Kept, KeptNewYear, DayIn;
    NewYearIsKept(d);
    ObservedIsKept(d, 6, 19);
    ObservedIsKept(d, 7, 4);
    ObservedIsKept(d, 12, 25);
  }

  lemma MovableAgree(d: CalendarDate)
    requires ValidDate(d) && d.year >= 1
    ensures MovableByDate(d, Weekday(DayNumber(d))) <==> MovableHoliday(d.year, DayNumber(d))
  {
    hide DayNumber, Weekday, FirstFrom, NthWeekdayOfMonth, LastWeekdayOfMonth, GoodFridayDate, PaschalFullMoon;
    hide DayIn;
    NthIsMovable(d, 1, 3, 1);
    NthIsMovable(d, 2, 3, 1);
    LastIsMovable(d);
    NthIsMovable(d, 9, 1, 1);
    NthIsMovable(d, 11, 4, 4);
    GoodFridayIsMovable(d);
  }

  lemma ReasonByDate(d: CalendarDate)
    requires ValidDate(d) && d.year >= 1
    ensures var weekday := GregorianWeekday(d.year, d.month, d.day);
            1 <= weekday <= 5 ==>
              (!IsMarketTradingDay(d)
               <==> OneOffClosure(d) != Open || FixedByDate(d, weekday) || MovableByDate(d, weekday))
  {
    hide GregorianWeekday, Observed, OneOffClosure, NthWeekdayOfMonth, LastWeekdayOfMonth, GoodFridayDate;
  }

  /** The closed days, in every year exactly these: Saturdays and Sundays, the fixed holidays as they are kept,
      the movable ones and the one-off closures. */
  lemma ClosedExactly(n: int)
    requires n >= 1
    ensures var year := DateOfDay(n).year;
            !Trading(n) <==> || Weekday(n) == 0 || Weekday(n) == 6
                             || FixedHolidayKept(year, n) || MovableHoliday(year, n) || ClosedOnce(year, n)
  {
    var d := DateOfDay(n);
    if Trading(n) {
      TradingIsWeekday(n);
    }
    hide DateOfDay, DayNumber, Weekday, GregorianWeekday, IsMarketTradingDay, OneOffClosure;
    hide FixedByDate, MovableByDate, FixedHolidayKept, MovableHoliday, ClosedOnce, DaysInMonth;
    WeekdayFormula(d);
    WeekdayIsSmall(d.year, d.month, d.day);
    if 1 <= Weekday(n) <= 5 {
      ReasonByDate(d);
      FixedAgree(d);
      MovableAgree(d);
      OneOffIsClosedOnce(d);
    }
  }

  /** What each reason says about a day, in day numbers. */
  predicate Explains(reason: ClosedReason, year: int, n: int)
    requires year >= 1
  {
    match reason
    case Open => true
    case InvalidDate => false
    case Weekend => Weekday(n) == 0 || Weekday(n) == 6
    case September11 => year == 2001 && DayIn(2001, 9, 11) <= n <= DayIn(2001, 9, 14)
    case MourningReagan => n == DayIn(2004, 6, 11)
    case MourningFord => n == DayIn(2007, 1, 2)
    case HurricaneSandy => year == 2012 && DayIn(2012, 10, 29) <= n <= DayIn(2012, 10, 30)
    case MourningBush => n == DayIn(2018, 12, 5)
    case NewYearsDay => n == KeptNewYear(DayIn(year, 1, 1))
    case Juneteenth => year >= 2022 && n == Kept(DayIn(year, 6, 19))
    case IndependenceDay => n == Kept(DayIn(year, 7, 4))
    case ChristmasDay => n == Kept(DayIn(year, 12, 25))
    case MartinLutherKingDay => n == FirstFrom(DayIn(year, 1, 15), 1)
    case WashingtonsBirthday => n == FirstFrom(DayIn(year, 2, 15), 1)
    case MemorialDay => n == FirstFrom(DayIn(year, 5, 25), 1)
    case LaborDay => n == FirstFrom(DayIn(year, 9, 1), 1)
    case ThanksgivingDay => n == Thanksgiving(year)
    case GoodFridayHoliday => n == FirstFrom(PaschalFullMoon(year) + 1, 0) - 2
  }

  lemma OneOffExplained(d: CalendarDate)
    requires ValidDate(d) && d.year >= 1
    ensures Explains(OneOffClosure(d), d.year, DayNumber(d))
  {
    hide DayNumber, DayIn;
    InMonth(d, 2001, 9, 11, 14);
    OnDate(d, 2004, 6, 11);
    OnDate(d, 2007, 1, 2);
    InMonth(d, 2012, 10, 29, 30);
    OnDate(d, 2018, 12, 5);
  }

  lemma FixedExplained(d: CalendarDate)
    requires ValidDate(d) && d.year >= 1 && 1 <= Weekday(DayNumber(d)) <= 5
    ensures var w, n := Weekday(DayNumber(d)), DayNumber(d);
            && (Observed(d.month, d.day, w, 1, 1, false) ==> Explains(NewYearsDay, d.year, n))
            && (d.year >= 2022 && Observed(d.month, d.day, w, 6, 19, true) ==> Explains(Juneteenth, d.year, n))
            && (Observed(d.month, d.day, w, 7, 4, true) ==> Explains(IndependenceDay, d.year, n))
            && (Observed(d.month, d.day, w, 12, 25, true) ==> Explains(ChristmasDay, d.year, n))
  {
    hide DayNumber, Weekday, Observed, Kept, KeptNewYear, DayIn, FirstFrom, PaschalFullMoon;
    NewYearIsKept(d);
    ObservedIsKept(d, 6, 19);
    ObservedIsKept(d, 7, 4);
    ObservedIsKept(d, 12, 25);
  }

  lemma MovableExplained(d: CalendarDate)
    requires ValidDate(d) && d.year >= 1
    ensures var w, n, year := Weekday(DayNumber(d)), DayNumber(d), d.year;
            && (d.month == 1 && w == 1 && d.day == NthWeekdayOfMonth(year, 1, 3, 1) ==>
                  Explains(MartinLutherKingDay, year, n))
            && (d.month == 2 && w == 1 && d.day == NthWeekdayOfMonth(year, 2, 3, 1) ==>
                  Explains(WashingtonsBirthday, year, n))
            && (d.month == 5 && w == 1 && d.day == LastWeekdayOfMonth(year, 5, 1) ==> Explains(MemorialDay, year, n))
            && (d.month == 9 && w == 1 && d.day == NthWeekdayOfMonth(year, 9, 1, 1) ==> Explains(LaborDay, year, n))
            && (d.month == 11 && w == 4 && d.day == NthWeekdayOfMonth(year, 11, 4, 4) ==>
                  Explains(ThanksgivingDay, year, n))
            && (d == GoodFridayDate(year) ==> Explains(GoodFridayHoliday, year, n))
  {
    hide DayNumber, Weekday, FirstFrom, NthWeekdayOfMonth, LastWeekdayOfMonth, GoodFridayDate, PaschalFullMoon;
    hide DayIn, Kept, KeptNewYear;
    NthIsMovable(d, 1, 3, 1);
    NthIsMovable(d, 2, 3, 1);
    LastIsMovable(d);
    NthIsMovable(d, 9, 1, 1);
    NthIsMovable(d, 11, 4, 4);
    GoodFridayIsMovable(d);
  }

  /** The reason given for a closed day is a true one, and there is none for an open day. */
  lemma ReasonIsTrue(n: int)
    requires n >= 1
    ensures var d := DateOfDay(n); var reason := GetMarketClosedReason(d.year, d.month, d.day);
            Explains(reason, d.year, n) && (reason == Open <==> Trading(n))
  {
    var d := DateOfDay(n);
    hide DateOfDay, DayNumber, Weekday, GregorianWeekday, OneOffClosure, Observed;
    hide NthWeekdayOfMonth, LastWeekdayOfMonth, GoodFridayDate, DaysInMonth;
    WeekdayFormula(d);
    FromYearOne(d);
    WeekdayIsSmall(d.year, d.month, d.day);
    OneOffExplained(d);
    WeekendExplained(d.year, n);
    if 1 <= Weekday(n) <= 5 {
      FixedExplained(d);
      MovableExplained(d);
    }
    hide Explains;
  }

  /** What is no date at all is told from a closed day. */
  lemma InvalidIsSaid(d: CalendarDate)
    requires d.year >= 1
    ensures GetMarketClosedReason(d.year, d.month, d.day) == InvalidDate <==> !ValidDate(d)
  {
    if ValidDate(d) {
      FromYearOne(d);
      WeekdayFormula(d);
    }
    hide GoodFridayDate, NthWeekdayOfMonth, LastWeekdayOfMonth, DayNumber, WeekdayFormulaHolds, Observed;
  }

  lemma WeekendExplained(year: int, n: int)
    requires year >= 1
    ensures Weekday(n) == 0 || Weekday(n) == 6 ==> Explains(Weekend, year, n)
    ensures Explains(Open, year, n)
  {
  }

  /** The source's test for a half day. */
  predicate HalfByDate(d: CalendarDate, weekday: int) {
    || (d.month == 7 && d.day == 3)
    || (d.month == 11 && weekday == 5 && d.day == NthWeekdayOfMonth(d.year, 11, 4, 4) + 1)
    || (d.month == 12 && d.day == 24)
  }

  lemma CloseByDate(d: CalendarDate)
    requires d.year >= 1 && IsMarketTradingDay(d)
    ensures MarketCloseMinutesForDate(d)
            == if HalfByDate(d, GregorianWeekday(d.year, d.month, d.day)) then 13 * 60 else 16 * 60
  {
    hide IsMarketTradingDay, GregorianWeekday, NthWeekdayOfMonth;
  }

  predicate HalfDay(year: int, n: int) {
    n == DayIn(year, 7, 3) || n == Thanksgiving(year) + 1 || n == DayIn(year, 12, 24)
  }

  lemma HalfDaysAgree(d: CalendarDate)
    requires ValidDate(d) && d.year >= 1
    ensures HalfByDate(d, Weekday(DayNumber(d))) <==> HalfDay(d.year, DayNumber(d))
  {
    hide DayNumber, Weekday, FirstFrom, NthWeekdayOfMonth, DayIn;
    NthIsThanksgiving(d.year);
    OnDate(d, d.year, 7, 3);
    OnDate(d, d.year, 12, 24);
    NovemberDay(d, NthWeekdayOfMonth(d.year, 11, 4, 4));
    NextWeekday(Thanksgiving(d.year));
  }

  lemma NthIsThanksgiving(year: int)
    requires year >= 1
    ensures var t := NthWeekdayOfMonth(year, 11, 4, 4);
            22 <= t <= 28 && Thanksgiving(year) == DayIn(year, 11, t) && Weekday(Thanksgiving(year)) == 4
  {
    hide DayNumber, Weekday, FirstFrom, NthWeekdayOfMonth;
    NthIsFirstFrom(year, 11, 4, 4);
    FirstFromIs(DayIn(year, 11, 22), 4, Thanksgiving(year));
  }

  /** The trading days that close at 13:00, exactly these: 3 July, the day after Thanksgiving and Christmas Eve;
      all others close at 16:00. */
  lemma ClosesExactly(n: int)
    requires n >= 1 && Trading(n)
    ensures CloseMinutes(n) == if HalfDay(DateOfDay(n).year, n) then 13 * 60 else 16 * 60
  {
    hide DateOfDay, DayNumber, Weekday, GregorianWeekday, IsMarketTradingDay;
    hide HalfByDate, HalfDay, MarketCloseMinutesForDate;
    var d := DateOfDay(n);
    WeekdayFormula(d);
    FromYearOne(d);
    CloseByDate(d);
    HalfDaysAgree(d);
  }

  lemma FromYearOne(d: CalendarDate)
    requires ValidDate(d) && d.year >= 1
    ensures WeekdayFormulaHolds(d.year, d.month, d.day)
  {
    hide WeekdaySum;
  }

  lemma NovemberDay(d: CalendarDate, t: int)
    requires ValidDate(d) && 22 <= t <= 28
    ensures DayNumber(d) == DayIn(d.year, 11, t) + 1 <==> d.month == 11 && d.day == t + 1
  {
    OnDate(d, d.year, 11, t + 1);
    DaysApart(d.year, 11, t, t + 1);
    hide DayNumber, DayIn;
  }

  /** The weekdays of the one-off closures. */
  lemma OneOffWeekday(d: CalendarDate)
    requires OneOffClosure(d) != Open
    ensures ValidDate(d)
    ensures Weekday(DayNumber(d)) == 2 ==> d == CalendarDate(2001, 9, 11) || d == CalendarDate(2007, 1, 2)
                                           || d == CalendarDate(2012, 10, 30)
    ensures Weekday(DayNumber(d)) == 3 ==> d == CalendarDate(2001, 9, 12) || d == CalendarDate(2018, 12, 5)
  {
    assert LeapYearsThrough(2000) == 485 && LeapYearsThrough(2003) == 485 && LeapYearsThrough(2006) == 486;
    assert LeapYearsThrough(2011) == 487 && LeapYearsThrough(2017) == 489;
    assert DaysBeforeYear(2001) == 7 * 104355;
    assert DaysBeforeYear(2004) == 7 * 104511 + 3;
    assert DaysBeforeYear(2007) == 7 * 104668;
    assert DaysBeforeYear(2012) == 7 * 104928 + 6;
    assert DaysBeforeYear(2018) == 7 * 105242;
    hide DaysBeforeYear;
  }

  predicate FixedHoliday(d: CalendarDate) {
    || (d.month == 1 && d.day == 1) || (d.month == 6 && d.day == 19)
    || (d.month == 7 && d.day == 4) || (d.month == 12 && d.day == 25)
  }

  /** A Tuesday or a Wednesday is closed only on a fixed holiday or a one-off closure. */
  lemma MidweekClosures(d: CalendarDate)
    requires ValidDate(d) && d.year >= 1 && !IsMarketTradingDay(d)
    requires 2 <= Weekday(DayNumber(d)) <= 3
    ensures FixedHoliday(d) || OneOffClosure(d) != Open
  {
    hide GregorianWeekday, DayNumber, Weekday, DaysInMonth, GoodFridayDate, OneOffClosure;
    hide NthWeekdayOfMonth, LastWeekdayOfMonth;
    WeekdayFormula(d);
    GoodFriday(d.year);
  }

  /** A Monday in September other than Labor Day is open. */
  lemma SeptemberMonday(d: CalendarDate)
    requires ValidDate(d) && d.year >= 1 && d.month == 9 && d.day > 7
    requires Weekday(DayNumber(d)) == 1 && OneOffClosure(d) == Open
    ensures IsMarketTradingDay(d)
  {
    hide GregorianWeekday, DayNumber, Weekday, DaysInMonth, GoodFridayDate, OneOffClosure;
    hide NthWeekdayOfMonth, LastWeekdayOfMonth;
    WeekdayFormula(d);
    NthWeekday(d.year, 9, 1, 1);
    GoodFriday(d.year);
  }

  lemma DayBefore(n: int, d: CalendarDate)
    requires n >= 1 && ValidDate(d) && DateOfDay(n) == d && d.day > 1
    ensures n > 1 && DateOfDay(n - 1) == d.(day := d.day - 1)
  {
    hide DateOfDay;
    DateRoundTrip(d.(day := d.day - 1));
  }

  /** The Mondays around the only week whose Tuesday and Wednesday are both closed. */
  lemma September2001(n: int)
    requires n >= 1 && DateOfDay(n) == CalendarDate(2001, 9, 11) && Weekday(n) == 2
    ensures n > 1 && Trading(n - 1) && Trading(n + 6)
  {
    hide DateOfDay, DayNumber, IsMarketTradingDay;
    var d := CalendarDate(2001, 9, 10);
    DayBefore(n, CalendarDate(2001, 9, 11));
    DaysLater(CalendarDate(2001, 9, 11), 6);
    SeptemberMonday(d);
    SeptemberMonday(CalendarDate(2001, 9, 17));
  }

  predicate TuesdayClosure(d: CalendarDate) {
    || FixedHoliday(d) || d == CalendarDate(2001, 9, 11) || d == CalendarDate(2007, 1, 2)
    || d == CalendarDate(2012, 10, 30)
  }

  predicate WednesdayClosure(d: CalendarDate) {
    FixedHoliday(d) || d == CalendarDate(2001, 9, 12) || d == CalendarDate(2018, 12, 5)
  }

  lemma ClosedMidweek(n: int)
    requires n >= 1 && !Trading(n)
    ensures Weekday(n) == 2 ==> TuesdayClosure(DateOfDay(n))
    ensures Weekday(n) == 3 ==> WednesdayClosure(DateOfDay(n))
  {
    hide DateOfDay, DayNumber, Weekday, OneOffClosure, IsMarketTradingDay;
    var d := DateOfDay(n);
    if 2 <= Weekday(n) <= 3 {
      MidweekClosures(d);
      if OneOffClosure(d) != Open {
        OneOffWeekday(d);
      }
    }
  }

  /** Tuesday and Wednesday of the same week, both closed. */
  lemma AdjacentClosures(tuesday: int)
    requires tuesday >= 1 && Weekday(tuesday) == 2 && !Trading(tuesday) && !Trading(tuesday + 1)
    ensures DateOfDay(tuesday) == CalendarDate(2001, 9, 11)
  {
    hide DateOfDay, DayNumber, Trading, IsLeapYear;
    ClosedMidweek(tuesday);
    ClosedMidweek(tuesday + 1);
    DaysLater(DateOfDay(tuesday), 1);
  }

  /** A closed Wednesday is never followed by a closed Tuesday. */
  lemma WednesdayThenTuesday(wednesday: int)
    requires wednesday >= 1 && Weekday(wednesday) == 3 && !Trading(wednesday)
    ensures Trading(wednesday + 6)
  {
    hide DateOfDay, DayNumber, Trading, IsLeapYear;
    if !Trading(wednesday + 6) {
      ClosedMidweek(wednesday);
      ClosedMidweek(wednesday + 6);
      DaysLater(DateOfDay(wednesday), 6);
      assert false;
    }
  }

  /** Any seven consecutive days hold a trading day. */
  lemma TradingDayInAnyWeek(n: int) returns (k: int)
    requires n >= 1
    ensures n <= k < n + 7 && Trading(k)
  {
    hide Trading, DateOfDay;
    var w := Weekday(n);
    if w == 3 {
      k := n;
      if !Trading(n) {
        WednesdayThenTuesday(n);
        k := n + 6;
      }
      return;
    }
    var tuesday := if w <= 2 then n + 2 - w else n + 9 - w;
    assert Weekday(tuesday) == 2;
    if Trading(tuesday) {
      k := tuesday;
    } else if Trading(tuesday + 1) {
      k := tuesday + 1;
    } else {
      AdjacentClosures(tuesday);
      September2001(tuesday);
      k := if tuesday == n then n + 6 else tuesday - 1;
    }
  }

  // ---------------------------------------------------------------- market hours

  const OPENING_MINUTES: int := 9 * 60 + 30

  predicate IsMarketOpenAt(t: int)
    requires InRange(t)
  {
    var local := CurrentNewYorkTime(t);
    var minutes := local.hour * 60 + local.minute;
    var closeMinutes := MarketCloseMinutesForDate(local.date);
    closeMinutes > 0 && minutes >= OPENING_MINUTES && minutes < closeMinutes
  }

  /** The New York day an instant belongs to, and how far into it the clock reads. */
  function WallDay(t: int): (n: int)
    requires InRange(t)
    ensures n >= 1
  {
    DayOf(Wall(t))
  }

  function WallSecond(t: int): int
    requires InRange(t)
  {
    Wall(t) % DAY
  }

  function CloseMinutes(n: int): int
    requires n >= 1
  {
    MarketCloseMinutesForDate(DateOfDay(n))
  }

  /** The bell: 9:30:00 on a trading day, and the close of a trading day. */
  predicate OpensAt(t: int)
    requires InRange(t)
  {
    Trading(WallDay(t)) && WallSecond(t) == 9 * HOUR + 30 * 60
  }

  predicate SettlesAt(t: int)
    requires InRange(t)
  {
    Trading(WallDay(t)) && WallSecond(t) == CloseMinutes(WallDay(t)) * 60
  }

  lemma OpenByWall(t: int)
    requires InRange(t)
    ensures IsMarketOpenAt(t) <==>
            Trading(WallDay(t)) && OPENING_MINUTES * 60 <= WallSecond(t) < CloseMinutes(WallDay(t)) * 60
  {
    hide DateOfDay, MarketCloseMinutesForDate, IsMarketTradingDay, Wall;
    MinuteOfDay(WallSecond(t));
    CloseIsAfternoon(WallDay(t));
  }

  lemma MinuteOfDay(s: int)
    ensures (s / 60 / 60) * 60 + s / 60 % 60 == s / 60
  {
  }

  lemma CloseIsAfternoon(n: int)
    requires n >= 1
    ensures CloseMinutes(n) == 0 || CloseMinutes(n) == 13 * 60 || CloseMinutes(n) == 16 * 60
    ensures CloseMinutes(n) != 0 <==> Trading(n)
  {
    hide IsMarketTradingDay, DateOfDay, GregorianWeekday, NthWeekdayOfMonth;
  }

  /** The repeated hour falls on the Sunday that ends daylight saving. */
  lemma RepeatedHourIsSunday(t: int)
    requires InRange(t) && InRepeatedHour(t)
    ensures Weekday(WallDay(t)) == 0
  {
    hide DstStartDate, DstEndDate, EasternDstStartUtc, EasternDstEndUtc, UtcYear;
    var start, end := DstDays(UtcYear(t));
    assert NewYorkUtcOffsetSeconds(t) == STANDARD;
    assert WallDay(t) == end;
  }

  /** The offset of a day on which the clocks do not change. */
  function DayOffset(n: int): int
    requires n >= 1
  {
    var d := DateOfDay(n);
    if IsUsEasternDstLocal(d.year, d.month, d.day, 12) then DAYLIGHT else STANDARD
  }

  lemma OffsetOfDay(t: int)
    requires InRange(t) && Weekday(WallDay(t)) != 0
    ensures NewYorkUtcOffsetSeconds(t) == DayOffset(WallDay(t))
  {
    var tm := CurrentNewYorkTime(t);
    if InRepeatedHour(t) {
      RepeatedHourIsSunday(t);
    }
    DstRulesAgree(t);
    if tm.date.year >= 1967 {
      LocalRule(tm.date, tm.hour);
      LocalRule(tm.date, 12);
      var start, end := DstDays(tm.date.year);
    }
    hide DateOfDay, DayNumber, DstStartDate, DstEndDate, Wall, InRepeatedHour, EasternDstStartUtc, EasternDstEndUtc;
    hide UtcYear, Weekday;
    assert tm.date == DateOfDay(WallDay(t));
  }

  /** No instant reads an earlier New York day than an instant before it. */
  lemma WallDayMonotone(t: int, u: int)
    requires InRange(t) && t <= u
    ensures InRange(u) && WallDay(t) <= WallDay(u)
  {
    var offset, later := NewYorkUtcOffsetSeconds(t), NewYorkUtcOffsetSeconds(u);
    var year := UtcYear(t);
    if offset == DAYLIGHT && later == STANDARD {
      var start, end := DstDays(year);
      YearBounds(t);
      hide DstStartDate, DstEndDate, EasternDstStartUtc, EasternDstEndUtc, DayNumber, DaysBeforeYear, GmTime;
      if u < EasternDstEndUtc(year) {
        YearIs(u, year);
        assert false;
      }
      assert WallDay(t) <= end <= WallDay(u);
    } else {
      assert Wall(t) <= Wall(u);
    }
  }

  /** Off Sundays the wall clock orders instants: by day, then by time of day. */
  lemma WallOrders(t: int, u: int)
    requires InRange(t) && InRange(u)
    requires WallDay(t) != WallDay(u) || Weekday(WallDay(t)) != 0
    ensures t < u <==> WallDay(t) < WallDay(u) || (WallDay(t) == WallDay(u) && WallSecond(t) < WallSecond(u))
  {
    hide NewYorkUtcOffsetSeconds, DayOffset, Weekday;
    if WallDay(t) == WallDay(u) {
      OffsetOfDay(t);
      OffsetOfDay(u);
      assert Wall(t) - Wall(u) == t - u;
    } else if t <= u {
      WallDayMonotone(t, u);
    } else {
      WallDayMonotone(u, t);
    }
  }

  lemma WallStep(t: int)
    requires InRange(t) && InRange(t + 1)
    ensures -3599 <= Wall(t + 1) - Wall(t) <= 3601
  {
    hide UtcYear, EasternDstStartUtc, EasternDstEndUtc;
  }

  /** One second earlier, away from midnight, on a trading day. */
  lemma SecondBefore(t: int)
    requires InRange(t) && InRange(t - 1) && Trading(WallDay(t)) && WallSecond(t) >= 2 * HOUR
    ensures WallDay(t - 1) == WallDay(t) && WallSecond(t - 1) == WallSecond(t) - 1
  {
    hide Trading, Weekday, NewYorkUtcOffsetSeconds, DayOffset;
    TradingIsWeekday(WallDay(t));
    WallStep(t - 1);
    OffsetOfDay(t);
    if WallDay(t - 1) == WallDay(t) {
      OffsetOfDay(t - 1);
    } else {
      WallDayMonotone(t - 1, t);
      assert false;
    }
  }

  /** The opening instants are exactly where the market goes from closed to open, the settlement
      instants where it goes from open to closed. */
  lemma BellsAreEdges(t: int)
    requires InRange(t) && InRange(t - 1)
    ensures OpensAt(t) <==> IsMarketOpenAt(t) && !IsMarketOpenAt(t - 1)
    ensures SettlesAt(t) <==> !IsMarketOpenAt(t) && IsMarketOpenAt(t - 1)
  {
    hide Trading, WallDay, WallSecond, CloseMinutes, IsMarketOpenAt;
    OpenByWall(t);
    OpenByWall(t - 1);
    CloseIsAfternoon(WallDay(t));
    CloseIsAfternoon(WallDay(t - 1));
    if Trading(WallDay(t)) && WallSecond(t) >= 2 * HOUR {
      SecondBefore(t);
    } else if IsMarketOpenAt(t - 1) {
      SecondAfter(t - 1);
    }
  }

  lemma SecondAfter(t: int)
    requires InRange(t) && Trading(WallDay(t)) && WallSecond(t) < 20 * HOUR
    ensures InRange(t + 1) && WallDay(t + 1) == WallDay(t) && WallSecond(t + 1) == WallSecond(t) + 1
  {
    hide Trading, Weekday, NewYorkUtcOffsetSeconds, DayOffset;
    TradingIsWeekday(WallDay(t));
    WallStep(t);
    OffsetOfDay(t);
    WallDayMonotone(t, t + 1);
    if WallDay(t + 1) == WallDay(t) {
      OffsetOfDay(t + 1);
    } else {
      assert false;
    }
  }

  // ---------------------------------------------------------------- the searches

  ghost predicate NoOpeningBetween(t: int, r: int) {
    forall u :: t < u < r && InRange(u) ==> !OpensAt(u)
  }

  ghost predicate NoSettlementBetween(t: int, r: int) {
    forall u :: t < u < r && InRange(u) ==> !SettlesAt(u)
  }

  ghost predicate ClosedThroughout(t: int, r: int) {
    forall u :: t <= u < r && InRange(u) ==> !IsMarketOpenAt(u)
  }

  ghost predicate OpenThroughout(t: int, r: int) {
    forall u :: t <= u < r && InRange(u) ==> IsMarketOpenAt(u)
  }

  /** The searches' day: n is the first trading day after `from`, or `from` itself. */
  ghost predicate FirstTradingDay(from: int, n: int, today: bool)
    requires from >= 1
  {
    && n >= from && Trading(n)
    && (today <==> n == from)
    && forall j :: from < j < n ==> !Trading(j)
  }

  /** A wall-clock reading late enough in the day is read back from its instant. */
  lemma ReadBack(n: int, minutes: int)
    requires n >= 2 && 3 * 60 <= minutes < 24 * 60
    ensures var r := LocalToUtc(Tm(DateOfDay(n), minutes / 60, minutes % 60, 0));
            InRange(r) && WallDay(r) == n && WallSecond(r) == minutes * 60
  {
    hide DateOfDay;
    var tm := Tm(DateOfDay(n), minutes / 60, minutes % 60, 0);
    WallOfLocalToUtc(tm);
    hide LocalToUtc, Wall;
    assert TimeOf(tm) == (n - EPOCH_DAY) * DAY + minutes * 60;
  }

  lemma OpeningFound(t: int, n: int, r: int)
    requires InRange(t) && n >= 2
    requires FirstTradingDay(WallDay(t), n, Trading(WallDay(t)) && WallSecond(t) < OPENING_MINUTES * 60)
    requires InRange(r) && WallDay(r) == n && WallSecond(r) == OPENING_MINUTES * 60
    ensures t < r && OpensAt(r) && IsMarketOpenAt(r)
    ensures NoOpeningBetween(t, r)
    ensures !IsMarketOpenAt(t) ==> ClosedThroughout(t, r)
  {
    hide Trading, WallDay, WallSecond, CloseMinutes, IsMarketOpenAt, InRange;
    TradingIsWeekday(n);
    WallOrders(t, r);
    OpenByWall(r);
    OpenByWall(t);
    CloseIsAfternoon(n);
    forall u | t < u < r && InRange(u)
      ensures !OpensAt(u)
    {
      if OpensAt(u) {
        TradingIsWeekday(WallDay(u));
        WallOrders(t, u);
        WallOrders(u, r);
      }
    }
    if !IsMarketOpenAt(t) {
      forall u | t <= u < r && InRange(u)
        ensures !IsMarketOpenAt(u)
      {
        OpenByWall(u);
        if IsMarketOpenAt(u) {
          TradingIsWeekday(WallDay(u));
          WallOrders(t, u);
          WallOrders(u, r);
        }
      }
    }
  }

  lemma SettlementFound(t: int, n: int, r: int)
    requires InRange(t) && n >= 2
    requires FirstTradingDay(WallDay(t), n, Trading(WallDay(t)) && WallSecond(t) < CloseMinutes(WallDay(t)) * 60)
    requires InRange(r) && WallDay(r) == n && WallSecond(r) == CloseMinutes(n) * 60
    ensures t < r && SettlesAt(r) && !IsMarketOpenAt(r)
    ensures NoSettlementBetween(t, r)
    ensures IsMarketOpenAt(t) ==> OpenThroughout(t, r)
  {
    hide Trading, WallDay, WallSecond, CloseMinutes, IsMarketOpenAt, InRange;
    TradingIsWeekday(n);
    WallOrders(t, r);
    OpenByWall(r);
    OpenByWall(t);
    forall u | t < u < r && InRange(u)
      ensures !SettlesAt(u)
    {
      if SettlesAt(u) {
        TradingIsWeekday(WallDay(u));
        WallOrders(t, u);
        WallOrders(u, r);
      }
    }
    if IsMarketOpenAt(t) {
      forall u | t <= u < r && InRange(u)
        ensures IsMarketOpenAt(u)
      {
        OpenByWall(u);
        WallDayMonotone(t, u);
        WallDayMonotone(u, r);
        WallOrders(t, u);
        WallOrders(u, r);
      }
    }
  }

  /** The same clock fields at noon, a day later. */
  lemma NextNoon(tm: Tm)
    requires ValidTm(tm) && tm.date.year >= 1
    ensures var noon := tm.(hour := 12, minute := 0, second := 0);
            DayOf(TimeOf(noon) + DAY) == DayNumber(tm.date) + 1 >= 2
            && GmTime(TimeOf(noon) + DAY).date == DateOfDay(DayNumber(tm.date) + 1)
  {
    hide GmTime, DateOfDay, DayNumber, TimeOf;
    var noon := tm.(hour := 12, minute := 0, second := 0);
    TmRoundTrip(noon);
  }

  /** Advance to noon of the first trading day after the given one, within seven steps. */
  method NextTradingNoon(tm: Tm) returns (candidate: Tm, steps: int)
    requires ValidTm(tm) && tm.date.year >= 1
    ensures ValidTm(candidate) && candidate.date.year >= 1 && 1 <= steps <= 7
    ensures DayNumber(tm.date) >= 1 && DayNumber(candidate.date) == DayNumber(tm.date) + steps
    ensures FirstTradingDay(DayNumber(tm.date), DayNumber(candidate.date), false)
    ensures candidate.date == DateOfDay(DayNumber(candidate.date))
  {
    hide DateOfDay, DayNumber, TimeOf, GmTime, IsMarketTradingDay;
    DateRoundTrip(tm.date);
    ghost var from := DayNumber(tm.date);
    ghost var target := TradingDayInAnyWeek(from + 1);
    NextNoon(tm);
    candidate := GmTime(TimeOf(tm.(hour := 12, minute := 0, second := 0)) + DAY);
    steps := 1;
    while !IsMarketTradingDay(candidate.date)
      invariant ValidTm(candidate) && candidate.date.year >= 1
      invariant 1 <= steps && from + steps <= target
      invariant candidate.date == DateOfDay(from + steps)
      invariant forall j :: from < j < from + steps ==> !Trading(j)
      decreases target - steps
    {
      assert !Trading(from + steps);
      NextNoon(candidate);
      candidate := GmTime(TimeOf(candidate.(hour := 12, minute := 0, second := 0)) + DAY);
      steps := steps + 1;
    }
    assert Trading(from + steps);
  }

  /** The least opening instant strictly after t. A market closed at t stays closed until then. */
  method NextMarketOpenAt(t: int) returns (r: int)
    requires InRange(t) && WallDay(t) >= 2
    ensures t < r && InRange(r) && OpensAt(r) && IsMarketOpenAt(r)
    ensures NoOpeningBetween(t, r)
    ensures !IsMarketOpenAt(t) ==> ClosedThroughout(t, r)
  {
    hide DateOfDay, DayNumber, IsMarketTradingDay, IsMarketOpenAt, Wall, LocalToUtc;
    var candidate := CurrentNewYorkTime(t);
    var minutes := candidate.hour * 60 + candidate.minute;
    MinuteOfDay(WallSecond(t));
    if !IsMarketTradingDay(candidate.date) || minutes >= OPENING_MINUTES {
      var steps;
      candidate, steps := NextTradingNoon(candidate);
    }
    ghost var n := DayNumber(candidate.date);
    candidate := candidate.(hour := 9, minute := 30, second := 0);
    r := LocalToUtc(candidate);
    ReadBack(n, OPENING_MINUTES);
    OpeningFound(t, n, r);
  }

  /** The least settlement instant strictly after t. A market open at t stays open until then. */
  method NextMarketSettlementAt(t: int) returns (r: int)
    requires InRange(t) && WallDay(t) >= 2
    ensures t < r && InRange(r) && SettlesAt(r) && !IsMarketOpenAt(r)
    ensures NoSettlementBetween(t, r)
    ensures IsMarketOpenAt(t) ==> OpenThroughout(t, r)
  {
    hide DateOfDay, DayNumber, IsMarketTradingDay, IsMarketOpenAt, Wall, LocalToUtc, MarketCloseMinutesForDate;
    var candidate := CurrentNewYorkTime(t);
    var minutes := candidate.hour * 60 + candidate.minute;
    var closeMinutes := MarketCloseMinutesForDate(candidate.date);
    MinuteOfDay(WallSecond(t));
    CloseIsAfternoon(WallDay(t));
    if closeMinutes == 0 || minutes >= closeMinutes {
      var steps;
      candidate, steps := NextTradingNoon(candidate);
      closeMinutes := MarketCloseMinutesForDate(candidate.date);
    }
    ghost var n := DayNumber(candidate.date);
    CloseIsAfternoon(n);
    candidate := candidate.(hour := closeMinutes / 60, minute := closeMinutes % 60, second := 0);
    r := LocalToUtc(candidate);
    ReadBack(n, closeMinutes);
    SettlementFound(t, n, r);
  }
}
