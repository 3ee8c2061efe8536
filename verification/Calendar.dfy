/**
 The calendar: the server turns Unix seconds into a UTC date and time with Howard
 Hinnant's days-to-civil algorithm (server/src/gojson.rs:66-93). The reference it
 is held against counts the lengths of years and months, with the leap rule of
 RFC 3339, Appendix C.
 */
module Calendar {

  datatype Date = Date(year: int, month: int, day: int)

  datatype DateTime = DateTime(date: Date, hour: int, minute: int, second: int)

  predicate IsLeap(year: int) {
    year % 4 == 0 && (year % 100 != 0 || year % 400 == 0)
  }

  function YearLength(year: int): int {
    if IsLeap(year) then 366 else 365
  }

  function MonthLength(year: int, month: int): int {
    if month == 2 then if IsLeap(year) then 29 else 28
    else if month in {4, 6, 9, 11} then 30
    else 31
  }

  /** A day the calendar has. */
  predicate IsDate(date: Date) {
    1 <= date.month <= 12 && 1 <= date.day <= MonthLength(date.year, date.month)
  }

  predicate IsDateTime(time: DateTime) {
    IsDate(time.date) && 0 <= time.hour < 24 && 0 <= time.minute < 60 && 0 <= time.second < 60
  }

  function NextDay(date: Date): Date {
    if date.day < MonthLength(date.year, date.month) then date.(day := date.day + 1)
    else if date.month < 12 then Date(date.year, date.month + 1, 1)
    else Date(date.year + 1, 1, 1)
  }

  /** Days from 1970-01-01 to the first day of the year. */
  function DaysBeforeYear(year: int): int
    decreases if year < 1970 then 1970 - year else year - 1970
  {
    if year > 1970 then DaysBeforeYear(year - 1) + YearLength(year - 1)
    else if year < 1970 then DaysBeforeYear(year + 1) - YearLength(year)
    else 0
  }

  function DaysBeforeMonth(year: int, month: int): int {
    if month <= 1 then 0 else DaysBeforeMonth(year, month - 1) + MonthLength(year, month - 1)
  }

  /** Days from 1970-01-01 to the date. */
  function DaysUntil(date: Date): int {
    DaysBeforeYear(date.year) + DaysBeforeMonth(date.year, date.month) + date.day - 1
  }

  function SecondsUntil(time: DateTime): int {
    86400 * DaysUntil(time.date) + 3600 * time.hour + 60 * time.minute + time.second
  }

  // The algorithm. It counts in eras of 400 years that begin on March 1st.

  function YearOfEra(dayOfEra: int): int {
    (dayOfEra - dayOfEra / 1460 + dayOfEra / 36524 - dayOfEra / 146096) / 365
  }

  function DaysBeforeYearOfEra(yearOfEra: int): int {
    365 * yearOfEra + yearOfEra / 4 - yearOfEra / 100
  }

  function MonthIndex(dayOfYear: int): int {
    (5 * dayOfYear + 2) / 153
  }

  function DaysBeforeMonthIndex(monthIndex: int): int {
    (153 * monthIndex + 2) / 5
  }

  function MonthOf(monthIndex: int): int {
    if monthIndex < 10 then monthIndex + 3 else monthIndex - 9
  }

  function DateInYearOfEra(era: int, yearOfEra: int, dayOfYear: int): Date {
    var monthIndex := MonthIndex(dayOfYear);
    var month := MonthOf(monthIndex);
    Date(yearOfEra + era * 400 + (if month <= 2 then 1 else 0), month, dayOfYear - DaysBeforeMonthIndex(monthIndex) + 1)
  }

  function DateInEra(era: int, dayOfEra: int): Date {
    var yearOfEra := YearOfEra(dayOfEra);
    DateInYearOfEra(era, yearOfEra, dayOfEra - DaysBeforeYearOfEra(yearOfEra))
  }

  function DateOf(days: int): Date {
    DateInEra((days + 719468) / 146097, (days + 719468) % 146097)
  }

  function Civil(seconds: int): DateTime {
    var secondOfDay := seconds % 86400;
    DateTime(DateOf(seconds / 86400), secondOfDay / 3600, secondOfDay / 60 % 60, secondOfDay % 60)
  }

  /** Leap days in the years 1 to `year`. */
  function LeapDays(year: int): int {
    year / 4 - year / 100 + year / 400
  }

  lemma {:induction false} DaysBeforeYearInClosedForm(year: int)
    ensures DaysBeforeYear(year) == 365 * (year - 1970) + LeapDays(year - 1) - LeapDays(1969)
    decreases if year < 1970 then 1970 - year else year - 1970
  {
    if year > 1970 {
      DaysBeforeYearInClosedForm(year - 1);
      OneMoreLeapDay(year - 1);
    } else if year < 1970 {
      DaysBeforeYearInClosedForm(year + 1);
      OneMoreLeapDay(year);
    }
  }

  lemma EveryFourth(year: int)
    ensures year / 4 == (year - 1) / 4 + if year % 4 == 0 then 1 else 0
  {
  }

  lemma EveryHundredth(year: int)
    ensures year / 100 == (year - 1) / 100 + if year % 100 == 0 then 1 else 0
    ensures year % 100 == 0 ==> year % 4 == 0
  {
  }

  lemma EveryFourHundredth(year: int)
    ensures year / 400 == (year - 1) / 400 + if year % 400 == 0 then 1 else 0
    ensures year % 400 == 0 ==> year % 100 == 0
  {
  }

  lemma OneMoreLeapDay(year: int)
    ensures LeapDays(year) == LeapDays(year - 1) + if IsLeap(year) then 1 else 0
  {
    EveryFourth(year);
    EveryHundredth(year);
    EveryFourHundredth(year);
  }

  /**
   The year found is the one whose days hold this one. A year of an era ends in
   February, so its length is that of the year it ends in.
   */
  lemma DayOfYear(dayOfEra: int)
    requires 0 <= dayOfEra < 146097
    ensures 0 <= YearOfEra(dayOfEra) < 400
    ensures 0 <= dayOfEra - DaysBeforeYearOfEra(YearOfEra(dayOfEra)) < YearLength(YearOfEra(dayOfEra) + 1)
  {
    if dayOfEra < 146096 {
      var century, day := dayOfEra / 36524, dayOfEra % 36524;
      var cycle, dayOfCycle := day / 1461, day % 1461;
      YearOfCycle(century, cycle, dayOfCycle);
    }
  }

  /** Centuries of 36524 days, cycles of four years, and a fourth year with the leap day. */
  lemma YearOfCycle(century: int, cycle: int, day: int)
    requires 0 <= century < 4 && 0 <= cycle < 25 && 0 <= day < 1461 && (cycle == 24 ==> day < 1460)
    ensures var dayOfEra := 36524 * century + 1461 * cycle + day;
            var year := if day == 1460 then 3 else day / 365;
            && YearOfEra(dayOfEra) == 100 * century + 4 * cycle + year
            && DaysBeforeYearOfEra(YearOfEra(dayOfEra)) == dayOfEra - day + 365 * year
            && (day == 1460 ==> IsLeap(YearOfEra(dayOfEra) + 1))
  {
    var dayOfEra := 36524 * century + 1461 * cycle + day;
    var late := if 24 * century + cycle + day >= 1460 then 1 else 0;
    assert dayOfEra / 1460 == 25 * century + cycle + late;
    assert dayOfEra / 36524 == century;
    assert dayOfEra / 146096 == 0;
    var year := if day == 1460 then 3 else day / 365;
    assert (day - late) / 365 == year;
    assert YearOfEra(dayOfEra) == (365 * (100 * century + 4 * cycle) + (day - late)) / 365
        == 100 * century + 4 * cycle + year;
    var yearOfEra := 100 * century + 4 * cycle + year;
    assert yearOfEra / 4 == 25 * century + cycle;
    assert yearOfEra / 100 == century;
  }

  lemma ErasRepeat(era: int, year: int)
    ensures IsLeap(400 * era + year) == IsLeap(year)
    ensures LeapDays(400 * era + year) == 97 * era + LeapDays(year)
  {
    assert (400 * era + year) / 4 == 100 * era + year / 4;
    assert (400 * era + year) / 100 == 4 * era + year / 100;
    assert (400 * era + year) / 400 == era + year / 400;
    assert (400 * era + year) % 4 == year % 4;
    assert (400 * era + year) % 100 == year % 100;
    assert (400 * era + year) % 400 == year % 400;
  }

  /** The year a month of the year that begins in March belongs to. */
  function YearOf(marchYear: int, monthIndex: int): int {
    if monthIndex < 10 then marchYear else marchYear + 1
  }

  function DaysBeforeMarch(year: int): int {
    31 + MonthLength(year, 2)
  }

  lemma MonthsOfTheYear(year: int)
    ensures DaysBeforeMonth(year, 3) == DaysBeforeMarch(year)
    ensures DaysBeforeMonth(year, 6) == DaysBeforeMarch(year) + 92
    ensures DaysBeforeMonth(year, 9) == DaysBeforeMarch(year) + 184
    ensures DaysBeforeMonth(year, 12) == DaysBeforeMarch(year) + 275
    ensures DaysBeforeMonth(year, 13) == YearLength(year)
  {
    assert DaysBeforeMonth(year, 2) == 31;
    assert DaysBeforeMonth(year, 4) == DaysBeforeMonth(year, 3) + 31;
    assert DaysBeforeMonth(year, 5) == DaysBeforeMonth(year, 4) + 30;
    assert DaysBeforeMonth(year, 7) == DaysBeforeMonth(year, 6) + 30;
    assert DaysBeforeMonth(year, 8) == DaysBeforeMonth(year, 7) + 31;
    assert DaysBeforeMonth(year, 10) == DaysBeforeMonth(year, 9) + 30;
    assert DaysBeforeMonth(year, 11) == DaysBeforeMonth(year, 10) + 31;
  }

  /** The formula for the months counts from March 1st as the month lengths do. */
  lemma {:induction false} DaysBeforeMonthIndexCounts(marchYear: int, monthIndex: int)
    requires 0 <= monthIndex < 12
    ensures DaysBeforeYear(YearOf(marchYear, monthIndex))
              + DaysBeforeMonth(YearOf(marchYear, monthIndex), MonthOf(monthIndex))
            == DaysBeforeYear(marchYear) + DaysBeforeMarch(marchYear) + DaysBeforeMonthIndex(monthIndex)
  {
    hide DaysBeforeYear, IsLeap;
    MonthsOfTheYear(marchYear);
    if monthIndex == 10 {
      DaysBeforeYearInClosedForm(marchYear);
      DaysBeforeYearInClosedForm(marchYear + 1);
      OneMoreLeapDay(marchYear);
    } else if monthIndex > 0 {
      DaysBeforeMonthIndexCounts(marchYear, monthIndex - 1);
    }
  }

  lemma MonthOfDay(dayOfYear: int)
    requires 0 <= dayOfYear < 366
    ensures 0 <= MonthIndex(dayOfYear) < 12
    ensures DaysBeforeMonthIndex(MonthIndex(dayOfYear)) <= dayOfYear < DaysBeforeMonthIndex(MonthIndex(dayOfYear) + 1)
  {
  }

  lemma LengthOfMonthIndex(marchYear: int, monthIndex: int)
    requires 0 <= monthIndex < 11
    ensures DaysBeforeMonthIndex(monthIndex + 1) - DaysBeforeMonthIndex(monthIndex)
            == MonthLength(YearOf(marchYear, monthIndex), MonthOf(monthIndex))
  {
  }

  lemma FirstOfMarch(era: int, yearOfEra: int)
    requires 0 <= yearOfEra < 400
    ensures DaysBeforeYear(400 * era + yearOfEra) + DaysBeforeMarch(400 * era + yearOfEra)
            == 146097 * era + DaysBeforeYearOfEra(yearOfEra) - 719468
  {
    var year := 400 * era + yearOfEra;
    ErasRepeat(era, yearOfEra);
    DaysBeforeYearInClosedForm(year);
    OneMoreLeapDay(year);
    assert LeapDays(1969) == 477;
    assert LeapDays(yearOfEra) == DaysBeforeYearOfEra(yearOfEra) - 365 * yearOfEra;
    assert DaysBeforeMarch(year) == 59 + LeapDays(year) - LeapDays(year - 1);
  }

  /** The date of one day of one year that begins in March. */
  lemma DateInYear(marchYear: int, dayOfYear: int)
    requires 0 <= dayOfYear < YearLength(marchYear + 1)
    ensures var monthIndex := MonthIndex(dayOfYear);
            var date := Date(YearOf(marchYear, monthIndex), MonthOf(monthIndex),
                dayOfYear - DaysBeforeMonthIndex(monthIndex) + 1);
            IsDate(date) && DaysUntil(date) == DaysBeforeYear(marchYear) + DaysBeforeMarch(marchYear) + dayOfYear
  {
    MonthOfDay(dayOfYear);
    var monthIndex := MonthIndex(dayOfYear);
    DaysBeforeMonthIndexCounts(marchYear, monthIndex);
    if monthIndex < 11 {
      LengthOfMonthIndex(marchYear, monthIndex);
    }
  }

  lemma DateInYearOfEraIsExact(era: int, yearOfEra: int, dayOfYear: int)
    requires 0 <= yearOfEra < 400 && 0 <= dayOfYear < YearLength(yearOfEra + 1)
    ensures IsDate(DateInYearOfEra(era, yearOfEra, dayOfYear))
    ensures DaysUntil(DateInYearOfEra(era, yearOfEra, dayOfYear))
            == 146097 * era + DaysBeforeYearOfEra(yearOfEra) + dayOfYear - 719468
  {
    assert YearLength(400 * era + yearOfEra + 1) == YearLength(yearOfEra + 1) by {
      ErasRepeat(era, yearOfEra + 1);
    }
    FirstOfMarch(era, yearOfEra);
    DateInYear(400 * era + yearOfEra, dayOfYear);
    MonthOfDay(dayOfYear);
  }

  lemma DateInEraIsExact(era: int, dayOfEra: int)
    requires 0 <= dayOfEra < 146097
    ensures IsDate(DateInEra(era, dayOfEra)) && DaysUntil(DateInEra(era, dayOfEra)) == 146097 * era + dayOfEra - 719468
  {
    DayOfYear(dayOfEra);
    var yearOfEra := YearOfEra(dayOfEra);
    DateInYearOfEraIsExact(era, yearOfEra, dayOfEra - DaysBeforeYearOfEra(yearOfEra));
  }

  /** The date is one the calendar has, and it is the day counted from 1970-01-01. */
  lemma DateIsExact(days: int)
    ensures IsDate(DateOf(days)) && DaysUntil(DateOf(days)) == days
  {
    DateInEraIsExact((days + 719468) / 146097, (days + 719468) % 146097);
  }

  /** For every second, before or after 1970: the fields are in range and say exactly that second. */
  lemma CivilIsExact(seconds: int)
    ensures IsDateTime(Civil(seconds)) && SecondsUntil(Civil(seconds)) == seconds
  {
    DateIsExact(seconds / 86400);
    SecondOfDay(seconds % 86400);
  }

  lemma SecondOfDay(second: int)
    requires 0 <= second < 86400
    ensures 0 <= second / 3600 < 24
    ensures 3600 * (second / 3600) + 60 * (second / 60 % 60) + second % 60 == second
  {
    assert second / 60 / 60 == second / 3600;
  }

  lemma {:induction false} YearsInOrder(year: int, later: int)
    requires year < later
    ensures DaysBeforeYear(year) + YearLength(year) <= DaysBeforeYear(later)
    decreases later - year
  {
    assert DaysBeforeYear(year + 1) == DaysBeforeYear(year) + YearLength(year);
    if year + 1 < later {
      YearsInOrder(year + 1, later);
    }
  }

  lemma {:induction false} MonthsInOrder(year: int, month: int, later: int)
    requires 1 <= month < later
    ensures DaysBeforeMonth(year, month) + MonthLength(year, month) <= DaysBeforeMonth(year, later)
    decreases later
  {
    if month < later - 1 {
      MonthsInOrder(year, month, later - 1);
    }
  }

  /** No two dates are the same day. */
  lemma DatesAreDistinct(date: Date, other: Date)
    requires IsDate(date) && IsDate(other) && DaysUntil(date) == DaysUntil(other)
    ensures date == other
  {
    DayInItsYear(date);
    DayInItsYear(other);
    if date.year < other.year {
      YearsInOrder(date.year, other.year);
    } else if date.year > other.year {
      YearsInOrder(other.year, date.year);
    } else if date.month < other.month {
      MonthsInOrder(date.year, date.month, other.month);
    } else if date.month > other.month {
      MonthsInOrder(date.year, other.month, date.month);
    }
  }

  lemma DayInItsYear(date: Date)
    requires IsDate(date)
    ensures DaysBeforeYear(date.year) <= DaysUntil(date) < DaysBeforeYear(date.year) + YearLength(date.year)
  {
    MonthsInOrder(date.year, date.month, 13);
    MonthsOfTheYear(date.year);
    if date.month > 1 {
      MonthsInOrder(date.year, 1, date.month);
    }
  }

  /** The algorithm inverts counting: it gives back every date the calendar has. */
  lemma DateOfDaysUntil(date: Date)
    requires IsDate(date)
    ensures DateOf(DaysUntil(date)) == date
  {
    DateIsExact(DaysUntil(date));
    DatesAreDistinct(DateOf(DaysUntil(date)), date);
  }

  lemma NextDayIsOneMore(date: Date)
    requires IsDate(date)
    ensures IsDate(NextDay(date)) && DaysUntil(NextDay(date)) == DaysUntil(date) + 1
  {
    MonthsOfTheYear(date.year);
    YearsInOrder(date.year, date.year + 1);
    assert DaysBeforeYear(date.year + 1) == DaysBeforeYear(date.year) + YearLength(date.year);
    assert date.month == 12 ==> DaysBeforeMonth(date.year, 13) == DaysBeforeMonth(date.year, 12) + 31;
  }

  /** Consecutive days are consecutive dates of the calendar. */
  lemma ConsecutiveDays(days: int)
    ensures DateOf(days + 1) == NextDay(DateOf(days))
  {
    hide DateOf, DaysUntil, NextDay, IsDate;
    DateIsExact(days);
    var date := DateOf(days);
    NextDayIsOneMore(date);
    DateOfDaysUntil(NextDay(date));
  }

  /** Counting starts on 1970-01-01. */
  lemma FirstDay()
    ensures DateOf(0) == Date(1970, 1, 1)
  {
    DateOfDaysUntil(Date(1970, 1, 1));
  }
}
