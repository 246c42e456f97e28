/**
 The proleptic Gregorian calendar in UTC, after section 21.4.1 of ECMA-262. Days
 count from the first of January 1970.
 */
module Calendar {
  predicate Leap(year: int) {
    year % 4 == 0 && (year % 100 != 0 || year % 400 == 0)
  }

  function DayFromYear(year: int): int {
    365 * (year - 1970) + (year - 1969) / 4 - (year - 1901) / 100 + (year - 1601) / 400
  }

  lemma NextQuarter(x: int)
    ensures (x + 1) / 4 == x / 4 + if (x + 1) % 4 == 0 then 1 else 0
  {
  }

  lemma NextCentury(x: int)
    ensures (x + 1) / 100 == x / 100 + if (x + 1) % 100 == 0 then 1 else 0
  {
  }

  lemma NextCycle(x: int)
    ensures (x + 1) / 400 == x / 400 + if (x + 1) % 400 == 0 then 1 else 0
  {
  }

  lemma SameQuarter(year: int)
    ensures (year - 1968) % 4 == year % 4
  {
  }

  lemma SameCentury(year: int)
    ensures (year - 1900) % 100 == year % 100
  {
  }

  lemma SameCycle(year: int)
    ensures (year - 1600) % 400 == year % 400
  {
  }

  lemma CyclesNest(year: int)
    ensures year % 400 == 0 ==> year % 100 == 0
    ensures year % 100 == 0 ==> year % 4 == 0
  {
  }

  /** A year has 366 days when it is a leap year, else 365. */
  lemma YearLength(year: int)
    ensures DayFromYear(year + 1) - DayFromYear(year) == if Leap(year) then 366 else 365
  {
    NextQuarter(year - 1969);
    NextCentury(year - 1901);
    NextCycle(year - 1601);
    SameQuarter(year);
    SameCentury(year);
    SameCycle(year);
    CyclesNest(year);
  }

  /** The year that contains a day, searched for from a given year. */
  function YearFrom(year: int, day: int): (y: int)
    ensures DayFromYear(y) <= day < DayFromYear(y + 1)
    decreases day < DayFromYear(year), if day < DayFromYear(year) then DayFromYear(year) - day else day - DayFromYear(year)
  {
    YearLength(year);
    YearLength(year - 1);
    if day < DayFromYear(year) then YearFrom(year - 1, day)
    else if day >= DayFromYear(year + 1) then YearFrom(year + 1, day)
    else year
  }

  function YearOf(day: int): (y: int)
    ensures DayFromYear(y) <= day < DayFromYear(y + 1)
  {
    YearFrom(1970, day)
  }

  lemma {:induction false} YearsIncrease(a: int, b: int)
    requires a <= b
    ensures DayFromYear(a) + 365 * (b - a) <= DayFromYear(b)
    decreases b - a
  {
    if a < b {
      YearLength(b - 1);
      YearsIncrease(a, b - 1);
    }
  }

  /** The containing year is the only one. */
  lemma YearIsUnique(day: int, year: int)
    requires DayFromYear(year) <= day < DayFromYear(year + 1)
    ensures YearOf(day) == year
  {
    var y := YearOf(day);
    if y < year {
      YearsIncrease(y + 1, year);
    } else if year < y {
      YearsIncrease(year + 1, y);
    }
  }

  /** Days of the year before the first of the month; month 13 is the year's end. */
  function MonthStart(month: int, leap: bool): int
    requires 1 <= month <= 13
  {
    var l := if leap then 1 else 0;
    match month
    case 1 => 0
    case 2 => 31
    case 3 => 59 + l
    case 4 => 90 + l
    case 5 => 120 + l
    case 6 => 151 + l
    case 7 => 181 + l
    case 8 => 212 + l
    case 9 => 243 + l
    case 10 => 273 + l
    case 11 => 304 + l
    case 12 => 334 + l
    case 13 => 365 + l
  }

  function DaysInMonth(month: int, leap: bool): int
    requires 1 <= month <= 12
  {
    MonthStart(month + 1, leap) - MonthStart(month, leap)
  }

  function DayInYear(day: int): int {
    day - DayFromYear(YearOf(day))
  }

  function MonthFrom(month: int, dayInYear: int, leap: bool): (m: int)
    requires 1 <= month <= 12 && MonthStart(month, leap) <= dayInYear < MonthStart(13, leap)
    ensures month <= m <= 12 && MonthStart(m, leap) <= dayInYear < MonthStart(m + 1, leap)
    decreases 12 - month
  {
    if dayInYear < MonthStart(month + 1, leap) then month else MonthFrom(month + 1, dayInYear, leap)
  }

  function MonthOf(day: int): (m: int)
    ensures 1 <= m <= 12
    ensures var leap := Leap(YearOf(day)); MonthStart(m, leap) <= DayInYear(day) < MonthStart(m + 1, leap)
  {
    YearLength(YearOf(day));
    MonthFrom(1, DayInYear(day), Leap(YearOf(day)))
  }

  function DateOf(day: int): (date: int)
    ensures 1 <= date <= DaysInMonth(MonthOf(day), Leap(YearOf(day)))
  {
    DayInYear(day) - MonthStart(MonthOf(day), Leap(YearOf(day))) + 1
  }

  /** Sunday is 0. */
  function WeekDay(day: int): int {
    (day + 4) % 7
  }

  /** The day of a calendar date. */
  function DayOf(year: int, month: int, date: int): int
    requires 1 <= month <= 12
  {
    DayFromYear(year) + MonthStart(month, Leap(year)) + date - 1
  }

  lemma MonthsIncrease(a: int, b: int, leap: bool)
    requires 1 <= a < b <= 13
    ensures MonthStart(a, leap) < MonthStart(b, leap)
  {
  }

  lemma MonthIsUnique(a: int, b: int, dayInYear: int, leap: bool)
    requires 1 <= a <= 12 && MonthStart(a, leap) <= dayInYear < MonthStart(a + 1, leap)
    requires 1 <= b <= 12 && MonthStart(b, leap) <= dayInYear < MonthStart(b + 1, leap)
    ensures a == b
  {
    if a + 1 < b {
      MonthsIncrease(a + 1, b, leap);
    } else if b + 1 < a {
      MonthsIncrease(b + 1, a, leap);
    }
  }

  lemma DateStaysInYear(year: int, month: int, date: int)
    requires 1 <= month <= 12 && 1 <= date <= DaysInMonth(month, Leap(year))
    ensures DayFromYear(year) <= DayOf(year, month, date) < DayFromYear(year + 1)
  {
    YearLength(year);
    if month < 12 {
      MonthsIncrease(month + 1, 13, Leap(year));
    }
    if month > 1 {
      MonthsIncrease(1, month, Leap(year));
    }
  }

  /** Reading the date off the day of a valid date gives the date back. */
  lemma DateRoundTrip(year: int, month: int, date: int)
    requires 1 <= month <= 12 && 1 <= date <= DaysInMonth(month, Leap(year))
    ensures var day := DayOf(year, month, date);
            YearOf(day) == year && MonthOf(day) == month && DateOf(day) == date
  {
    var day := DayOf(year, month, date);
    DateStaysInYear(year, month, date);
    YearIsUnique(day, year);
    MonthIsUnique(MonthOf(day), month, DayInYear(day), Leap(year));
  }

  /** And the other way round. */
  lemma DayRoundTrip(day: int)
    ensures DayOf(YearOf(day), MonthOf(day), DateOf(day)) == day
  {
  }

  lemma LeapShift(month: int)
    requires 1 <= month <= 12
    ensures MonthStart(month, false) <= MonthStart(month, true) <= MonthStart(month, false) + 1
    ensures DaysInMonth(month, false) <= DaysInMonth(month, true)
  {
  }

  /** A date that common years have comes round again after at most 366 days. */
  lemma DateRecurs(year: int, month: int, date: int)
    requires 1 <= month <= 12 && 1 <= date <= DaysInMonth(month, false)
    ensures DayOf(year, month, date) < DayOf(year + 1, month, date) <= DayOf(year, month, date) + 366
    ensures DayOf(year, month, date) < DayFromYear(year + 1) <= DayOf(year + 1, month, date)
  {
    YearLength(year);
    LeapShift(month);
    DateStaysInYear(year, month, date);
    DateStaysInYear(year + 1, month, date);
  }

  /** The lengths of the months. */
  lemma MonthLengths(month: int, leap: bool)
    requires 1 <= month <= 12
    ensures DaysInMonth(month, leap)
         == if month == 2 then (if leap then 29 else 28)
            else if month == 4 || month == 6 || month == 9 || month == 11 then 30 else 31
  {
  }

  /** Days count from the first of January 1970, which was a Thursday, and week days
      follow each other. */
  lemma WeekDaysFollow(day: int)
    ensures DayOf(1970, 1, 1) == 0 && WeekDay(DayOf(1970, 1, 1)) == 4
    ensures WeekDay(day + 1) == if WeekDay(day) == 6 then 0 else WeekDay(day) + 1
  {
    NextDay(day + 4);
    Epoch();
  }

  lemma NextDay(x: int)
    ensures (x + 1) % 7 == if x % 7 == 6 then 0 else x % 7 + 1
  {
  }

  lemma Epoch()
    ensures DayFromYear(1970) == 0
  {
  }

  // ------------------------------------------------------------ the week day of a date

  /** What the months before add to the week day, in years that begin in March. */
  function MonthCode(month: int): int
    requires 1 <= month <= 12
  {
    [0, 3, 2, 5, 0, 3, 5, 1, 4, 6, 2, 4][month - 1]
  }

  /** The leap days up to the end of a year. */
  function LeapDays(year: int): int {
    year / 4 - year / 100 + year / 400
  }

  lemma LeapDaysNext(year: int)
    ensures LeapDays(year) == LeapDays(year - 1) + if Leap(year) then 1 else 0
  {
    NextQuarter(year - 1);
    NextCentury(year - 1);
    NextCycle(year - 1);
    CyclesNest(year);
  }

  lemma QuarterShift(x: int)
    ensures (x - 1969) / 4 == (x - 1) / 4 - 492
  {
  }

  lemma CenturyShift(x: int)
    ensures (x - 1901) / 100 == (x - 1) / 100 - 19
  {
  }

  lemma CycleShift(x: int)
    ensures (x - 1601) / 400 == (x - 1) / 400 - 4
  {
  }

  lemma DaysBeforeYear(year: int)
    ensures DayFromYear(year) == 365 * year + LeapDays(year - 1) - 719527
  {
    QuarterShift(year);
    CenturyShift(year);
    CycleShift(year);
  }

  /** Congruence modulo seven. */
  predicate SameWeekDay(a: int, b: int) {
    (a - b) % 7 == 0
  }

  lemma SameRemainder(a: int, b: int)
    requires SameWeekDay(a, b)
    ensures a % 7 == b % 7
  {
  }

  /** The week day of a date, Sunday being 0, by year, month and date alone. */
  function DateWeekDay(year: int, month: int, date: int): int
    requires 1 <= month <= 12
  {
    var y := if month < 3 then year - 1 else year;
    (y + y / 4 - y / 100 + y / 400 + MonthCode(month) + date) % 7
  }

  lemma WeekDayOfDate(year: int, month: int, date: int)
    requires 1 <= month <= 12
    ensures WeekDay(DayOf(year, month, date)) == DateWeekDay(year, month, date)
  {
    DaysBeforeYear(year);
    LeapDaysNext(year);
    MonthCodeFits(month, Leap(year));
    var w := if month >= 3 && Leap(year) then 1 else 0;
    var x := if month < 3 then 1 else 0;
    var y := year - x;
    var k := MonthStart(month, Leap(year)) - w + x - MonthCode(month);
    var a, b := DayOf(year, month, date) + 4, y + LeapDays(y) + MonthCode(month) + date;
    assert a - b == 364 * year - 719524 + k;
    SevenDivides(year, k);
    SameRemainder(a, b);
  }

  lemma SevenDivides(year: int, k: int)
    requires k % 7 == 1
    ensures (364 * year - 719524 + k) % 7 == 0
  {
    var q := k / 7;
    assert 364 * year - 719524 + k == 7 * (52 * year - 102789 + q);
    MultipleOfSeven(52 * year - 102789 + q);
  }

  lemma MultipleOfSeven(q: int)
    ensures (7 * q) % 7 == 0
  {
  }

  lemma MonthCodeFits(month: int, leap: bool)
    requires 1 <= month <= 12
    ensures var w := if month >= 3 && leap then 1 else 0;
            var x := if month < 3 then 1 else 0;
            (MonthStart(month, leap) - w + x - MonthCode(month)) % 7 == 1
  {
  }
}
