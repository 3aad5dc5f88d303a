/**
 The proleptic Gregorian calendar behind Go's `time.Date` and `Time.AddDate`.

 Months are numbered on one line: month 0 is January of year 0, so a year and a month are the
 quotient and remainder of a month index by 12. Days are numbered by adding up month lengths.
 */
module Calendar {

  predicate Leap(year: int) {
    year % 4 == 0 && (year % 100 != 0 || year % 400 == 0)
  }

  function Length(year: int, month: int): (n: int)
    ensures 28 <= n <= 31
  {
    if month == 2 then (if Leap(year) then 29 else 28)
    else if month == 4 || month == 6 || month == 9 || month == 11 then 30
    else 31
  }

  /** The length of the month with the given index. */
  function DaysIn(index: int): (n: int)
    ensures 28 <= n <= 31
  {
    Length(index / 12, index % 12 + 1)
  }

  /** The number of days from 1 January of year 0 to the first of the month. */
  function MonthStart(index: int): int
    decreases if index < 0 then -index else index
  {
    if index == 0 then 0
    else if index > 0 then MonthStart(index - 1) + DaysIn(index - 1)
    else MonthStart(index + 1) - DaysIn(index)
  }

  datatype Civil = Civil(year: int, month: int, day: int)

  predicate IsDate(c: Civil) {
    1 <= c.month <= 12 && 1 <= c.day <= Length(c.year, c.month)
  }

  type Date = c: Civil | IsDate(c) witness Civil(2000, 1, 1)

  function MonthIndex(year: int, month: int): int {
    12 * year + month - 1
  }

  function Index(c: Civil): int {
    MonthIndex(c.year, c.month)
  }

  function DayNumber(d: Civil): int {
    MonthStart(Index(d)) + d.day - 1
  }

  /** The month that contains day `n`, searched month by month from `from`. */
  function MonthOf(n: int, from: int): (index: int)
    ensures MonthStart(index) <= n < MonthStart(index + 1)
    decreases n < MonthStart(from), if n < MonthStart(from) then MonthStart(from) - n else n - MonthStart(from)
  {
    if n < MonthStart(from) then MonthOf(n, from - 1)
    else if MonthStart(from + 1) <= n then MonthOf(n, from + 1)
    else from
  }

  function FromDayNumber(n: int): Date {
    var index := MonthOf(n, 0);
    MonthStep(index);
    Civil(index / 12, index % 12 + 1, n - MonthStart(index) + 1)
  }

  /** `time.Date(y, m, d, 0, 0, 0, 0, time.UTC)`, which accepts any month and day and normalises them. */
  function GoDate(year: int, month: int, day: int): Date {
    FromDayNumber(DayNumber(Civil(year, month, day)))
  }

  /** `Time.AddDate`: add to each component, then normalise. */
  function AddDate(d: Date, years: int, months: int, days: int): Date {
    GoDate(d.year + years, d.month + months, d.day + days)
  }

  function AddDays(d: Date, days: int): Date {
    AddDate(d, 0, 0, days)
  }

  /** `time.Time.Before` on midnights in UTC compares instants, that is day numbers. */
  predicate Before(a: Date, b: Date) {
    DayNumber(a) < DayNumber(b)
  }

  predicate After(a: Date, b: Date) {
    Before(b, a)
  }

  // ----- the two numberings agree

  lemma {:induction false} MonthStep(index: int)
    ensures MonthStart(index + 1) == MonthStart(index) + DaysIn(index)
  {
  }

  lemma {:induction false} MonthStartGrows(i: int, j: int)
    requires i <= j
    ensures MonthStart(i) + 28 * (j - i) <= MonthStart(j)
    decreases j - i
  {
    if i < j {
      MonthStep(i);
      MonthStartGrows(i + 1, j);
    }
  }

  lemma {:induction false} MonthStartLater(i: int, j: int)
    requires i < j
    ensures MonthStart(i) + DaysIn(i) <= MonthStart(j)
  {
    MonthStep(i);
    MonthStartGrows(i + 1, j);
  }

  lemma DaysInMonth(year: int, month: int)
    requires 1 <= month <= 12
    ensures DaysIn(MonthIndex(year, month)) == Length(year, month)
  {
    assert MonthIndex(year, month) / 12 == year && MonthIndex(year, month) % 12 == month - 1;
  }

  /** A date is its month index and its day. */
  lemma SameDate(a: Date, b: Date)
    requires Index(a) == Index(b) && a.day == b.day
    ensures a == b
  {
  }

  lemma {:induction false} MonthOfDay(index: int, day: int)
    requires 1 <= day <= DaysIn(index)
    ensures MonthOf(MonthStart(index) + day - 1, 0) == index
  {
    hide DaysIn, MonthStart;
    var found := MonthOf(MonthStart(index) + day - 1, 0);
    MonthStep(index);
    if found < index {
      MonthStartGrows(found + 1, index);
    } else if index < found {
      MonthStartLater(index, found);
    }
  }

  /** A day number inside a month names that month and nothing else. */
  lemma {:induction false} DayInMonth(index: int, day: int)
    requires 1 <= day <= DaysIn(index)
    ensures var d := FromDayNumber(MonthStart(index) + day - 1); Index(d) == index && d.day == day
  {
    hide DaysIn, MonthStart, MonthOf;
    MonthOfDay(index, day);
    assert MonthIndex(index / 12, index % 12 + 1) == index;
  }

  lemma {:induction false} DateToNumberAndBack(d: Date)
    ensures FromDayNumber(DayNumber(d)) == d
  {
    DaysInMonth(d.year, d.month);
    DayInMonth(Index(d), d.day);
    SameDate(d, FromDayNumber(DayNumber(d)));
  }

  lemma {:induction false} NumberToDateAndBack(n: int)
    ensures DayNumber(FromDayNumber(n)) == n
  {
    var index := MonthOf(n, 0);
    assert MonthIndex(index / 12, index % 12 + 1) == index;
  }

  lemma {:induction false} SameNumberSameDate(a: Date, b: Date)
    requires DayNumber(a) == DayNumber(b)
    ensures a == b
  {
    DateToNumberAndBack(a);
    DateToNumberAndBack(b);
  }

  /** With a day that exists in the month, `time.Date` only normalises the month. */
  lemma {:induction false} GoDateInside(year: int, month: int, day: int)
    requires 1 <= day <= DaysIn(MonthIndex(year, month))
    ensures var d := GoDate(year, month, day); Index(d) == MonthIndex(year, month) && d.day == day
  {
    DayInMonth(MonthIndex(year, month), day);
  }

  /** Day 0 of the next month is the last day of this one. */
  lemma {:induction false} GoDateZero(year: int, month: int)
    ensures var d := GoDate(year, month + 1, 0);
            Index(d) == MonthIndex(year, month) && d.day == DaysIn(MonthIndex(year, month))
  {
    var index := MonthIndex(year, month);
    assert MonthIndex(year, month + 1) == index + 1;
    MonthStep(index);
    DayInMonth(index, DaysIn(index));
  }

  predicate LexicographicallyBefore(a: Civil, b: Civil) {
    a.year < b.year
    || (a.year == b.year && a.month < b.month)
    || (a.year == b.year && a.month == b.month && a.day < b.day)
  }

  lemma {:induction false} EarlierMonth(a: Date, b: Date)
    requires Index(a) < Index(b)
    ensures Before(a, b)
  {
    DaysInMonth(a.year, a.month);
    MonthStartLater(Index(a), Index(b));
  }

  /** Comparing instants is comparing (year, month, day), through leap years and month ends. */
  lemma {:induction false} OrderIsLexicographic(a: Date, b: Date)
    ensures Before(a, b) <==> LexicographicallyBefore(a, b)
  {
    if Index(a) < Index(b) {
      EarlierMonth(a, b);
    } else if Index(b) < Index(a) {
      EarlierMonth(b, a);
    }
  }

  /** `AddDate(0, 0, n)` moves the day number by exactly `n`. */
  lemma {:induction false} AddDaysShifts(d: Date, days: int)
    ensures DayNumber(AddDays(d, days)) == DayNumber(d) + days
  {
    NumberToDateAndBack(DayNumber(d) + days);
    assert Civil(d.year + 0, d.month + 0, d.day + days) == Civil(d.year, d.month, d.day + days);
  }

  // ----- the Gregorian rules in closed form

  /** Days of a common year before the first of the month. */
  function DaysBeforeMonth(month: int): int
    requires 1 <= month <= 12
  {
    [0, 31, 59, 90, 120, 151, 181, 212, 243, 273, 304, 334][month - 1]
  }

  /** Days before the year: 365 each, one more for every fourth, none for the hundredth, one for the four-hundredth. */
  function DaysBeforeYear(year: int): int {
    365 * year + (year + 3) / 4 - (year + 99) / 100 + (year + 399) / 400
  }

  /** Every fourth year has a leap day, but of the hundredth years only every fourth. */
  predicate IsLeapYear(year: int) {
    year % 400 == 0 || (year % 4 == 0 && year % 100 != 0)
  }

  lemma {:induction false} MonthInYear(year: int, month: int)
    requires 1 <= month <= 12
    ensures MonthStart(MonthIndex(year, month)) == MonthStart(MonthIndex(year, 1))
              + DaysBeforeMonth(month) + (if month > 2 && DaysIn(MonthIndex(year, 2)) == 29 then 1 else 0)
  {
    hide MonthStart, DaysIn, Leap;
    if month > 1 {
      MonthInYear(year, month - 1);
      MonthStep(MonthIndex(year, month - 1));
      DaysInMonth(year, month - 1);
      DaysInMonth(year, 2);
    }
  }

  lemma {:induction false} YearStep(year: int)
    ensures MonthStart(MonthIndex(year + 1, 1)) - MonthStart(MonthIndex(year, 1))
            == DaysBeforeYear(year + 1) - DaysBeforeYear(year)
            == if IsLeapYear(year) then 366 else 365
  {
    hide MonthStart, DaysIn, DaysBeforeYear, Leap;
    MonthInYear(year, 12);
    MonthStep(MonthIndex(year, 12));
    DaysInMonth(year, 12);
    February(year);
    assert MonthIndex(year + 1, 1) == MonthIndex(year, 12) + 1;
    LeapStep(year);
  }

  lemma February(year: int)
    ensures DaysIn(MonthIndex(year, 2)) == if IsLeapYear(year) then 29 else 28
  {
    DaysInMonth(year, 2);
  }

  lemma LeapStep(year: int)
    ensures DaysBeforeYear(year + 1) - DaysBeforeYear(year)
            == if IsLeapYear(year) then 366 else 365
  {
    assert (year + 4) / 4 == (year + 3) / 4 + (if year % 4 == 0 then 1 else 0);
    assert (year + 100) / 100 == (year + 99) / 100 + (if year % 100 == 0 then 1 else 0);
    assert (year + 400) / 400 == (year + 399) / 400 + (if year % 400 == 0 then 1 else 0);
  }

  lemma {:induction false} YearStarts(year: int)
    ensures MonthStart(MonthIndex(year, 1)) == DaysBeforeYear(year)
    decreases if year < 0 then -year else year
  {
    hide MonthStart;
    if year > 0 {
      YearStarts(year - 1);
      YearStep(year - 1);
    } else if year < 0 {
      YearStarts(year + 1);
      YearStep(year);
    } else {
      YearZero();
    }
  }

  lemma YearZero()
    ensures MonthStart(MonthIndex(0, 1)) == 0 == DaysBeforeYear(0)
  {
  }

  /** The day number of every date is the Gregorian one, by the closed form of its rules. */
  lemma {:induction false} DayNumberIsGregorian(d: Date)
    ensures DayNumber(d) == DaysBeforeYear(d.year) + DaysBeforeMonth(d.month)
                            + (if IsLeapYear(d.year) && d.month > 2 then 1 else 0) + d.day - 1
  {
    hide MonthStart, DaysIn, DaysBeforeYear, DaysBeforeMonth, IsLeapYear, Leap;
    YearStarts(d.year);
    MonthInYear(d.year, d.month);
    February(d.year);
  }
}
