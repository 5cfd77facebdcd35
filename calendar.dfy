/** Calendar dates as the dues engine sees them: a year, a 0-based month (as
    JavaScript's Date.getMonth reports it) and a 1-based day, in the proleptic
    Gregorian calendar. */
module Calendar {

  datatype YearMonthDay = YearMonthDay(year: int, month: int, day: int)

  predicate IsLeapYear(y: int) {
    y % 4 == 0 && (y % 100 != 0 || y % 400 == 0)
  }

  function DaysInMonth(y: int, m: int): (n: int)
    requires 0 <= m < 12
    ensures 28 <= n <= 31
    ensures n == 29 <==> m == 1 && IsLeapYear(y)
  {
    if m == 1 then (if IsLeapYear(y) then 29 else 28)
    else if m == 3 || m == 5 || m == 8 || m == 10 then 30
    else 31
  }

  predicate IsValid(d: YearMonthDay) {
    0 <= d.month < 12 && 1 <= d.day <= DaysInMonth(d.year, d.month)
  }

  /** A date that exists in the calendar. */
  type Date = d: YearMonthDay | IsValid(d) witness YearMonthDay(1970, 0, 1)

  /** Strict chronological order: year, then month, then day. */
  predicate Before(a: Date, b: Date) {
    a.year < b.year
    || (a.year == b.year && a.month < b.month)
    || (a.year == b.year && a.month == b.month && a.day < b.day)
  }

  predicate OnOrBefore(a: Date, b: Date) {
    a == b || Before(a, b)
  }

  /** The date one calendar month after d, as `setMonth(getMonth() + 1)`
      computes it: December rolls into January of the next year, and a day
      that the next month lacks overflows into the month after (Jan 31 becomes
      Mar 3, or Mar 2 in a leap year). */
  function AddOneMonth(d: Date): (r: Date)
    ensures Before(d, r)
  {
    var (ny, nm) := if d.month == 11 then (d.year + 1, 0) else (d.year, d.month + 1);
    if d.day <= DaysInMonth(ny, nm) then YearMonthDay(ny, nm, d.day)
    else YearMonthDay(ny, nm + 1, d.day - DaysInMonth(ny, nm))
  }

  // ---------------------------------------------------------------------
  // Day numbers: an independent measure of time in whole days, the one the
  // ECMAScript MakeDay rule uses to normalise out-of-range month days.
  // ---------------------------------------------------------------------

  /** Days in the years before y, counted from 1 January of year 0. */
  function DaysBeforeYear(y: int): int {
    365 * y + (y + 3) / 4 - (y + 99) / 100 + (y + 399) / 400
  }

  const CumulativeDays: seq<int> := [0, 31, 59, 90, 120, 151, 181, 212, 243, 273, 304, 334, 365]

  /** Days in the months of year y before month m (m == 12 gives the year's length). */
  function DaysBeforeMonth(y: int, m: int): int
    requires 0 <= m <= 12
  {
    CumulativeDays[m] + (if m >= 2 && IsLeapYear(y) then 1 else 0)
  }

  function YearLength(y: int): int {
    DaysBeforeMonth(y, 12)
  }

  /** The number of days from 1 January of year 0 to d. */
  function EpochDay(d: Date): int {
    DaysBeforeYear(d.year) + DaysBeforeMonth(d.year, d.month) + d.day - 1
  }

  lemma MonthStep(y: int, m: int)
    requires 0 <= m < 12
    ensures DaysBeforeMonth(y, m + 1) == DaysBeforeMonth(y, m) + DaysInMonth(y, m)
  {
  }

  lemma {:induction false} MonthsOrdered(y: int, m1: int, m2: int)
    requires 0 <= m1 < m2 <= 12
    ensures DaysBeforeMonth(y, m1) + DaysInMonth(y, m1) <= DaysBeforeMonth(y, m2)
    decreases m2 - m1
  {
    MonthStep(y, m1);
    if m1 + 1 < m2 {
      MonthsOrdered(y, m1 + 1, m2);
    }
  }

  /** The closed form for the days before a year advances by that year's length. */
  lemma YearStep(y: int)
    ensures DaysBeforeYear(y + 1) == DaysBeforeYear(y) + YearLength(y)
  {
    var q4, q100, q400 := y / 4, y / 100, y / 400;
    assert y == 4 * q4 + y % 4;
    assert y == 100 * q100 + y % 100;
    assert y == 400 * q400 + y % 400;
    assert (y + 4) / 4 - (y + 3) / 4 == if y % 4 == 0 then 1 else 0;
    assert (y + 100) / 100 - (y + 99) / 100 == if y % 100 == 0 then 1 else 0;
    assert (y + 400) / 400 - (y + 399) / 400 == if y % 400 == 0 then 1 else 0;
  }

  lemma {:induction false} YearsOrdered(y1: int, y2: int)
    requires y1 < y2
    ensures DaysBeforeYear(y1) + YearLength(y1) <= DaysBeforeYear(y2)
    decreases y2 - y1
  {
    YearStep(y1);
    if y1 + 1 < y2 {
      YearsOrdered(y1 + 1, y2);
      YearStep(y1 + 1);
    }
  }

  /** Every date of year y lies in the day-number range of that year. */
  lemma DayWithinYear(d: Date)
    ensures DaysBeforeYear(d.year) <= EpochDay(d) < DaysBeforeYear(d.year) + YearLength(d.year)
  {
    MonthStep(d.year, d.month);
    if d.month + 1 < 12 {
      MonthsOrdered(d.year, d.month + 1, 12);
    }
  }

  lemma BeforeMeansEarlierDay(a: Date, b: Date)
    requires Before(a, b)
    ensures EpochDay(a) < EpochDay(b)
  {
    if a.year < b.year {
      DayWithinYear(a);
      DayWithinYear(b);
      YearsOrdered(a.year, b.year);
    } else if a.month < b.month {
      MonthsOrdered(a.year, a.month, b.month);
    }
  }

  /** Chronological order on dates is order on day numbers. */
  lemma BeforeIffEarlierDay(a: Date, b: Date)
    ensures Before(a, b) <==> EpochDay(a) < EpochDay(b)
  {
    if Before(a, b) {
      BeforeMeansEarlierDay(a, b);
    } else if Before(b, a) {
      BeforeMeansEarlierDay(b, a);
    }
  }

  lemma OnOrBeforeIffDays(a: Date, b: Date)
    ensures OnOrBefore(a, b) <==> EpochDay(a) <= EpochDay(b)
  {
    BeforeIffEarlierDay(a, b);
    BeforeIffEarlierDay(b, a);
  }

  /** Adding one month moves a date forward by exactly the length of the
      month it falls in: the overflow rule and the ECMAScript MakeDay
      normalisation agree. */
  lemma AddOneMonthAdvancesByMonthLength(d: Date)
    ensures EpochDay(AddOneMonth(d)) == EpochDay(d) + DaysInMonth(d.year, d.month)
  {
    MonthStep(d.year, d.month);
    if d.month == 11 {
      YearStep(d.year);
    } else if d.day > DaysInMonth(d.year, d.month + 1) {
      MonthStep(d.year, d.month + 1);
    }
  }

  /** The overflow rule is not monotone: paying a day later can make the next
      due date earlier (Jan 31 2023 gives Mar 3, Feb 1 2023 gives Mar 1). */
  lemma AddOneMonthNotMonotone()
    ensures exists a: Date, b: Date :: Before(a, b) && Before(AddOneMonth(b), AddOneMonth(a))
  {
    var a: Date := YearMonthDay(2023, 0, 31);
    var b: Date := YearMonthDay(2023, 1, 1);
    assert AddOneMonth(a) == YearMonthDay(2023, 2, 3);
    assert AddOneMonth(b) == YearMonthDay(2023, 2, 1);
  }

  /** Worked instances of the overflow rule. */
  lemma AddOneMonthExamples()
    ensures AddOneMonth(YearMonthDay(2023, 0, 31)) == YearMonthDay(2023, 2, 3)
    ensures AddOneMonth(YearMonthDay(2024, 0, 31)) == YearMonthDay(2024, 2, 2)
    ensures AddOneMonth(YearMonthDay(2023, 11, 15)) == YearMonthDay(2024, 0, 15)
    ensures AddOneMonth(YearMonthDay(2023, 2, 31)) == YearMonthDay(2023, 4, 1)
  {
  }
}
