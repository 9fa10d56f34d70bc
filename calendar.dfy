/**
 * Calendar arithmetic shared by the dashboard and the transaction service:
 * year-month values, the proleptic Gregorian day count that ECMAScript
 * `Date` uses, and its `MakeDay` normalisation of out-of-range months.
 *
 * Day numbers count days from 1970-01-01 (day 0), as ECMAScript time values do.
 */
module Calendar {

  /** A calendar month; `month` runs 1..12 when `Valid()`. */
  datatype Month = Month(year: int, month: nat) {

    predicate Valid()
    {
      1 <= month <= 12
    }

    /** Months counted from January of year 0. */
    function Index(): int
    {
      year * 12 + month - 1
    }
  }

  /** A calendar day `year-month-day`. */
  datatype Day = Day(year: int, month: nat, day: nat)

  function MonthOf(d: Day): Month
  {
    Month(d.year, d.month)
  }

  /**
   * The month `i` months after `k`, normalised the way ECMAScript `MakeDay`
   * normalises a month argument: `floor(m / 12)` years carried, `m mod 12` kept.
   */
  function AddMonths(k: Month, i: int): (r: Month)
    ensures r.Valid()
    ensures r.Index() == k.Index() + i
  {
    var mi := k.month - 1 + i;
    Month(k.year + mi / 12, mi % 12 + 1)
  }

  /** The following calendar month. */
  function Next(k: Month): (r: Month)
    ensures r.Valid()
    ensures r.Index() == k.Index() + 1
  {
    AddMonths(k, 1)
  }

  /** Two valid months with the same index are the same month. */
  lemma IndexInjective(a: Month, b: Month)
    requires a.Valid() && b.Valid()
    requires a.Index() == b.Index()
    ensures a == b
  {
  }

  /** December is followed by January of the next year, any other month by its successor. */
  lemma NextMonth(k: Month)
    requires k.Valid()
    ensures Next(k) == if k.month == 12 then Month(k.year + 1, 1) else Month(k.year, k.month + 1)
  {
    var expected := if k.month == 12 then Month(k.year + 1, 1) else Month(k.year, k.month + 1);
    IndexInjective(Next(k), expected);
  }

  /** Adding `i + 1` months is adding `i` months and stepping once more. */
  lemma AddMonthsNext(k: Month, i: int)
    ensures AddMonths(k, i + 1) == Next(AddMonths(k, i))
  {
    IndexInjective(AddMonths(k, i + 1), Next(AddMonths(k, i)));
  }

  /** Adding no months to a valid month leaves it alone. */
  lemma AddMonthsZero(k: Month)
    requires k.Valid()
    ensures AddMonths(k, 0) == k
  {
    IndexInjective(AddMonths(k, 0), k);
  }

  /** Distinct offsets give distinct months. */
  lemma AddMonthsInjective(k: Month, i: int, j: int)
    requires i != j
    ensures AddMonths(k, i) != AddMonths(k, j)
  {
  }

  // ---------------------------------------------------------------------------
  // Day counts

  predicate Leap(y: int)
  {
    y % 4 == 0 && (y % 100 != 0 || y % 400 == 0)
  }

  function DaysInYear(y: int): nat
  {
    if Leap(y) then 366 else 365
  }

  function DaysInMonth(k: Month): (n: nat)
    requires k.Valid()
    ensures 28 <= n <= 31
  {
    if k.month == 2 then (if Leap(k.year) then 29 else 28)
    else if k.month in {4, 6, 9, 11} then 30
    else 31
  }

  /** A real calendar day: a valid month and a day within it. */
  predicate ValidDay(d: Day)
  {
    MonthOf(d).Valid() && 1 <= d.day <= DaysInMonth(MonthOf(d))
  }

  /** The days a date input can hold. */
  type CalendarDay = d: Day | ValidDay(d) witness Day(1970, 1, 1)

  /** Days from 0000-01-01 to the first of January of year `y`. */
  function DaysBeforeYear(y: int): int
  {
    365 * y + (y + 3) / 4 - (y + 99) / 100 + (y + 399) / 400
  }

  /** Days from the first of January to the first of month `k` in its year. */
  function DaysBeforeMonth(k: Month): nat
    requires k.Valid()
  {
    [0, 31, 59, 90, 120, 151, 181, 212, 243, 273, 304, 334][k.month - 1]
      + (if k.month > 2 && Leap(k.year) then 1 else 0)
  }

  /** Day number of 1970-01-01 counted from 0000-01-01. */
  const EpochDay: int := 719528

  /** Day number (from 1970-01-01) of the first day of month `k`. */
  function MonthStart(k: Month): int
    requires k.Valid()
  {
    DaysBeforeYear(k.year) + DaysBeforeMonth(k) - EpochDay
  }

  /** Day number (from 1970-01-01) of a day; days beyond the month's end run on. */
  function DayNumber(d: Day): int
    requires MonthOf(d).Valid()
  {
    MonthStart(MonthOf(d)) + d.day - 1
  }

  const MsPerDay: int := 86400000

  /** The time value of midnight UTC starting day `d`, as `new Date("YYYY-MM-DD")` gives. */
  function DayMs(d: Day): int
    requires MonthOf(d).Valid()
  {
    DayNumber(d) * MsPerDay
  }

  /**
   * ECMAScript `MakeDay(year, month, date)`: the month index (0-based) may be
   * any integer and carries into the year; the date may run past the month.
   */
  function MakeDay(year: int, monthIndex: int, date: int): int
  {
    MonthStart(AddMonths(Month(year, 1), monthIndex)) + date - 1
  }

  // ---------------------------------------------------------------------------
  // Facts about the day count

  lemma Quarter(y: int)
    ensures (y + 4) / 4 == (y + 3) / 4 + (if y % 4 == 0 then 1 else 0)
  {
  }

  lemma Century(y: int)
    ensures (y + 100) / 100 == (y + 99) / 100 + (if y % 100 == 0 then 1 else 0)
  {
  }

  lemma FourCenturies(y: int)
    ensures (y + 400) / 400 == (y + 399) / 400 + (if y % 400 == 0 then 1 else 0)
  {
  }

  lemma DivisorsOfLeap(y: int)
    ensures y % 100 == 0 ==> y % 4 == 0
    ensures y % 400 == 0 ==> y % 100 == 0
  {
    if y % 100 == 0 {
      FourTimes(25 * (y / 100));
    }
    if y % 400 == 0 {
      HundredTimes(4 * (y / 400));
    }
  }

  lemma FourTimes(t: int)
    ensures (4 * t) % 4 == 0
  {
  }

  lemma HundredTimes(t: int)
    ensures (100 * t) % 100 == 0
  {
  }

  /** A year has 366 days when it is a leap year and 365 otherwise. */
  lemma YearLength(y: int)
    ensures DaysBeforeYear(y + 1) == DaysBeforeYear(y) + DaysInYear(y)
  {
    Quarter(y);
    Century(y);
    FourCenturies(y);
    DivisorsOfLeap(y);
  }

  /** The first of the next month is the first of this month plus its length. */
  lemma MonthStartNext(k: Month)
    requires k.Valid()
    ensures MonthStart(Next(k)) == MonthStart(k) + DaysInMonth(k)
  {
    NextMonth(k);
    if k.month == 12 {
      YearLength(k.year);
    }
  }

  /** Month starts strictly increase with the month index. */
  lemma {:induction false} MonthStartMonotone(a: Month, b: Month)
    requires a.Valid() && b.Valid()
    requires a.Index() < b.Index()
    ensures MonthStart(Next(a)) <= MonthStart(b)
    decreases b.Index() - a.Index()
  {
    if Next(a).Index() == b.Index() {
      IndexInjective(Next(a), b);
    } else {
      MonthStartMonotone(Next(a), b);
      MonthStartNext(Next(a));
    }
  }

  /** A valid day lies within its month's span of day numbers. */
  lemma DayWithinMonth(d: Day)
    requires ValidDay(d)
    ensures MonthStart(MonthOf(d)) <= DayNumber(d) < MonthStart(Next(MonthOf(d)))
  {
    MonthStartNext(MonthOf(d));
  }

  /** Chronological order of days, comparing year, then month, then day. */
  predicate DayBefore(a: Day, b: Day)
  {
    a.year < b.year
    || (a.year == b.year && a.month < b.month)
    || (a.year == b.year && a.month == b.month && a.day < b.day)
  }

  /** Day numbers of valid days are ordered exactly as the days are. */
  lemma DayNumberOrder(a: Day, b: Day)
    requires ValidDay(a) && ValidDay(b)
    ensures DayNumber(a) < DayNumber(b) <==> DayBefore(a, b)
    ensures DayNumber(a) == DayNumber(b) <==> a == b
  {
    DayWithinMonth(a);
    DayWithinMonth(b);
    if MonthOf(a).Index() < MonthOf(b).Index() {
      MonthStartMonotone(MonthOf(a), MonthOf(b));
    } else if MonthOf(b).Index() < MonthOf(a).Index() {
      MonthStartMonotone(MonthOf(b), MonthOf(a));
    } else {
      IndexInjective(MonthOf(a), MonthOf(b));
    }
  }

  /** A day number lies in month `k`'s span exactly when the day belongs to `k`. */
  lemma DayInMonthSpan(d: Day, k: Month)
    requires ValidDay(d) && k.Valid()
    ensures MonthStart(k) <= DayNumber(d) < MonthStart(Next(k)) <==> MonthOf(d) == k
  {
    DayWithinMonth(d);
    if MonthOf(d).Index() < k.Index() {
      MonthStartMonotone(MonthOf(d), k);
    } else if k.Index() < MonthOf(d).Index() {
      MonthStartMonotone(k, MonthOf(d));
    } else {
      IndexInjective(MonthOf(d), k);
    }
  }
}
