/**
 * The month window of the transaction service: `monthRange("YYYY-MM")`
 * gives the instants `Date.UTC(y, m - 1, 1)` and `Date.UTC(y, m, 1)`, and
 * `listTransactionsByMonth` selects the rows with `start <= date < end`.
 *
 * Instants are ECMAScript time values: milliseconds since 1970-01-01T00:00Z.
 * `Date.UTC` reads a year 0..99 as 1900..1999, carries an out-of-range month
 * into the year (`MakeDay`), and gives NaN beyond the time-value range
 * (`TimeClip`), on which `toISOString` throws; that failure is `None` here.
 */
module Transactions {
  import opened Wrappers
  import opened Calendar
  import opened IsoText

  /** The largest magnitude of a time value. */
  const MaxTime: int := 8_640_000_000_000_000

  /**
   * `Date.UTC`'s year: 0..99 stand for 1900..1999. The result is never a
   * two-digit year, a two-digit year keeps its last two digits, and every
   * other year is kept.
   */
  function MakeYear(y: int): (r: int)
    ensures !(0 <= r <= 99)
    ensures 0 <= y <= 99 ==> 1900 <= r <= 1999 && r % 100 == y
    ensures !(0 <= y <= 99) ==> r == y
  {
    if 0 <= y <= 99 then 1900 + y else y
  }

  /** The time value `MakeDate(MakeDay(year, monthIndex, 1), 0)` before clipping. */
  function UtcTime(y: int, monthIndex: int): int
  {
    MakeDay(MakeYear(y), monthIndex, 1) * MsPerDay
  }

  /**
   * `Date.UTC(y, monthIndex, 1)`, or `None` where it is NaN: the midnight that
   * starts the month `monthIndex` months after January of year `y`, as long as
   * that instant is a time value.
   */
  function Utc(y: int, monthIndex: int): (r: Option<int>)
    ensures r.Some? <==> -MaxTime <= MonthStart(UtcMonth(y, monthIndex)) * MsPerDay <= MaxTime
    ensures r.Some? ==> r.value == MonthStart(UtcMonth(y, monthIndex)) * MsPerDay
  {
    UtcIsMonthStart(y, monthIndex);
    var t := UtcTime(y, monthIndex);
    if -MaxTime <= t <= MaxTime then Some(t) else None
  }

  /** A half-open window of instants `[start, end)`. */
  datatype Range = Range(start: int, end: int)

  /** The window of year `y` and month `m` (1-based): `[Date.UTC(y, m - 1, 1), Date.UTC(y, m, 1))`. */
  function RangeOf(y: int, m: int): (r: Option<Range>)
    ensures r.Some? ==> r.value.start == MonthStart(UtcMonth(y, m - 1)) * MsPerDay
    ensures r.Some? ==> r.value.end == MonthStart(Next(UtcMonth(y, m - 1))) * MsPerDay
    ensures r.Some? ==> r.value.start < r.value.end && r.value.start % MsPerDay == 0
  {
    UtcIsMonthStart(y, m - 1);
    MidnightWindow(UtcMonth(y, m - 1));
    var s, e := Utc(y, m - 1), Utc(y, m);
    if s.Some? && e.Some? then Some(Range(s.value, e.value)) else None
  }

  /**
   * `monthRange(month)`; `None` for a key that is not digits, `-`, digits, or
   * out of range. Any window is non-empty and starts at a midnight UTC.
   */
  function MonthRange(month: string): (r: Option<Range>)
    ensures SplitKey(month).None? ==> r.None?
    ensures r.Some? ==> r.value.start < r.value.end && r.value.start % MsPerDay == 0
  {
    var fields := SplitKey(month);
    if fields.None? then None else RangeOf(fields.value.0, fields.value.1)
  }

  /** `.gte("date", start).lt("date", end)`: the window is half-open, so an empty window selects nothing. */
  function Selected(r: Range, t: int): (b: bool)
    ensures r.end <= r.start ==> !b
  {
    r.start <= t < r.end
  }

  // ---------------------------------------------------------------------------
  // Lemmas

  /** The month `Date.UTC(y, i, 1)` falls in. */
  function UtcMonth(y: int, i: int): Month
  {
    AddMonths(Month(MakeYear(y), 1), i)
  }

  /** A month's window runs forward from a midnight. */
  lemma MidnightWindow(k: Month)
    requires k.Valid()
    ensures MonthStart(k) * MsPerDay < MonthStart(Next(k)) * MsPerDay
    ensures (MonthStart(k) * MsPerDay) % MsPerDay == 0
  {
    MonthStartNext(k);
    ScaleDays(MonthStart(k), MonthStart(Next(k)));
  }

  lemma ScaleDays(a: int, b: int)
    requires a < b
    ensures a * MsPerDay < b * MsPerDay && (a * MsPerDay) % MsPerDay == 0
  {
  }

  lemma UtcIsMonthStart(y: int, i: int)
    ensures UtcTime(y, i) == MonthStart(UtcMonth(y, i)) * MsPerDay
    ensures UtcMonth(y, i + 1) == Next(UtcMonth(y, i))
  {
    IndexInjective(UtcMonth(y, i + 1), Next(UtcMonth(y, i)));
  }

  /**
   * Whatever numbers the key holds, the window starts on the first of a month
   * at midnight UTC, ends on the first of the following month, and is non-empty.
   */
  lemma MonthRangeShape(month: string, y: nat, m: nat)
    requires SplitKey(month) == Some((y, m)) && MonthRange(month).Some?
    ensures var r, k := MonthRange(month).value, UtcMonth(y, m - 1);
      r.start == MonthStart(k) * MsPerDay && r.end == MonthStart(Next(k)) * MsPerDay
      && r.end - r.start == DaysInMonth(k) * MsPerDay && r.start < r.end
  {
    UtcIsMonthStart(y, m - 1);
    MonthStartNext(UtcMonth(y, m - 1));
  }

  /** Month starts of years 0..10000 are well inside the time-value range. */
  lemma MonthStartBounded(k: Month)
    requires k.Valid() && 0 <= k.year <= 10000
    ensures -800000 <= MonthStart(k) <= 3000000
  {
  }

  /** The key of a month of a year 100..9999 gives exactly that month's window. */
  lemma MonthRangeOfMonth(k: Month)
    requires k.Valid() && 100 <= k.year <= 9999
    ensures MonthRange(MonthText(k)) == Some(Range(MonthStart(k) * MsPerDay, MonthStart(Next(k)) * MsPerDay))
  {
    SplitMonthText(k);
    RangeOfMonth(k);
  }

  /** For a year 100..9999 the window of a month runs from its first day to the next month's. */
  lemma RangeOfMonth(k: Month)
    requires k.Valid() && 100 <= k.year <= 9999
    ensures RangeOf(k.year, k.month) == Some(Range(MonthStart(k) * MsPerDay, MonthStart(Next(k)) * MsPerDay))
  {
    var s, e := MonthStart(k) * MsPerDay, MonthStart(Next(k)) * MsPerDay;
    assert Utc(k.year, k.month - 1) == Some(s) by {
      MonthStartTime(k);
    }
    assert Utc(k.year, k.month) == Some(e) by {
      MonthEndTime(k);
    }
    RangeOfTimes(k.year, k.month, s, e);
  }

  /** Where both instants exist, they are the window. */
  lemma RangeOfTimes(y: int, m: int, s: int, e: int)
    requires Utc(y, m - 1) == Some(s) && Utc(y, m) == Some(e)
    ensures RangeOf(y, m) == Some(Range(s, e))
  {
  }

  lemma MonthStartTime(k: Month)
    requires k.Valid() && 100 <= k.year <= 9999
    ensures Utc(k.year, k.month - 1) == Some(MonthStart(k) * MsPerDay)
  {
    IndexInjective(UtcMonth(k.year, k.month - 1), k);
    MonthStartBounded(k);
    UtcValue(k.year, k.month - 1);
  }

  lemma MonthEndTime(k: Month)
    requires k.Valid() && 100 <= k.year <= 9999
    ensures Utc(k.year, k.month) == Some(MonthStart(Next(k)) * MsPerDay)
  {
    var n := Next(k);
    NextMonth(k);
    assert 1 <= n.month <= 12 && 100 <= n.year <= 10000;
    assert UtcMonth(k.year, k.month) == n by {
      IndexInjective(UtcMonth(k.year, k.month - 1), k);
      UtcIsMonthStart(k.year, k.month - 1);
    }
    MonthStartBounded(n);
    UtcValue(k.year, k.month);
  }

  /** Where the month start is in range, `Date.UTC` gives its midnight. */
  lemma UtcValue(y: int, i: int)
    requires -800000 <= MonthStart(UtcMonth(y, i)) <= 3000000
    ensures Utc(y, i) == Some(MonthStart(UtcMonth(y, i)) * MsPerDay)
  {
    UtcIsMonthStart(y, i);
  }

  /** Consecutive months' windows meet: December's ends where the next January's starts. */
  lemma Contiguous(k: Month)
    requires k.Valid() && 100 <= k.year && Next(k).year <= 9999
    ensures MonthRange(MonthText(k)).Some? && MonthRange(MonthText(Next(k))).Some?
    ensures MonthRange(MonthText(k)).value.end == MonthRange(MonthText(Next(k))).value.start
  {
    NextMonth(k);
    MonthRangeOfMonth(k);
    MonthRangeOfMonth(Next(k));
  }

  /**
   * A transaction dated on day `d` (at any instant of that UTC day) is listed
   * for month `k` exactly when `d` lies in `k`.
   */
  lemma SelectsItsMonth(k: Month, d: Day, ms: int)
    requires k.Valid() && 100 <= k.year <= 9999
    requires ValidDay(d) && 0 <= ms < MsPerDay
    ensures MonthRange(MonthText(k)).Some?
    ensures Selected(MonthRange(MonthText(k)).value, DayMs(d) + ms) <==> MonthOf(d) == k
  {
    MonthRangeOfMonth(k);
    DayInMonthSpan(d, k);
  }

  /** A key with a year below 100 is read in the 1900s: "0050-03" is March 1950. */
  lemma TwoDigitYear(k: Month)
    requires k == Month(50, 3)
    ensures MonthRange(MonthText(k)).Some?
    ensures MonthRange(MonthText(k)).value.start == MonthStart(Month(1950, 3)) * MsPerDay
  {
    SplitMonthText(k);
    IndexInjective(UtcMonth(50, 2), Month(1950, 3));
    UtcIsMonthStart(50, 2);
    MonthStartBounded(Month(1950, 3));
    MonthStartBounded(Month(1950, 4));
    IndexInjective(UtcMonth(50, 3), Month(1950, 4));
  }

  /** A key without a month field gives no window. */
  lemma KeyWithoutMonth(s: string)
    requires AllDigits(s)
    ensures MonthRange(s).None?
  {
    assert IndexOf(s, '-') == |s| by {
      IndexOfDigits(s);
    }
  }

  lemma {:induction false} IndexOfDigits(s: string)
    requires AllDigits(s)
    ensures IndexOf(s, '-') == |s|
  {
    if s != [] {
      assert AllDigits(s[1..]);
      IndexOfDigits(s[1..]);
    }
  }
}
