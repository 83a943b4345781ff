/** The proleptic Gregorian calendar that JavaScript's `Date` counts days
    in: dates, the day after and the day before, and whole-day offsets. */
module Calendar {
  predicate IsLeap(y: int) {
    (y % 4 == 0 && y % 100 != 0) || y % 400 == 0
  }

  function DaysIn(y: int, m: int): (n: int)
    requires 1 <= m <= 12
    ensures 28 <= n <= 31
  {
    if m == 2 then (if IsLeap(y) then 29 else 28)
    else if m == 4 || m == 6 || m == 9 || m == 11 then 30
    else 31
  }

  function YearLength(y: int): int {
    if IsLeap(y) then 366 else 365
  }

  /** A calendar date, month and day counted from 1. */
  datatype Date = Date(year: int, month: int, day: int)

  predicate Valid(d: Date) {
    1 <= d.month <= 12 && 1 <= d.day <= DaysIn(d.year, d.month)
  }

  /** Earlier in the calendar: by year, then month, then day. */
  predicate Earlier(a: Date, b: Date) {
    a.year < b.year || (a.year == b.year && (a.month < b.month || (a.month == b.month && a.day < b.day)))
  }

  function NextDay(d: Date): (r: Date)
    requires Valid(d)
    ensures Valid(r) && Earlier(d, r)
  {
    if d.day < DaysIn(d.year, d.month) then d.(day := d.day + 1)
    else if d.month < 12 then Date(d.year, d.month + 1, 1)
    else Date(d.year + 1, 1, 1)
  }

  function PrevDay(d: Date): (r: Date)
    requires Valid(d)
    ensures Valid(r) && Earlier(r, d)
  {
    if d.day > 1 then d.(day := d.day - 1)
    else if d.month > 1 then Date(d.year, d.month - 1, DaysIn(d.year, d.month - 1))
    else Date(d.year - 1, 12, 31)
  }

  /** `date.setDate(date.getDate() + n)`: n days later, or -n days
      earlier, one day at a time. */
  function AddDays(d: Date, n: int): (r: Date)
    requires Valid(d)
    ensures Valid(r)
    decreases if n < 0 then -n else n
  {
    if n == 0 then d
    else if n > 0 then AddDays(NextDay(d), n - 1)
    else AddDays(PrevDay(d), n + 1)
  }

  // ---------------------------------------------------------------------
  // Day numbers

  /** Days from 1 January of year 0 to 1 January of year y. */
  function DaysBeforeYear(y: int): int
    decreases if y < 0 then -y else y
  {
    if y == 0 then 0
    else if y > 0 then DaysBeforeYear(y - 1) + YearLength(y - 1)
    else DaysBeforeYear(y + 1) - YearLength(y)
  }

  /** Days from 1 January to the first of month m of year y. */
  function DaysBeforeMonth(y: int, m: int): (n: int)
    requires 1 <= m <= 13
    ensures 0 <= n
  {
    if m == 1 then 0 else DaysBeforeMonth(y, m - 1) + DaysIn(y, m - 1)
  }

  /** The position of a date on the line of days. */
  function DayNumber(d: Date): int
    requires Valid(d)
  {
    DaysBeforeYear(d.year) + DaysBeforeMonth(d.year, d.month) + d.day - 1
  }

  lemma {:induction false} YearStep(y: int)
    ensures DaysBeforeYear(y + 1) == DaysBeforeYear(y) + YearLength(y)
  {
  }

  lemma {:induction false} MonthsFillYear(y: int)
    ensures DaysBeforeMonth(y, 13) == YearLength(y)
  {
    assert DaysBeforeMonth(y, 13) == DaysBeforeMonth(y, 12) + 31;
    assert DaysBeforeMonth(y, 12) == DaysBeforeMonth(y, 11) + 30;
    assert DaysBeforeMonth(y, 11) == DaysBeforeMonth(y, 10) + 31;
    assert DaysBeforeMonth(y, 10) == DaysBeforeMonth(y, 9) + 30;
    assert DaysBeforeMonth(y, 9) == DaysBeforeMonth(y, 8) + 31;
    assert DaysBeforeMonth(y, 8) == DaysBeforeMonth(y, 7) + 31;
    assert DaysBeforeMonth(y, 7) == DaysBeforeMonth(y, 6) + 30;
    assert DaysBeforeMonth(y, 6) == DaysBeforeMonth(y, 5) + 31;
    assert DaysBeforeMonth(y, 5) == DaysBeforeMonth(y, 4) + 30;
    assert DaysBeforeMonth(y, 4) == DaysBeforeMonth(y, 3) + 31;
    assert DaysBeforeMonth(y, 3) == DaysBeforeMonth(y, 2) + DaysIn(y, 2);
    assert DaysBeforeMonth(y, 2) == 31;
  }

  // ---------------------------------------------------------------------
  // The range of a JavaScript `Date`

  /** The first day JavaScript's time values count from, 1 January 1970. */
  const Epoch: Date := Date(1970, 1, 1)

  /** A time value lies at most 8.64e15 ms, that is 100,000,000 days,
      either side of the epoch; a `Date` beyond that is invalid. */
  const MaxTimeDays: int := 100_000_000

  predicate InTimeRange(d: Date)
    requires Valid(d)
  {
    -MaxTimeDays <= DayNumber(d) - DayNumber(Epoch) <= MaxTimeDays
  }

  lemma {:induction false} DaysBeforeYearBounds(y: int)
    requires y >= 0
    ensures 365 * y <= DaysBeforeYear(y) <= 366 * y
  {
    if y > 0 {
      DaysBeforeYearBounds(y - 1);
    }
  }

  /** A date of a year from 0 on lies within that year's days. */
  lemma {:induction false} DayNumberBounds(d: Date)
    requires Valid(d) && d.year >= 0
    ensures 365 * d.year <= DayNumber(d) < 366 * (d.year + 1)
  {
    DaysBeforeYearBounds(d.year);
    MonthsBound(d.year, d.month, 13);
    MonthsFillYear(d.year);
  }

  /** Every date from year 0 to year 200000 is in range ... */
  lemma {:induction false} InTimeRangeOfYears(d: Date)
    requires Valid(d) && 0 <= d.year <= 200_000
    ensures InTimeRange(d)
  {
    DayNumberBounds(d);
    DayNumberBounds(Epoch);
  }

  /** ... and none from year 276000 on is. */
  lemma {:induction false} OutOfTimeRangeOfYears(d: Date)
    requires Valid(d) && d.year >= 276_000
    ensures !InTimeRange(d)
  {
    DayNumberBounds(d);
    DayNumberBounds(Epoch);
  }

  /** The day after is the next day number. */
  lemma {:induction false} NextDayNumber(d: Date)
    requires Valid(d)
    ensures DayNumber(NextDay(d)) == DayNumber(d) + 1
  {
    if d.day == DaysIn(d.year, d.month) && d.month == 12 {
      MonthsFillYear(d.year);
      YearStep(d.year);
    }
  }

  lemma {:induction false} PrevDayNumber(d: Date)
    requires Valid(d)
    ensures DayNumber(PrevDay(d)) == DayNumber(d) - 1
  {
    if d.day == 1 && d.month == 1 {
      MonthsFillYear(d.year - 1);
      YearStep(d.year - 1);
    }
  }

  /** Adding n days moves the day number by n. */
  lemma {:induction false} AddDaysNumber(d: Date, n: int)
    requires Valid(d)
    ensures DayNumber(AddDays(d, n)) == DayNumber(d) + n
    decreases if n < 0 then -n else n
  {
    if n > 0 {
      NextDayNumber(d);
      AddDaysNumber(NextDay(d), n - 1);
    } else if n < 0 {
      PrevDayNumber(d);
      AddDaysNumber(PrevDay(d), n + 1);
    }
  }

  lemma {:induction false} MonthsBound(y: int, m: int, k: int)
    requires 1 <= m < k <= 13
    ensures DaysBeforeMonth(y, m) + DaysIn(y, m) <= DaysBeforeMonth(y, k)
    decreases k - m
  {
    if m + 1 < k {
      MonthsBound(y, m + 1, k);
    }
  }

  lemma {:induction false} YearsBound(a: int, b: int)
    requires a < b
    ensures DaysBeforeYear(a) + YearLength(a) <= DaysBeforeYear(b)
    decreases b - a
  {
    YearStep(a);
    if a + 1 < b {
      YearsBound(a + 1, b);
      YearStep(a + 1);
    }
  }

  /** The day numbers are in calendar order. */
  lemma {:induction false} EarlierIsSmaller(a: Date, b: Date)
    requires Valid(a) && Valid(b) && Earlier(a, b)
    ensures DayNumber(a) < DayNumber(b)
  {
    if a.year < b.year {
      MonthsBound(a.year, a.month, 13);
      MonthsFillYear(a.year);
      YearsBound(a.year, b.year);
    } else if a.month < b.month {
      MonthsBound(a.year, a.month, b.month);
    }
  }

  /** Calendar order and day-number order agree, so a date is fixed by
      its day number. */
  lemma {:induction false} OrderByNumber(a: Date, b: Date)
    requires Valid(a) && Valid(b)
    ensures Earlier(a, b) <==> DayNumber(a) < DayNumber(b)
    ensures a == b <==> DayNumber(a) == DayNumber(b)
  {
    if Earlier(a, b) {
      EarlierIsSmaller(a, b);
    } else if Earlier(b, a) {
      EarlierIsSmaller(b, a);
    }
  }

  /** Offsets add up, whatever their signs. */
  lemma {:induction false} AddDaysAdd(d: Date, a: int, b: int)
    requires Valid(d)
    ensures AddDays(AddDays(d, a), b) == AddDays(d, a + b)
  {
    AddDaysNumber(d, a);
    AddDaysNumber(AddDays(d, a), b);
    AddDaysNumber(d, a + b);
    OrderByNumber(AddDays(AddDays(d, a), b), AddDays(d, a + b));
  }

  /** A date is the first of its month moved on by its day less one. */
  lemma {:induction false} AddDaysInMonth(d: Date)
    requires Valid(d)
    ensures AddDays(Date(d.year, d.month, 1), d.day - 1) == d
  {
    var first := Date(d.year, d.month, 1);
    AddDaysNumber(first, d.day - 1);
    OrderByNumber(AddDays(first, d.day - 1), d);
  }
}
