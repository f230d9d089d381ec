/**
 * Calendar dates as the application reads them off a `Date` object
 * (`getFullYear`, `getMonth`, `getDate`): a proleptic Gregorian year, a
 * zero-based month and a day of the month. `Ordinal` numbers the days
 * consecutively from 1 January of year 1, which is what "n days later"
 * means once `setDate` has normalised an overflowing day of the month.
 */
module Calendar {

  datatype Date = Date(year: int, month0: int, day: int)

  predicate IsLeapYear(y: int) {
    y % 4 == 0 && (y % 100 != 0 || y % 400 == 0)
  }

  function DaysInMonth(y: int, month0: int): (n: int)
    requires 0 <= month0 < 12
    ensures 28 <= n <= 31
  {
    if month0 == 1 then (if IsLeapYear(y) then 29 else 28)
    else if month0 == 3 || month0 == 5 || month0 == 8 || month0 == 10 then 30
    else 31
  }

  function DaysInYear(y: int): int {
    if IsLeapYear(y) then 366 else 365
  }

  /** A date that exists in the calendar. */
  predicate Valid(d: Date) {
    d.year >= 1 && 0 <= d.month0 < 12 && 1 <= d.day <= DaysInMonth(d.year, d.month0)
  }

  function DaysBeforeYear(y: int): nat
    requires y >= 1
  {
    if y == 1 then 0 else DaysBeforeYear(y - 1) + DaysInYear(y - 1)
  }

  function DaysBeforeMonth(y: int, month0: int): nat
    requires 0 <= month0 <= 12
  {
    if month0 == 0 then 0 else DaysBeforeMonth(y, month0 - 1) + DaysInMonth(y, month0 - 1)
  }

  lemma DaysBeforeMonthWholeYear(y: int)
    ensures DaysBeforeMonth(y, 12) == DaysInYear(y)
  {
    var feb := DaysInMonth(y, 1);
    assert DaysBeforeMonth(y, 1) == 31;
    assert DaysBeforeMonth(y, 2) == 31 + feb;
    assert DaysBeforeMonth(y, 3) == 62 + feb;
    assert DaysBeforeMonth(y, 4) == 92 + feb;
    assert DaysBeforeMonth(y, 5) == 123 + feb;
    assert DaysBeforeMonth(y, 6) == 153 + feb;
    assert DaysBeforeMonth(y, 7) == 184 + feb;
    assert DaysBeforeMonth(y, 8) == 215 + feb;
    assert DaysBeforeMonth(y, 9) == 245 + feb;
    assert DaysBeforeMonth(y, 10) == 276 + feb;
    assert DaysBeforeMonth(y, 11) == 306 + feb;
  }

  /** Day number of a date, counting 1 January of year 1 as day 0. */
  function Ordinal(d: Date): nat
    requires Valid(d)
  {
    DaysBeforeYear(d.year) + DaysBeforeMonth(d.year, d.month0) + d.day - 1
  }

  /** The following calendar day. */
  function NextDay(d: Date): (r: Date)
    requires Valid(d)
    ensures Valid(r) && Ordinal(r) == Ordinal(d) + 1
  {
    if d.day < DaysInMonth(d.year, d.month0) then d.(day := d.day + 1)
    else if d.month0 < 11 then Date(d.year, d.month0 + 1, 1)
    else
      DaysBeforeMonthWholeYear(d.year);
      Date(d.year + 1, 0, 1)
  }

  /** The date `n` days later. */
  function AddDays(d: Date, n: nat): (r: Date)
    requires Valid(d)
    ensures Valid(r) && Ordinal(r) == Ordinal(d) + n
    decreases n
  {
    if n == 0 then d else AddDays(NextDay(d), n - 1)
  }

  lemma {:induction false} DaysBeforeMonthMonotone(y: int, m: int, k: int)
    requires 0 <= m <= k <= 12
    ensures DaysBeforeMonth(y, m) <= DaysBeforeMonth(y, k)
    decreases k - m
  {
    if m < k {
      DaysBeforeMonthMonotone(y, m, k - 1);
    }
  }

  lemma {:induction false} DaysBeforeYearMonotone(y: int, z: int)
    requires 1 <= y <= z
    ensures DaysBeforeYear(y) <= DaysBeforeYear(z)
    decreases z - y
  {
    if y < z {
      DaysBeforeYearMonotone(y, z - 1);
    }
  }

  /** A date's day number lies within its month's and its year's ranges. */
  lemma OrdinalBounds(d: Date)
    requires Valid(d)
    ensures DaysBeforeMonth(d.year, d.month0) + d.day - 1 < DaysBeforeMonth(d.year, d.month0 + 1)
    ensures DaysBeforeYear(d.year) <= Ordinal(d) < DaysBeforeYear(d.year + 1)
  {
    DaysBeforeMonthMonotone(d.year, d.month0 + 1, 12);
    DaysBeforeMonthWholeYear(d.year);
  }

  /** Distinct valid dates have distinct day numbers. */
  lemma OrdinalInjective(a: Date, b: Date)
    requires Valid(a) && Valid(b) && Ordinal(a) == Ordinal(b)
    ensures a == b
  {
    OrdinalBounds(a);
    OrdinalBounds(b);
    if a.year < b.year {
      DaysBeforeYearMonotone(a.year + 1, b.year);
    } else if b.year < a.year {
      DaysBeforeYearMonotone(b.year + 1, a.year);
    }
    assert a.year == b.year;
    if a.month0 < b.month0 {
      DaysBeforeMonthMonotone(a.year, a.month0 + 1, b.month0);
    } else if b.month0 < a.month0 {
      DaysBeforeMonthMonotone(a.year, b.month0 + 1, a.month0);
    }
  }
}
