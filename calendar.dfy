/** The calendar arithmetic behind the monthly reports: the window
    `[new Date(year, month - 1, 1), new Date(year, month, 0, 23, 59, 59)]`
    on the proleptic Gregorian calendar, in the server's local time. */
module Calendar {

  /** A JavaScript Date value: milliseconds since 1970-01-01T00:00:00.000
      local time (time zones and daylight saving are not modelled). */
  type Timestamp = int

  const MsPerDay: int := 86_400_000
  /** 23:59:59.000 as an offset into a day. */
  const LastSecondOfDay: int := 86_399_000

  predicate IsLeapYear(y: int) {
    y % 4 == 0 && (y % 100 != 0 || y % 400 == 0)
  }

  /** Number of days in month m (1 = January) of year y. */
  function DaysInMonth(y: int, m: int): (d: int)
    requires 1 <= m <= 12
    ensures 28 <= d <= 31
    ensures m == 2 ==> (d == 29 <==> IsLeapYear(y))
  {
    if m == 2 then (if IsLeapYear(y) then 29 else 28)
    else if m == 4 || m == 6 || m == 9 || m == 11 then 30
    else 31
  }

  /** Days from 0000-01-01 to y-01-01 (year 0 is a leap year). */
  function DaysBeforeYear(y: int): int {
    365 * y + (y + 3) / 4 - (y + 99) / 100 + (y + 399) / 400
  }

  /** Days from y-01-01 to the first day of month m + 1 (m full months). */
  function DaysBeforeMonth(y: int, m: int): int
    requires 0 <= m <= 12
  {
    if m == 0 then 0 else DaysBeforeMonth(y, m - 1) + DaysInMonth(y, m)
  }

  /** The twelve months add up to the length of the year. */
  lemma YearLength(y: int)
    ensures DaysBeforeYear(y + 1) - DaysBeforeYear(y) == DaysBeforeMonth(y, 12)
    ensures DaysBeforeMonth(y, 12) == if IsLeapYear(y) then 366 else 365
  {
    YearDays(y);
    MonthDays(y);
  }

  /** A year has 366 days when it is a leap year and 365 otherwise. */
  lemma YearDays(y: int)
    ensures DaysBeforeYear(y + 1) - DaysBeforeYear(y) == if IsLeapYear(y) then 366 else 365
  {
    assert (y + 4) / 4 - (y + 3) / 4 == if y % 4 == 0 then 1 else 0;
    assert (y + 100) / 100 - (y + 99) / 100 == if y % 100 == 0 then 1 else 0;
    assert (y + 400) / 400 - (y + 399) / 400 == if y % 400 == 0 then 1 else 0;
  }

  /** The month lengths add up to 337 days plus February. */
  lemma MonthDays(y: int)
    ensures DaysBeforeMonth(y, 12) == if IsLeapYear(y) then 366 else 365
  {
    var feb := DaysInMonth(y, 2);
    assert DaysBeforeMonth(y, 1) == 31;
    assert DaysBeforeMonth(y, 2) == 31 + feb;
    assert DaysBeforeMonth(y, 3) == 62 + feb;
    assert DaysBeforeMonth(y, 4) == 92 + feb;
    assert DaysBeforeMonth(y, 5) == 123 + feb;
    assert DaysBeforeMonth(y, 6) == 153 + feb;
    assert DaysBeforeMonth(y, 7) == 184 + feb;
    assert DaysBeforeMonth(y, 8) == 215 + feb;
    assert DaysBeforeMonth(y, 9) == 245 + feb;
    assert DaysBeforeMonth(y, 10) == 276 + feb;
    assert DaysBeforeMonth(y, 11) == 306 + feb;
  }

  /** The Date constructor's reading of a year argument: 0..99 mean 1900..1999. */
  function ConstructorYear(year: int): int {
    if 0 <= year <= 99 then 1900 + year else year
  }

  /** Day number (days since 1970-01-01) of the first day of the month that
      lies `index` months after January of year 0; out-of-range months roll
      over into neighbouring years as the Date constructor does. */
  function FirstDayOfMonth(index: int): int {
    var y := index / 12;
    var m := index % 12;
    DaysBeforeYear(y) + DaysBeforeMonth(y, m) - DaysBeforeYear(1970)
  }

  /** Consecutive month starts are exactly one month length apart. */
  lemma MonthLength(index: int)
    ensures FirstDayOfMonth(index + 1) - FirstDayOfMonth(index) == DaysInMonth(index / 12, index % 12 + 1)
  {
    var y, m := index / 12, index % 12;
    if m == 11 {
      assert (index + 1) / 12 == y + 1 && (index + 1) % 12 == 0;
      YearLength(y);
    } else {
      assert (index + 1) / 12 == y && (index + 1) % 12 == m + 1;
    }
  }

  /** `new Date(year, month - 1, 1)`: the first instant of the month. */
  function MonthStart(year: int, month: int): Timestamp {
    FirstDayOfMonth(ConstructorYear(year) * 12 + month - 1) * MsPerDay
  }

  /** `new Date(year, month, 0, 23, 59, 59)`: 23:59:59.000 on the last day of
      the month (day 0 of the following month). */
  function MonthEnd(year: int, month: int): Timestamp {
    (FirstDayOfMonth(ConstructorYear(year) * 12 + month) - 1) * MsPerDay + LastSecondOfDay
  }

  /** TypeORM's `Between(start, end)`, which is inclusive on both sides. */
  predicate InMonth(t: Timestamp, year: int, month: int) {
    MonthStart(year, month) <= t <= MonthEnd(year, month)
  }

  /** For a month between 1 and 12 the window spans the month's days, minus
      the final second: it ends at 23:59:59.000 of its last day. */
  lemma MonthWindowLength(year: int, month: int)
    requires 1 <= month <= 12
    ensures MonthEnd(year, month) - MonthStart(year, month)
            == DaysInMonth(ConstructorYear(year), month) * MsPerDay - 1000
  {
    var index := ConstructorYear(year) * 12 + month - 1;
    assert index / 12 == ConstructorYear(year) && index % 12 == month - 1;
    MonthLength(index);
  }

  /** The window of February 2024 is [2024-02-01T00:00:00, 2024-02-29T23:59:59]:
      29 days, because 2024 is a leap year. */
  lemma February2024Window()
    ensures MonthEnd(2024, 2) == MonthStart(2024, 2) + 28 * MsPerDay + LastSecondOfDay
  {
    MonthWindowLength(2024, 2);
  }

  /** The window of one month ends 1000 ms before the next one starts, so an
      instant in the last second of a month, after 23:59:59.000, lies in
      neither month's window. */
  lemma LastSecondInNoWindow(year: int, month: int, t: Timestamp)
    requires MonthEnd(year, month) < t < MonthEnd(year, month) + 1000
    ensures MonthStart(year, month + 1) == MonthEnd(year, month) + 1000
    ensures !InMonth(t, year, month) && !InMonth(t, year, month + 1)
  {
  }
}
