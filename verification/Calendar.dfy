/** The proleptic Gregorian calendar in UTC, as Go's `time` package reads it.

    An instant is a number of nanoseconds since 0001-01-01T00:00:00Z. That origin
    is Go's zero time, so the value 0 is what `Time.IsZero` recognises. A whole
    minute is written as its number since that origin, and a day likewise. */
module Calendar {

  type Instant = int

  const ZERO_TIME: Instant := 0
  const NANOS_PER_MINUTE := 60_000_000_000

  datatype Date = Date(year: int, month: int, day: int)

  predicate LeapYear(y: int) {
    y % 4 == 0 && (y % 100 != 0 || y % 400 == 0)
  }

  function DaysIn(y: int, m: int): (n: int)
    ensures 28 <= n <= 31
  {
    if m == 2 then (if LeapYear(y) then 29 else 28)
    else if m == 4 || m == 6 || m == 9 || m == 11 then 30
    else 31
  }

  /** Days from 0001-01-01 to the first of January of year y. */
  function DaysBeforeYear(y: int): int {
    365 * (y - 1) + (y - 1) / 4 - (y - 1) / 100 + (y - 1) / 400
  }

  function DaysBeforeMonth(y: int, m: int): (n: int)
    requires 1 <= m <= 13
    ensures 28 * (m - 1) <= n <= 31 * (m - 1)
  {
    if m == 1 then 0 else DaysBeforeMonth(y, m - 1) + DaysIn(y, m - 1)
  }

  predicate ValidDate(d: Date) {
    1 <= d.month <= 12 && 1 <= d.day <= DaysIn(d.year, d.month)
  }

  function DayNumber(d: Date): int
    requires 1 <= d.month <= 12
  {
    DaysBeforeYear(d.year) + DaysBeforeMonth(d.year, d.month) + d.day - 1
  }

  /** The year holding day n: an estimate from the 400-year cycle, off by at most one. */
  function YearOf(n: int): (y: int)
    ensures DaysBeforeYear(y) <= n < DaysBeforeYear(y + 1)
  {
    var y := 400 * n / 146097 + 1;
    if n < DaysBeforeYear(y) then y - 1
    else if DaysBeforeYear(y + 1) <= n then y + 1
    else y
  }

  function DateInYear(y: int, m: int, rest: int): (d: Date)
    requires 1 <= m <= 12
    requires 0 <= rest < DaysBeforeMonth(y, 13) - DaysBeforeMonth(y, m)
    ensures d.year == y && ValidDate(d)
    ensures DaysBeforeMonth(y, d.month) + d.day - 1 == DaysBeforeMonth(y, m) + rest
    decreases 12 - m
  {
    if rest < DaysIn(y, m) then Date(y, m, rest + 1)
    else DateInYear(y, m + 1, rest - DaysIn(y, m))
  }

  lemma MonthsTotal(y: int)
    ensures DaysBeforeMonth(y, 13) == if LeapYear(y) then 366 else 365
  {
    assert DaysBeforeMonth(y, 3) == 31 + DaysIn(y, 2);
    assert DaysBeforeMonth(y, 5) == DaysBeforeMonth(y, 3) + 61;
    assert DaysBeforeMonth(y, 7) == DaysBeforeMonth(y, 5) + 61;
    assert DaysBeforeMonth(y, 9) == DaysBeforeMonth(y, 7) + 62;
    assert DaysBeforeMonth(y, 11) == DaysBeforeMonth(y, 9) + 61;
  }

  lemma YearLength(y: int)
    ensures DaysBeforeYear(y + 1) == DaysBeforeYear(y) + DaysBeforeMonth(y, 13)
  {
    hide DaysBeforeMonth;
    MonthsTotal(y);
    Fours(y);
    Centuries(y);
    FourCenturies(y);
  }

  lemma Fours(y: int)
    ensures y / 4 == (y - 1) / 4 + if y % 4 == 0 then 1 else 0
  {
  }

  lemma Centuries(y: int)
    ensures y / 100 == (y - 1) / 100 + if y % 100 == 0 then 1 else 0
    ensures y % 100 == 0 ==> y % 4 == 0
  {
  }

  lemma FourCenturies(y: int)
    ensures y / 400 == (y - 1) / 400 + if y % 400 == 0 then 1 else 0
    ensures y % 400 == 0 ==> y % 100 == 0
  {
  }

  /** The date of day n, counted from 0001-01-01 as day 0. */
  function CivilDate(n: int): (d: Date)
    ensures ValidDate(d) && DayNumber(d) == n
  {
    var y := YearOf(n);
    YearLength(y);
    DateInYear(y, 1, n - DaysBeforeYear(y))
  }

  lemma {:induction false} YearsMonotone(y: int, z: int)
    requires y < z
    ensures DaysBeforeYear(y + 1) <= DaysBeforeYear(z)
    decreases z - y
  {
    if y + 1 < z {
      YearsMonotone(y, z - 1);
      YearLength(z - 1);
    }
  }

  lemma {:induction false} MonthsMonotone(y: int, m: int, k: int)
    requires 1 <= m < k <= 13
    ensures DaysBeforeMonth(y, m) + DaysIn(y, m) <= DaysBeforeMonth(y, k)
    decreases k - m
  {
    if m + 1 < k {
      MonthsMonotone(y, m, k - 1);
    }
  }

  /** The day of a valid date falls inside its year and inside its month. */
  lemma DayInYear(d: Date)
    requires ValidDate(d)
    ensures DaysBeforeYear(d.year) <= DayNumber(d) < DaysBeforeYear(d.year + 1)
  {
    YearLength(d.year);
    if d.month < 13 { MonthsMonotone(d.year, d.month, 13); }
  }

  /** The calendar is a bijection: no two valid dates share a day number. */
  lemma DateUnique(d: Date)
    requires ValidDate(d)
    ensures CivilDate(DayNumber(d)) == d
  {
    hide CivilDate, DaysBeforeYear, DaysBeforeMonth, LeapYear;
    var e := CivilDate(DayNumber(d));
    DayInYear(d);
    DayInYear(e);
    if d.year < e.year { YearsMonotone(d.year, e.year); }
    if e.year < d.year { YearsMonotone(e.year, d.year); }
    if d.month < e.month { MonthsMonotone(d.year, d.month, e.month); }
    if e.month < d.month { MonthsMonotone(d.year, e.month, d.month); }
  }

  // The accessors of time.Time at whole minute k.

  function DayOf(k: int): int { k / 1440 }
  function DateOf(k: int): (d: Date)
    ensures ValidDate(d) && DayNumber(d) == DayOf(k)
  {
    CivilDate(DayOf(k))
  }
  function HourOf(k: int): (h: int)
    ensures 0 <= h < 24
  {
    k / 60 % 24
  }
  function MinuteOf(k: int): (m: int)
    ensures 0 <= m < 60
  {
    k % 60
  }

  /** 0 is Sunday; 0001-01-01 was a Monday. */
  function WeekdayOf(k: int): (w: int)
    ensures 0 <= w < 7
  {
    (DayOf(k) + 1) % 7
  }

  /** time.Date with minutes and below zero: months past December roll into the
      next year, and days and hours past their end roll on by counting. */
  function DateMinute(y: int, m: int, d: int, h: int): int {
    var year := y + (m - 1) / 12;
    var month := (m - 1) % 12 + 1;
    (DaysBeforeYear(year) + DaysBeforeMonth(year, month) + d - 1) * 1440 + h * 60
  }
}
