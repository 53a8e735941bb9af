/** The calendar against rules and dates known independently of how it is computed. */
module CalendarLaws {
  import opened Calendar
  import opened CronParser
  import CronSearch

  // ---------- weekdays ----------

  /** Zeller's congruence for the Gregorian calendar, with 0 for Sunday: January and
      February count as the thirteenth and fourteenth month of the year before. */
  function Zeller(d: Date): (w: int)
    ensures 0 <= w < 7
  {
    var y, m := if d.month < 3 then d.year - 1 else d.year, if d.month < 3 then d.month + 12 else d.month;
    (d.day + 13 * (m + 1) / 5 + y + y / 4 - y / 100 + y / 400 + 6) % 7
  }

  /** Days of the year before a month, written out. */
  lemma MonthTable(y: int, m: int)
    requires 1 <= m <= 12
    ensures var leap := if LeapYear(y) then 1 else 0;
      DaysBeforeMonth(y, m) == match m
        case 1 => 0 case 2 => 31 case 3 => 59 + leap case 4 => 90 + leap case 5 => 120 + leap case 6 => 151 + leap
        case 7 => 181 + leap case 8 => 212 + leap case 9 => 243 + leap case 10 => 273 + leap case 11 => 304 + leap
        case _ => 334 + leap
  {
    hide LeapYear;
    assert DaysBeforeMonth(y, 3) == 31 + DaysIn(y, 2);
    assert DaysBeforeMonth(y, 5) == DaysBeforeMonth(y, 3) + 61;
    assert DaysBeforeMonth(y, 7) == DaysBeforeMonth(y, 5) + 61;
    assert DaysBeforeMonth(y, 9) == DaysBeforeMonth(y, 7) + 62;
    assert DaysBeforeMonth(y, 11) == DaysBeforeMonth(y, 9) + 61;
  }

  /** The leap days up to and including year y. */
  function Leaps(y: int): int { y / 4 - y / 100 + y / 400 }

  lemma LeapsStep(y: int)
    ensures Leaps(y) == Leaps(y - 1) + if LeapYear(y) then 1 else 0
    ensures DaysBeforeYear(y) == 365 * (y - 1) + Leaps(y - 1)
  {
    Fours(y);
    Centuries(y);
    FourCenturies(y);
  }

  lemma SevenApart(a: int, b: int, k: int)
    requires a == b + 7 * k
    ensures a % 7 == b % 7
  {
  }

  /** For every valid date, the weekday of its day number is Zeller's. */
  lemma WeekdayIsZeller(d: Date)
    requires ValidDate(d)
    ensures (DayNumber(d) + 1) % 7 == Zeller(d)
  {
    hide LeapYear, DaysBeforeYear, DaysBeforeMonth;
    ZellerMonths(d.year, d.month);
    LeapsStep(d.year);
    hide Leaps;
    ZellerByLeaps(d);
    var y, m := d.year, d.month;
    if m < 3 {
      SevenApart(DayNumber(d) + 1, d.day + 13 * (m + 13) / 5 + (y - 1) + Leaps(y - 1) + 6, 52 * (y - 1) + 4 * m - 10);
    } else {
      SevenApart(DayNumber(d) + 1, d.day + 13 * (m + 1) / 5 + y + Leaps(y) + 6, 52 * y + 4 * m - 58);
    }
  }

  lemma ZellerByLeaps(d: Date)
    ensures Zeller(d) ==
      if d.month < 3 then (d.day + 13 * (d.month + 13) / 5 + (d.year - 1) + Leaps(d.year - 1) + 6) % 7
      else (d.day + 13 * (d.month + 1) / 5 + d.year + Leaps(d.year) + 6) % 7
  {
  }

  /** The month term of the congruence is the table of month lengths. */
  lemma ZellerMonths(y: int, m: int)
    requires 1 <= m <= 12
    ensures var leap := if LeapYear(y) then 1 else 0;
      DaysBeforeMonth(y, m) == if m < 3 then 13 * (m + 13) / 5 + 28 * m - 64 else 13 * (m + 1) / 5 + 28 * m - 35 + leap
  {
    hide LeapYear, DaysBeforeMonth;
    MonthTable(y, m);
  }

  // ---------- days ----------

  /** The day after, by the rules of the calendar. */
  function NextDay(d: Date): Date {
    if d.day < DaysIn(d.year, d.month) then d.(day := d.day + 1)
    else if d.month < 12 then Date(d.year, d.month + 1, 1)
    else Date(d.year + 1, 1, 1)
  }

  /** Day numbers count the days from 0001-01-01 one by one. */
  lemma DaysCount(d: Date)
    requires ValidDate(d)
    ensures ValidDate(NextDay(d)) && DayNumber(NextDay(d)) == DayNumber(d) + 1
    ensures DayNumber(Date(1, 1, 1)) == 0
  {
    hide LeapYear;
    YearLength(d.year);
    MonthsMonotone(d.year, d.month, 13);
    assert d.month < 12 ==> DaysBeforeMonth(d.year, d.month + 1) == DaysBeforeMonth(d.year, d.month) + DaysIn(d.year, d.month);
    assert DaysBeforeMonth(d.year, 13) == DaysBeforeMonth(d.year, 12) + DaysIn(d.year, 12);
    assert DaysBeforeMonth(d.year + 1, 1) == 0;
    assert DaysBeforeYear(1) == 0;
  }

  /** Which months are long, and which years have a 29 February. */
  lemma MonthLengths(y: int)
    ensures forall m :: m in {1, 3, 5, 7, 8, 10, 12} ==> DaysIn(y, m) == 31
    ensures forall m :: m in {4, 6, 9, 11} ==> DaysIn(y, m) == 30
    ensures DaysIn(y, 2) == if y % 400 == 0 then 29 else if y % 100 == 0 then 28 else if y % 4 == 0 then 29 else 28
  {
    Centuries(y);
    FourCenturies(y);
  }

  /** Dates everybody knows: the Unix epoch, a Saturday and a Monday. */
  lemma KnownDates()
    ensures DayNumber(Date(1970, 1, 1)) == 719162
    ensures DayNumber(Date(2000, 1, 1)) == 730119 && Zeller(Date(2000, 1, 1)) == 6
    ensures DayNumber(Date(2026, 11, 16)) == 739935 && Zeller(Date(2026, 11, 16)) == 1
    ensures LeapYear(2000) && LeapYear(2024) && !LeapYear(1900) && !LeapYear(2026)
  {
    MonthTable(1970, 1);
    MonthTable(2000, 1);
    MonthTable(2026, 11);
  }

  // ---------- minutes ----------

  /** The whole minute of a civil date and time. */
  function MinuteAt(d: Date, hour: int, minute: int): int
    requires 1 <= d.month <= 12
  {
    DayNumber(d) * 1440 + hour * 60 + minute
  }

  predicate ClockTime(hour: int, minute: int) { 0 <= hour < 24 && 0 <= minute < 60 }

  /** The five tables, read by a civil date and time, say exactly what the schedule
      accepts. */
  predicate Accepted(c: Cron, d: Date, hour: int, minute: int)
    requires ValidDate(d) && ClockTime(hour, minute)
  {
    c.minutes[minute] && c.hours[hour] && c.doms[d.day - 1] && c.months[d.month - 1] && c.dows[Zeller(d)]
  }

  lemma FieldsAt(d: Date, hour: int, minute: int)
    requires ValidDate(d) && ClockTime(hour, minute)
    ensures var k := MinuteAt(d, hour, minute);
      DateOf(k) == d && HourOf(k) == hour && MinuteOf(k) == minute && WeekdayOf(k) == Zeller(d)
  {
    hide CivilDate, DayNumber, LeapYear, Zeller;
    CronSearch.MinuteFields(DayNumber(d), hour, minute);
    DateUnique(d);
    WeekdayIsZeller(d);
  }

  lemma MatchesIffAccepted(c: Cron, d: Date, hour: int, minute: int)
    requires ValidDate(d) && ClockTime(hour, minute)
    ensures CronSearch.Matches(c, MinuteAt(d, hour, minute)) <==> Accepted(c, d, hour, minute)
  {
    hide CivilDate, DateOf, HourOf, MinuteOf, WeekdayOf, MinuteAt, Zeller, LeapYear;
    FieldsAt(d, hour, minute);
  }

  /** Every whole minute is the minute of one civil date and time. */
  lemma CivilMinute(k: int) returns (d: Date, hour: int, minute: int)
    ensures ValidDate(d) && ClockTime(hour, minute) && k == MinuteAt(d, hour, minute)
  {
    hide CivilDate, LeapYear, DayNumber;
    d, hour, minute := DateOf(k), HourOf(k), MinuteOf(k);
    CronSearch.HourArithmetic(k);
  }

  /** What Next answers is a civil date and time that all five tables accept, the weekday
      by Zeller's congruence. */
  lemma NextIsAccepted(c: Cron, from: Instant) returns (d: Date, hour: int, minute: int)
    ensures ValidDate(d) && ClockTime(hour, minute)
    ensures var r := CronSearch.NextSpec(c, from);
      r != ZERO_TIME ==> r == MinuteAt(d, hour, minute) * 60 * 1_000_000_000 && Accepted(c, d, hour, minute)
  {
    hide CronSearch.NextSpec, CronSearch.Matches, MinuteAt, Zeller, LeapYear;
    var r := CronSearch.NextSpec(c, from);
    d, hour, minute := CivilMinute(r / NANOS_PER_MINUTE);
    MatchesIffAccepted(c, d, hour, minute);
  }

  /** No civil date and time between the search's start and its answer is accepted; and
      none within 1460 days when the answer is zero. */
  lemma NextSkipsNothing(c: Cron, from: Instant, d: Date, hour: int, minute: int)
    requires ValidDate(d) && ClockTime(hour, minute) && Accepted(c, d, hour, minute)
    ensures var r, t := CronSearch.NextSpec(c, from), MinuteAt(d, hour, minute) * 60 * 1_000_000_000;
      from < t ==> if r != ZERO_TIME then r <= t else from >= ZERO_TIME ==> t >= from + 1460 * 24 * 3600 * 1_000_000_000
  {
    hide CronSearch.NextSpec, CronSearch.Matches, MinuteAt, Zeller, LeapYear;
    CronSearch.NextMeaning(c, from);
    MatchesIffAccepted(c, d, hour, minute);
    WholeMinute(MinuteAt(d, hour, minute));
    assert CronSearch.MatchAt(c, MinuteAt(d, hour, minute) * 60 * 1_000_000_000);
  }

  lemma WholeMinute(k: int)
    ensures k * 60 * 1_000_000_000 % NANOS_PER_MINUTE == 0 && k * 60 * 1_000_000_000 / NANOS_PER_MINUTE == k
  {
    assert k * 60 * 1_000_000_000 == k * NANOS_PER_MINUTE;
  }

  /** A schedule for Mondays alone fires only on Mondays. */
  lemma MondaysOnly(c: Cron, from: Instant) returns (d: Date, hour: int, minute: int)
    requires forall w :: 0 <= w < 7 ==> c.dows[w] == (w == 1)
    ensures ValidDate(d) && ClockTime(hour, minute)
    ensures CronSearch.NextSpec(c, from) != ZERO_TIME ==>
      CronSearch.NextSpec(c, from) == MinuteAt(d, hour, minute) * 60 * 1_000_000_000 && Zeller(d) == 1
  {
    hide CronSearch.NextSpec, MinuteAt, Zeller;
    d, hour, minute := NextIsAccepted(c, from);
  }
}
