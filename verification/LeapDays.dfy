/** What the search answers for a schedule that fires at midnight of every 29 February,
    from every instant. */
module LeapDays {
  import opened Calendar
  import opened CronParser
  import opened CronSearch

  function LeapDay(y: int): int { DayNumber(Date(y, 2, 29)) }

  function LeapMidnight(y: int): Instant { LeapDay(y) * 1440 * NANOS_PER_MINUTE }

  lemma LeapMatch(c: Cron, k: int)
    requires LeapDayMidnight(c)
    ensures Matches(c, k) ==> LeapYear(DateOf(k).year) && k == LeapDay(DateOf(k).year) * 1440
  {
    hide CivilDate, DaysBeforeYear, DaysBeforeMonth, DayNumber, LeapYear, LeapDayMidnight, Matches, HourOf, MinuteOf;
    LeapFields(c, k);
    MidnightMinute(k);
  }

  lemma LeapFields(c: Cron, k: int)
    requires LeapDayMidnight(c)
    ensures Matches(c, k) ==> DateOf(k).month == 2 && DateOf(k).day == 29 && HourOf(k) == 0 && MinuteOf(k) == 0
  {
    hide CivilDate, DayNumber, HourOf, MinuteOf, DayOf, WeekdayOf, DaysIn;
  }

  lemma MidnightMinute(k: int)
    ensures HourOf(k) == 0 && MinuteOf(k) == 0 ==> k == DayOf(k) * 1440
  {
    HourArithmetic(k);
  }

  lemma LeapDayMatches(c: Cron, y: int)
    requires LeapDayMidnight(c) && LeapYear(y)
    ensures MatchAt(c, LeapMidnight(y))
  {
    hide CivilDate, DaysBeforeYear, DaysBeforeMonth, DayNumber;
    DateUnique(Date(y, 2, 29));
    MinuteFields(LeapDay(y), 0, 0);
    MinuteOfInstant(LeapDay(y) * 1440);
  }

  lemma MinuteOfInstant(k: int)
    ensures k * NANOS_PER_MINUTE % NANOS_PER_MINUTE == 0 && k * NANOS_PER_MINUTE / NANOS_PER_MINUTE == k
  {
  }

  /** The matches are exactly the midnights of leap days. */
  lemma MatchIsLeapMidnight(c: Cron, t: Instant) returns (y: int)
    requires LeapDayMidnight(c)
    ensures MatchAt(c, t) ==> LeapYear(y) && t == LeapMidnight(y)
  {
    hide Matches, DayNumber, CivilDate;
    y := DateOf(t / NANOS_PER_MINUTE).year;
    LeapMatch(c, t / NANOS_PER_MINUTE);
  }

  /** y is the year of the first leap-day midnight after `from`. */
  ghost predicate NextLeap(from: Instant, y: int) {
    LeapYear(y) && from < LeapMidnight(y) && forall z :: LeapYear(z) && from < LeapMidnight(z) ==> y <= z
  }

  lemma LaterLeap(y: int, z: int)
    requires LeapYear(y) && LeapYear(z) && y <= z
    ensures LeapMidnight(y) <= LeapMidnight(z)
  {
    hide DayNumber;
    LeapGap(y, z);
  }

  /** From every instant, the answer is the next leap-day midnight, or zero if and only if
      that is 1460 days or more ahead. */
  lemma LeapDayAnswer(c: Cron, from: Instant, y: int)
    requires LeapDayMidnight(c) && from >= ZERO_TIME && NextLeap(from, y)
    ensures NextSpec(c, from) == if LeapMidnight(y) >= from + HORIZON then ZERO_TIME else LeapMidnight(y)
    ensures NextSpec(c, from) == ZERO_TIME <==> LeapMidnight(y) >= from + HORIZON
  {
    hide NextSpec, LeapYear, LeapMidnight, LeapDayMidnight, MatchAt;
    NextMeaning(c, from);
    LeapDayMatches(c, y);
    forall t | from < t && MatchAt(c, t) ensures LeapMidnight(y) <= t {
      var z := MatchIsLeapMidnight(c, t);
      LaterLeap(y, z);
    }
  }

  /** The first leap year not before y. */
  function LeapFrom(y: int): (z: int)
    ensures y <= z <= y + 7 && LeapYear(z) && forall w :: y <= w < z ==> !LeapYear(w)
  {
    var z := FourFrom(y);
    CenturyApart(z);
    FoursApart(z);
    if LeapYear(z) then z else z + 4
  }

  /** The first multiple of four not before y. */
  function FourFrom(y: int): (z: int)
    ensures y <= z <= y + 3 && z % 4 == 0 && forall w :: y <= w < z ==> !LeapYear(w)
  {
    if y % 4 == 0 then y else if y % 4 == 3 then y + 1 else if y % 4 == 2 then y + 2 else y + 3
  }

  lemma CenturyApart(z: int)
    requires z % 4 == 0
    ensures LeapYear(z) || LeapYear(z + 4)
  {
    assert z % 100 == 0 ==> (z + 4) % 100 == 4;
    assert (z + 4) % 4 == 0;
  }

  /** There is always such a year. */
  lemma NextLeapExists(from: Instant) returns (y: int)
    ensures NextLeap(from, y)
  {
    hide LeapYear, LeapFrom, DayNumber, CivilDate;
    var year := DateOf(from / NANOS_PER_MINUTE).year;
    y := LeapFrom(year);
    if LeapMidnight(y) <= from {
      YearBounds(from, y);
      y := LeapFrom(year + 1);
    }
    forall z ensures LeapYear(z) && from < LeapMidnight(z) ==> y <= z {
      YearBounds(from, z);
      if LeapYear(z) && LeapMidnight(LeapFrom(year)) <= from && z <= LeapFrom(year) { LaterLeap(z, LeapFrom(year)); }
    }
    YearBounds(from, y);
  }

  /** A leap-day midnight of an earlier year is past, one of a later year is to come. */
  lemma YearBounds(from: Instant, z: int)
    ensures var year := DateOf(from / NANOS_PER_MINUTE).year;
      && (LeapYear(z) && z < year ==> LeapMidnight(z) <= from)
      && (LeapYear(z) && z > year ==> from < LeapMidnight(z))
  {
    hide CivilDate, DaysBeforeYear, DaysBeforeMonth, LeapYear;
    var k := from / NANOS_PER_MINUTE;
    var year := DateOf(k).year;
    DayInYear(DateOf(k));
    if LeapYear(z) {
      assert ValidDate(Date(z, 2, 29));
      DayInYear(Date(z, 2, 29));
      if z < year { YearsMonotone(z, year); }
      if z > year { YearsMonotone(year, z); }
    }
  }
}
