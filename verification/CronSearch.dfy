/** cronSchedule.Next and nextAfter: a search that skips whole months, days and
    hours, shown to return what a scan of every single minute would. */
module CronSearch {
  import opened Wrappers
  import opened Calendar
  import opened CronParser

  const HORIZON := 1460 * 1440 * NANOS_PER_MINUTE

  predicate MonthMatches(c: Cron, k: int) { c.months[DateOf(k).month - 1] }
  predicate DayMatches(c: Cron, k: int) {
    c.doms[DateOf(k).day - 1] && c.dows[WeekdayOf(k)]
  }
  predicate HourMatches(c: Cron, k: int) { c.hours[HourOf(k)] }

  /** All five fields accept the whole minute k. */
  predicate Matches(c: Cron, k: int) {
    MonthMatches(c, k) && DayMatches(c, k) && HourMatches(c, k) && c.minutes[MinuteOf(k)]
  }

  /** The reference: look at every minute from k on, until the limit. */
  function Scan(c: Cron, k: int, limit: int): (r: Option<int>)
    ensures r.Some? ==> k <= r.value < limit && Matches(c, r.value)
    decreases limit - k
  {
    if k >= limit then None
    else if Matches(c, k) then Some(k)
    else Scan(c, k + 1, limit)
  }

  /** The instant t is a whole minute that the schedule accepts. */
  predicate MatchAt(c: Cron, t: Instant) {
    t % NANOS_PER_MINUTE == 0 && Matches(c, t / NANOS_PER_MINUTE)
  }

  // ---------- the skips pass over no match ----------

  ghost predicate NoMatch(c: Cron, lo: int, hi: int) {
    forall u :: lo <= u < hi ==> !Matches(c, u)
  }

  lemma NextMonthStart(d: Date)
    requires ValidDate(d)
    ensures DateMinute(d.year, d.month + 1, 1, 0)
         == (DaysBeforeYear(d.year) + DaysBeforeMonth(d.year, d.month) + DaysIn(d.year, d.month)) * 1440
  {
    hide DaysBeforeYear, DaysIn;
    YearLength(d.year);
  }

  lemma SameMonth(d: Date, n: int)
    requires ValidDate(d)
    requires 0 <= n - DayNumber(d) + d.day - 1 < DaysIn(d.year, d.month)
    ensures CivilDate(n).month == d.month
  {
    hide CivilDate, DaysBeforeYear, DaysBeforeMonth;
    DateUnique(Date(d.year, d.month, n - DayNumber(d) + d.day));
  }

  /** Until the next month starts, the month stays the same. */
  lemma MonthSkip(c: Cron, k: int)
    ensures var next := DateMinute(DateOf(k).year, DateOf(k).month + 1, 1, 0);
            next > k && (!MonthMatches(c, k) ==> NoMatch(c, k, next))
  {
    hide CivilDate, DateMinute, DaysBeforeYear, DaysBeforeMonth;
    var d := DateOf(k);
    NextMonthStart(d);
    forall u | k <= u < DateMinute(d.year, d.month + 1, 1, 0)
      ensures MonthMatches(c, u) == MonthMatches(c, k)
    {
      SameMonth(d, DayOf(u));
    }
  }

  lemma DateMinuteOfDay(d: Date, days: int, h: int)
    requires ValidDate(d)
    ensures DateMinute(d.year, d.month, d.day + days, h) == (DayNumber(d) + days) * 1440 + h * 60
  {
    hide DaysBeforeYear, DaysBeforeMonth;
    assert (d.month - 1) / 12 == 0 && (d.month - 1) % 12 == d.month - 1;
  }

  lemma DaySkip(c: Cron, k: int)
    ensures var next := DateMinute(DateOf(k).year, DateOf(k).month, DateOf(k).day + 1, 0);
            next > k && (!DayMatches(c, k) ==> NoMatch(c, k, next))
  {
    hide CivilDate, DateMinute, DayNumber, ValidDate;
    DateMinuteOfDay(DateOf(k), 1, 0);
    forall u | k <= u < (DayOf(k) + 1) * 1440 ensures DayMatches(c, u) == DayMatches(c, k) {
      assert DayOf(u) == DayOf(k);
    }
  }

  lemma HourArithmetic(k: int)
    ensures k / 1440 * 24 + k / 60 % 24 == k / 60
  {
  }

  lemma HourSkip(c: Cron, k: int)
    ensures var next := DateMinute(DateOf(k).year, DateOf(k).month, DateOf(k).day, HourOf(k) + 1);
            next > k && (!HourMatches(c, k) ==> NoMatch(c, k, next))
  {
    hide CivilDate, DateMinute, DayNumber, ValidDate;
    DateMinuteOfDay(DateOf(k), 0, HourOf(k) + 1);
    HourArithmetic(k);
    forall u | k <= u < (k / 60 + 1) * 60 ensures HourMatches(c, u) == HourMatches(c, k) {
      assert u / 60 == k / 60;
    }
  }

  /** Jumping over minutes that cannot match does not change what the scan finds. */
  lemma {:induction false} ScanSkips(c: Cron, k: int, u: int, limit: int)
    requires k <= u && NoMatch(c, k, u)
    ensures Scan(c, k, limit) == Scan(c, u, limit)
    decreases u - k
  {
    hide Matches;
    if k < u {
      ScanStep(c, k, limit);
      ScanSkips(c, k + 1, u, limit);
    }
  }

  lemma ScanStep(c: Cron, k: int, limit: int)
    ensures !Matches(c, k) ==> Scan(c, k, limit) == Scan(c, k + 1, limit)
  {
  }

  // ---------- Next ----------

  /** The first whole minute strictly after `from`. */
  function FirstMinute(from: Instant): (k: int)
    ensures (k - 1) * NANOS_PER_MINUTE <= from < k * NANOS_PER_MINUTE
  {
    (from + NANOS_PER_MINUTE) / NANOS_PER_MINUTE
  }

  /** The first whole minute not before `from` plus the horizon. */
  function LimitMinute(from: Instant): (k: int)
    ensures (k - 1) * NANOS_PER_MINUTE < from + HORIZON <= k * NANOS_PER_MINUTE
  {
    (from + HORIZON + NANOS_PER_MINUTE - 1) / NANOS_PER_MINUTE
  }

  function NextSpec(c: Cron, from: Instant): (r: Instant)
    ensures r != ZERO_TIME ==> from < r < from + HORIZON && MatchAt(c, r)
  {
    hide Matches;
    match Scan(c, FirstMinute(from), LimitMinute(from))
    case Some(k) => k * NANOS_PER_MINUTE
    case None => ZERO_TIME
  }

  /** The field-skipping search terminates and agrees with the minute-by-minute
      scan, for every table and every instant. */
  method Next(c: Cron, from: Instant) returns (r: Instant)
    ensures r == NextSpec(c, from)
  {
    hide CivilDate, DateMinute, NoMatch, DaysBeforeYear, DaysBeforeMonth, LeapYear, DayNumber;
    var k := (from + NANOS_PER_MINUTE) / NANOS_PER_MINUTE;
    ghost var limit := LimitMinute(from);
    while k * NANOS_PER_MINUTE < from + HORIZON
      invariant Scan(c, k, limit) == Scan(c, FirstMinute(from), limit)
      decreases limit - k
    {
      var d := DateOf(k);
      ghost var was := k;
      if !c.months[d.month - 1] {
        MonthSkip(c, k);
        k := DateMinute(d.year, d.month + 1, 1, 0);
        ScanSkips(c, was, k, limit);
      } else if !c.doms[d.day - 1] || !c.dows[WeekdayOf(k)] {
        DaySkip(c, k);
        k := DateMinute(d.year, d.month, d.day + 1, 0);
        ScanSkips(c, was, k, limit);
      } else if !c.hours[HourOf(k)] {
        HourSkip(c, k);
        k := DateMinute(d.year, d.month, d.day, HourOf(k) + 1);
        ScanSkips(c, was, k, limit);
      } else if !c.minutes[MinuteOf(k)] {
        k := k + 1;
      } else {
        return k * NANOS_PER_MINUTE;
      }
    }
    return ZERO_TIME;
  }

  // ---------- what the search means ----------

  /** No instant strictly between lo and hi matches. */
  ghost predicate NoMatchBetween(c: Cron, lo: Instant, hi: Instant) {
    forall t :: lo < t < hi ==> !MatchAt(c, t)
  }

  lemma {:induction false} ScanMeaning(c: Cron, k: int, limit: int)
    ensures match Scan(c, k, limit)
            case Some(r) => NoMatch(c, k, r)
            case None => NoMatch(c, k, limit)
    decreases limit - k
  {
    hide Matches;
    if k < limit && !Matches(c, k) {
      ScanMeaning(c, k + 1, limit);
    }
  }

  /** Next finds the least whole matching minute strictly after `from` and before
      1460 days have passed; it answers the zero time when there is none, and, from
      the zero time on, only then. */
  lemma NextMeaning(c: Cron, from: Instant)
    ensures var r := NextSpec(c, from);
      if r != ZERO_TIME then from < r < from + HORIZON && MatchAt(c, r) && NoMatchBetween(c, from, r)
      else from >= ZERO_TIME ==> NoMatchBetween(c, from, from + HORIZON)
    ensures from >= ZERO_TIME ==>
      (NextSpec(c, from) == ZERO_TIME <==> NoMatchBetween(c, from, from + HORIZON))
  {
    hide Matches;
    var first, limit := FirstMinute(from), LimitMinute(from);
    ScanMeaning(c, first, limit);
    forall t | from < t && MatchAt(c, t)
      ensures first <= t / NANOS_PER_MINUTE
      ensures t < from + HORIZON ==> t / NANOS_PER_MINUTE < limit
    {
    }
  }

  // ---------- nextAfter ----------

  function NextAfterSpec(c: Cron, from: Instant, now: Instant): (r: (Instant, nat))
    decreases if from <= now then now - from + 1 else 0
  {
    var next := NextSpec(c, from);
    if next == ZERO_TIME || next > now then (next, 0)
    else
      var (r, n) := NextAfterSpec(c, next, now);
      (r, n + 1)
  }

  method NextAfter(c: Cron, from: Instant, now: Instant) returns (next: Instant, skipped: nat)
    ensures (next, skipped) == NextAfterSpec(c, from, now)
  {
    hide NextSpec, MatchAt;
    skipped := 0;
    next := Next(c, from);
    ghost var last := from;
    while next != ZERO_TIME && next <= now
      invariant next == NextSpec(c, last)
      invariant NextAfterSpec(c, from, now).0 == NextAfterSpec(c, last, now).0
      invariant NextAfterSpec(c, from, now).1 == NextAfterSpec(c, last, now).1 + skipped
      decreases if last <= now then now - last + 1 else 0
    {
      last := next;
      next := Next(c, next);
      skipped := skipped + 1;
    }
  }

  /** How many of the whole minutes lo, ..., hi - 1 match. */
  function CountMinutes(c: Cron, lo: int, hi: int): nat
    decreases hi - lo
  {
    if lo >= hi then 0 else (if Matches(c, lo) then 1 else 0) + CountMinutes(c, lo + 1, hi)
  }

  /** How many instants in (from, now] match. */
  function CountMatches(c: Cron, from: Instant, now: Instant): nat {
    CountMinutes(c, FirstMinute(from), FirstMinute(now))
  }

  lemma {:induction false} CountSkips(c: Cron, lo: int, mid: int, hi: int)
    requires lo <= mid <= hi && NoMatch(c, lo, mid)
    ensures CountMinutes(c, lo, hi) == CountMinutes(c, mid, hi)
    decreases mid - lo
  {
    hide Matches;
    if lo < mid { CountSkips(c, lo + 1, mid, hi); }
  }

  /** The least match found by Next opens the count of those still to come. */
  lemma CountFromNext(c: Cron, from: Instant, now: Instant)
    ensures var next := NextSpec(c, from);
      next != ZERO_TIME && next <= now ==> CountMatches(c, from, now) == 1 + CountMatches(c, next, now)
    ensures var next := NextSpec(c, from);
      next != ZERO_TIME && next > now ==> CountMatches(c, from, now) == 0
  {
    hide Matches;
    var k := Scan(c, FirstMinute(from), LimitMinute(from));
    ScanMeaning(c, FirstMinute(from), LimitMinute(from));
    if k.Some? && NextSpec(c, from) != ZERO_TIME {
      if NextSpec(c, from) <= now {
        CountSkips(c, FirstMinute(from), k.value, FirstMinute(now));
        assert FirstMinute(NextSpec(c, from)) == k.value + 1;
      } else if FirstMinute(from) < FirstMinute(now) {
        CountSkips(c, FirstMinute(from), FirstMinute(now), FirstMinute(now));
      }
    }
  }

  /** Missed runs are skipped, not replayed: a non-zero answer is the least match
      after both `from` and `now`, and `skipped` counts the matches in (from, now]. */
  lemma {:induction false} NextAfterMeaning(c: Cron, from: Instant, now: Instant)
    ensures var (r, n) := NextAfterSpec(c, from, now);
      r != ZERO_TIME ==>
        && MatchAt(c, r)
        && r > from && r > now
        && NoMatchBetween(c, if from < now then now else from, r)
        && n == CountMatches(c, from, now)
    decreases if from <= now then now - from + 1 else 0
  {
    hide MatchAt, CountMatches, NextSpec;
    NextMeaning(c, from);
    CountFromNext(c, from, now);
    var next := NextSpec(c, from);
    if next != ZERO_TIME && next <= now {
      NextAfterMeaning(c, next, now);
    }
  }

  // ---------- satisfiability ----------

  /** In every month some day among the first seven falls on weekday w. */
  lemma WeekdayInWeek(first: int, w: int) returns (n: int)
    requires 0 <= w < 7
    ensures first <= n < first + 7 && (n + 1) % 7 == w
  {
    n := first + (w - first - 1) % 7;
  }

  /** Day n of a month is dated by counting from its first. */
  lemma DateInMonth(y: int, m: int, n: int)
    requires 1 <= m <= 12
    requires DaysBeforeYear(y) + DaysBeforeMonth(y, m) <= n < DaysBeforeYear(y) + DaysBeforeMonth(y, m) + 28
    ensures CivilDate(n).month == m
    ensures DaysBeforeYear(y) <= n < DaysBeforeYear(y + 1)
  {
    hide CivilDate, DaysBeforeYear, DaysBeforeMonth;
    var d := Date(y, m, n - DaysBeforeYear(y) - DaysBeforeMonth(y, m) + 1);
    DateUnique(d);
    DayInYear(d);
  }

  lemma MinuteFields(n: int, h: int, m: int)
    requires 0 <= h < 24 && 0 <= m < 60
    ensures var k := n * 1440 + h * 60 + m; DayOf(k) == n && HourOf(k) == h && MinuteOf(k) == m
  {
    var k := n * 1440 + h * 60 + m;
    assert k / 60 == n * 24 + h;
    assert (n * 24 + h) / 24 == n;
    HourArithmetic(k);
  }

  /** The whole of next year lies strictly after k's day and within 732 days of it. */
  lemma NextYearAhead(k: int, n: int)
    ensures var y := DateOf(k).year + 1;
      DaysBeforeYear(y) <= n < DaysBeforeYear(y + 1) ==> DayOf(k) < n <= DayOf(k) + 732
  {
    hide CivilDate, DaysBeforeYear, DaysBeforeMonth;
    var y := DateOf(k).year;
    DayInYear(DateOf(k));
    YearLength(y);
    YearLength(y + 1);
    MonthsTotal(y);
    MonthsTotal(y + 1);
  }

  /** Whatever the other fields say, a schedule open on every day of the month has
      a match within the horizon of any instant. */
  lemma FullDaysOccur(c: Cron, from: Instant)
    requires forall i :: 0 <= i < 31 ==> c.doms[i]
    requires NonEmpty(c.minutes) && NonEmpty(c.hours) && NonEmpty(c.months) && NonEmpty(c.dows)
    ensures exists k :: FirstMinute(from) <= k < LimitMinute(from) && Matches(c, k)
  {
    hide CivilDate, DaysBeforeYear, DaysBeforeMonth, DayNumber;
    var mi :| 0 <= mi < 60 && c.minutes[mi];
    var h :| 0 <= h < 24 && c.hours[h];
    var m :| 0 <= m < 12 && c.months[m];
    var w :| 0 <= w < 7 && c.dows[w];
    var start := FirstMinute(from);
    var y := DateOf(start).year + 1;
    var first := DaysBeforeYear(y) + DaysBeforeMonth(y, m + 1);
    var n := WeekdayInWeek(first, w);
    DateInMonth(y, m + 1, n);
    NextYearAhead(start, n);
    MinuteFields(n, h, mi);
    var k := n * 1440 + h * 60 + mi;
    assert Matches(c, k);
    assert start <= k < LimitMinute(from);
  }

  /** An accepted expression whose day-of-month field is full always has a next run. */
  lemma NeverZero(expr: string, c: Cron, from: Instant)
    requires ExprOk(expr) && Means(c, expr)
    requires forall i :: 0 <= i < 31 ==> c.doms[i]
    requires from >= ZERO_TIME
    ensures NextSpec(c, from) != ZERO_TIME
  {
    hide Matches, Means, ExprOk;
    AcceptedTablesNonEmpty(c, expr);
    FullDaysOccur(c, from);
    var k :| FirstMinute(from) <= k < LimitMinute(from) && Matches(c, k);
    ScanMeaning(c, FirstMinute(from), LimitMinute(from));
  }

  // ---------- the horizon is 1460 days, not four calendar years ----------

  /** Midnight on the 29th of February only. */
  ghost predicate LeapDayMidnight(c: Cron) {
    && (forall i :: 0 <= i < 12 ==> c.months[i] == (i == 1))
    && (forall i :: 0 <= i < 31 ==> c.doms[i] == (i == 28))
    && (forall i :: 0 <= i < 7 ==> c.dows[i])
    && (forall i :: 0 <= i < 24 ==> c.hours[i] == (i == 0))
    && (forall i :: 0 <= i < 60 ==> c.minutes[i] == (i == 0))
  }

  lemma LeapGap(y: int, z: int)
    ensures LeapYear(y) && LeapYear(z) && y < z ==>
      && DayNumber(Date(z, 2, 29)) >= DayNumber(Date(y, 2, 29)) + 1461
      && (z == y + 4 ==> DayNumber(Date(z, 2, 29)) == DayNumber(Date(y, 2, 29)) + 1461)
  {
    hide DaysBeforeYear, LeapYear;
    if LeapYear(y) && LeapYear(z) && y < z {
      LeapsApart(y, z);
      FourYears(y);
      if y + 4 < z { YearsMonotone(y + 4, z); YearLength(y + 4); }
      assert DaysBeforeMonth(y, 2) == DaysBeforeMonth(z, 2) == 31;
    }
  }

  lemma FoursApart(z: int)
    requires z % 4 == 0
    ensures !LeapYear(z + 1) && !LeapYear(z + 2) && !LeapYear(z + 3)
  {
  }

  lemma LeapsApart(y: int, z: int)
    ensures LeapYear(y) && LeapYear(z) && y < z ==> y + 4 <= z
  {
    if LeapYear(y) { FoursApart(y); }
  }

  lemma FourYears(y: int)
    requires LeapYear(y)
    ensures DaysBeforeYear(y + 4) == DaysBeforeYear(y) + 1461
  {
    FoursApart(y);
    hide DaysBeforeYear, LeapYear, DaysBeforeMonth;
    YearLength(y); YearLength(y + 1); YearLength(y + 2); YearLength(y + 3);
    MonthsTotal(y); MonthsTotal(y + 1); MonthsTotal(y + 2); MonthsTotal(y + 3);
  }

  /** Searched from one leap day, the next one is already out of reach. */
  lemma LeapDayMissed(c: Cron, y: int)
    requires LeapDayMidnight(c) && LeapYear(y)
    ensures var from := DayNumber(Date(y, 2, 29)) * 1440 * NANOS_PER_MINUTE;
            NextSpec(c, from) == ZERO_TIME
    ensures LeapYear(y + 4) ==> Matches(c, (DayNumber(Date(y, 2, 29)) + 1461) * 1440)
  {
    hide CivilDate, DaysBeforeYear, DaysBeforeMonth, DayNumber;
    var day := DayNumber(Date(y, 2, 29));
    var from := day * 1440 * NANOS_PER_MINUTE;
    assert FirstMinute(from) == day * 1440 + 1 && LimitMinute(from) == (day + 1460) * 1440;
    forall k | FirstMinute(from) <= k < LimitMinute(from) ensures !Matches(c, k) {
      LeapMatchDay(c, y, k);
    }
    ScanMeaning(c, FirstMinute(from), LimitMinute(from));
    if LeapYear(y + 4) {
      LeapGap(y, y + 4);
      DateUnique(Date(y + 4, 2, 29));
      MinuteFields(day + 1461, 0, 0);
    }
  }

  /** A match of the leap-day schedule is midnight of a leap day, hence not within
      1460 days after another. */
  lemma LeapMatchDay(c: Cron, y: int, k: int)
    requires LeapDayMidnight(c) && LeapYear(y)
    ensures var day := DayNumber(Date(y, 2, 29));
            day * 1440 < k < (day + 1460) * 1440 ==> !Matches(c, k)
  {
    hide CivilDate, DaysBeforeYear, DaysBeforeMonth, DayNumber;
    var z := DateOf(k).year;
    if Matches(c, k) {
      assert DateOf(k) == Date(z, 2, 29) && LeapYear(z);
      assert k == DayOf(k) * 1440;
      if y < z { LeapGap(y, z); }
      if z < y { LeapGap(z, y); }
    }
  }
}
