/** Cron expressions as they are written: what each form of a field means, and what the
    search answers for a text. */
module CronText {
  import opened Wrappers
  import opened Text
  import opened Calendar
  import opened CronParser
  import opened CalendarLaws
  import CronSearch

  // ---------- the forms of a field ----------

  lemma OnePart(s: string)
    requires ',' !in s
    ensures Split(s, ',') == [s]
  {
  }

  lemma NatText(n: nat)
    ensures FormatInt(n) == FormatNat(n) && ',' !in FormatNat(n) && '-' !in FormatNat(n) && '*' !in FormatNat(n)
    ensures NoSpace(FormatNat(n))
  {
    forall c | c in FormatNat(n) ensures IsDigit(c) {}
  }

  lemma NatParses(n: nat)
    requires n <= INT64_MAX
    ensures ParseInt(FormatNat(n)) == Some(n)
  {
    NatText(n);
    ParseOfFormat(n);
  }

  /** A field of one part means what the part means. */
  lemma OnePartField(s: string, min: int, max: int)
    requires ',' !in s && NoSpace(s)
    ensures FieldOk(s, min, max) <==> PartOk(s, min, max)
    ensures FieldOk(s, min, max) ==> forall v :: InField(s, min, max, v) <==> Denotes(s, min, max, v)
  {
    hide PartOk, Denotes;
    OnePart(s);
    assert s in [s];
  }

  lemma StarField(min: int, max: int, v: int)
    ensures FieldOk("*", min, max) && InField("*", min, max, v)
  {
    OnePartField("*", min, max);
  }

  /** A number is accepted iff it is in range, and denotes itself. */
  lemma NumberField(n: nat, min: int, max: int)
    requires n <= INT64_MAX
    ensures FieldOk(FormatNat(n), min, max) <==> min <= n <= max
    ensures FieldOk(FormatNat(n), min, max) ==> forall v :: InField(FormatNat(n), min, max, v) <==> v == n
  {
    var s := FormatNat(n);
    NatText(n);
    NatParses(n);
    assert s[0] in s;
    hide FormatNat, ParseInt;
    OnePartField(s, min, max);
  }

  /** A range is accepted iff its ends are in range and in order, and denotes what lies
      between them. */
  lemma RangeField(lo: nat, hi: nat, min: int, max: int)
    requires lo <= INT64_MAX && hi <= INT64_MAX
    ensures var s := FormatNat(lo) + "-" + FormatNat(hi);
      && (FieldOk(s, min, max) <==> min <= lo <= hi <= max)
      && (FieldOk(s, min, max) ==> forall v :: InField(s, min, max, v) <==> lo <= v <= hi)
  {
    var s := FormatNat(lo) + "-" + FormatNat(hi);
    NatText(lo);
    NatText(hi);
    NatParses(lo);
    NatParses(hi);
    CutOfPair(FormatNat(lo), '-', FormatNat(hi));
    assert FormatNat(lo)[0] in FormatNat(lo) && s[0] == FormatNat(lo)[0];
    assert s[|FormatNat(lo)|] == '-';
    hide FormatNat, ParseInt, Cut;
    OnePartField(s, min, max);
  }

  /** A step is accepted iff positive, and denotes the least value of the field and every
      n-th after it. */
  lemma StepField(n: nat, min: int, max: int)
    requires n <= INT64_MAX
    ensures var s := "*/" + FormatNat(n);
      && (FieldOk(s, min, max) <==> n > 0)
      && (FieldOk(s, min, max) ==> forall v :: InField(s, min, max, v) <==> OnEveryStep(min, n, v))
  {
    var s := "*/" + FormatNat(n);
    NatText(n);
    NatParses(n);
    assert s[2..] == FormatNat(n);
    hide FormatNat, ParseInt;
    OnePartField(s, min, max);
    if n > 0 {
      hide OnEveryStep;
      forall v ensures Denotes(s, min, max, v) <==> OnEveryStep(min, n, v) { Multiple(min, n, v); }
    }
  }

  /** The value is reached from the least by whole steps of n. */
  ghost predicate OnEveryStep(min: int, n: nat, v: int) { exists k: int :: StepAt(min, k, n, v) }

  lemma Multiple(min: int, n: nat, v: int)
    requires n > 0
    ensures (v - min) % n == 0 <==> OnEveryStep(min, n, v)
  {
    if (v - min) % n == 0 { assert StepAt(min, (v - min) / n, n, v); }
    if k: int :| StepAt(min, k, n, v) { RemainderUnique(v - min, k, 0, n); }
  }

  predicate StepAt(min: int, k: int, n: nat, v: int) { v == min + k * n }

  lemma {:induction false} SplitConcat(a: string, b: string)
    ensures Split(a + "," + b, ',') == Split(a, ',') + Split(b, ',')
    decreases |a|
  {
    if ',' in a {
      var (x, y) := Cut(a, ',').value;
      assert a + "," + b == x + [','] + (y + "," + b);
      CutOfPair(x, ',', y + "," + b);
      SplitConcat(y, b);
    } else {
      CutOfPair(a, ',', b);
      assert a + "," + b == a + [','] + b;
    }
  }

  /** A comma unites: the whole is accepted iff both sides are, and denotes what either does. */
  lemma ListField(a: string, b: string, min: int, max: int)
    ensures FieldOk(a + "," + b, min, max) <==> FieldOk(a, min, max) && FieldOk(b, min, max)
    ensures FieldOk(a + "," + b, min, max) ==>
      forall v :: InField(a + "," + b, min, max, v) <==> InField(a, min, max, v) || InField(b, min, max, v)
  {
    hide PartOk, Denotes, Split, TrimSpace;
    SplitConcat(a, b);
    var l, r := Split(a, ','), Split(b, ',');
    forall p ensures p in l + r <==> p in l || p in r {}
  }

  // ---------- five fields ----------

  predicate Word(s: string) { s != "" && NoSpace(s) }

  lemma WordFirst(a: string, rest: string)
    requires Word(a)
    ensures Fields(a + " " + rest) == [a] + Fields(rest)
  {
    var s := a + " " + rest;
    assert s[0] == a[0] && a[0] in a;
    var n := SpanLength(s);
    assert s[|a|] == ' ';
    forall i | 0 <= i < |a| ensures !IsSpace(s[i]) { assert a[i] in a; }
    forall i | 0 <= i < n ensures !IsSpace(s[i]) { assert s[..n][i] in s[..n]; }
    assert s[..n] == a && s[n..] == " " + rest;
    assert (" " + rest)[1..] == rest;
    assert Fields(" " + rest) == Fields(rest);
  }

  lemma WordAlone(a: string)
    requires Word(a)
    ensures Fields(a) == [a]
  {
    assert a[0] in a;
    var n := SpanLength(a);
    forall i | 0 <= i < |a| ensures !IsSpace(a[i]) { assert a[i] in a; }
    assert a[..n] == a && a[n..] == "";
  }

  function Expression(minute: string, hour: string, dom: string, month: string, dow: string): string {
    minute + " " + (hour + " " + (dom + " " + (month + " " + dow)))
  }

  predicate Words(minute: string, hour: string, dom: string, month: string, dow: string) {
    Word(minute) && Word(hour) && Word(dom) && Word(month) && Word(dow)
  }

  lemma FieldsOfExpression(minute: string, hour: string, dom: string, month: string, dow: string)
    requires Words(minute, hour, dom, month, dow)
    ensures Fields(Expression(minute, hour, dom, month, dow)) == [minute, hour, dom, month, dow]
  {
    hide Fields, Word;
    WordFirst(minute, hour + " " + (dom + " " + (month + " " + dow)));
    WordFirst(hour, dom + " " + (month + " " + dow));
    WordFirst(dom, month + " " + dow);
    WordFirst(month, dow);
    WordAlone(dow);
  }

  /** The fields in the order they are written: minute, hour, day of the month, month,
      weekday, each within its own range. */
  predicate FiveOk(minute: string, hour: string, dom: string, month: string, dow: string) {
    FieldOk(minute, 0, 59) && FieldOk(hour, 0, 23) && FieldOk(dom, 1, 31) && FieldOk(month, 1, 12) && FieldOk(dow, 0, 6)
  }

  predicate Meets(minute: string, hour: string, dom: string, month: string, dow: string, d: Date, h: int, m: int)
    requires FiveOk(minute, hour, dom, month, dow)
  {
    && InField(minute, 0, 59, m) && InField(hour, 0, 23, h)
    && InField(dom, 1, 31, d.day) && InField(month, 1, 12, d.month) && InField(dow, 0, 6, Zeller(d))
  }

  lemma AcceptedIffMeets(c: Cron, minute: string, hour: string, dom: string, month: string, dow: string, d: Date, h: int, m: int)
    requires Words(minute, hour, dom, month, dow) && ValidDate(d) && ClockTime(h, m)
    requires var expr := Expression(minute, hour, dom, month, dow); ExprOk(expr) && Means(c, expr)
    ensures FiveOk(minute, hour, dom, month, dow)
    ensures Accepted(c, d, h, m) <==> Meets(minute, hour, dom, month, dow, d, h, m)
  {
    hide Fields, FieldOk, InField, Zeller, Expression, LeapYear, Words;
    FieldsOfExpression(minute, hour, dom, month, dow);
    assert DaysIn(d.year, d.month) <= 31;
    TableAt(c.minutes, minute, 0, 59, m);
    TableAt(c.hours, hour, 0, 23, h);
    TableAt(c.doms, dom, 1, 31, d.day);
    TableAt(c.months, month, 1, 12, d.month);
    TableAt(c.dows, dow, 0, 6, Zeller(d));
  }

  lemma TableAt(table: seq<bool>, field: string, min: int, max: int, v: int)
    requires FieldOk(field, min, max) && TableOf(table, field, min, max) && min <= v <= max
    ensures table[v - min] <==> InField(field, min, max, v)
  {
  }

  /** From text to answer: what Next returns for an accepted expression is a civil date
      and time that each written field denotes. */
  lemma NextOfText(c: Cron, minute: string, hour: string, dom: string, month: string, dow: string, from: Instant)
      returns (d: Date, h: int, m: int)
    requires Words(minute, hour, dom, month, dow)
    requires var expr := Expression(minute, hour, dom, month, dow); ExprOk(expr) && Means(c, expr)
    ensures FiveOk(minute, hour, dom, month, dow) && ValidDate(d) && ClockTime(h, m)
    ensures CronSearch.NextSpec(c, from) != ZERO_TIME ==>
      && CronSearch.NextSpec(c, from) == MinuteAt(d, h, m) * 60 * 1_000_000_000
      && Meets(minute, hour, dom, month, dow, d, h, m)
  {
    hide CronSearch.NextSpec, ExprOk, Means, Meets, Accepted, MinuteAt, FiveOk, Words, Expression;
    d, h, m := NextIsAccepted(c, from);
    AcceptedIffMeets(c, minute, hour, dom, month, dow, d, h, m);
  }

  /** And it passes over none: every later date and time that the fields denote is not
      before the answer, or is 1460 days or more ahead when there is no answer. */
  lemma NextOfTextIsLeast(c: Cron, minute: string, hour: string, dom: string, month: string, dow: string, from: Instant,
                          d: Date, h: int, m: int)
    requires Words(minute, hour, dom, month, dow) && ValidDate(d) && ClockTime(h, m)
    requires var expr := Expression(minute, hour, dom, month, dow); ExprOk(expr) && Means(c, expr)
    ensures FiveOk(minute, hour, dom, month, dow)
    ensures var r, t := CronSearch.NextSpec(c, from), MinuteAt(d, h, m) * 60 * 1_000_000_000;
      Meets(minute, hour, dom, month, dow, d, h, m) && from < t ==>
        if r != ZERO_TIME then r <= t else from >= ZERO_TIME ==> t >= from + 1460 * 24 * 3600 * 1_000_000_000
  {
    hide CronSearch.NextSpec, ExprOk, Means, Meets, Accepted, MinuteAt, FiveOk, Words, Expression;
    AcceptedIffMeets(c, minute, hour, dom, month, dow, d, h, m);
    if Meets(minute, hour, dom, month, dow, d, h, m) { NextSkipsNothing(c, from, d, h, m); }
  }

  /** "0 9 * * 1" searched from the midnight that begins Monday 16 November 2026 answers
      nine o'clock of that day. */
  lemma MondayAtNine(c: Cron)
    requires ExprOk(Expression("0", "9", "*", "*", "1")) && Means(c, Expression("0", "9", "*", "*", "1"))
    ensures var monday := Date(2026, 11, 16);
      CronSearch.NextSpec(c, MinuteAt(monday, 0, 0) * 60 * 1_000_000_000) == MinuteAt(monday, 9, 0) * 60 * 1_000_000_000
  {
    var monday := Date(2026, 11, 16);
    KnownDates();
    hide CronSearch.NextSpec, ExprOk, Means, Expression, Zeller, LeapYear, InField, FieldOk, DaysBeforeYear, DaysBeforeMonth;
    var from := MinuteAt(monday, 0, 0) * 60 * 1_000_000_000;
    MondayFields(monday, 9, 0);
    NextOfTextIsLeast(c, "0", "9", "*", "*", "1", from, monday, 9, 0);
    var d, h, m := NextOfText(c, "0", "9", "*", "*", "1", from);
    MondayFields(d, h, m);
    CronSearch.NextMeaning(c, from);
    assert DayNumber(d) == DayNumber(monday);
  }

  lemma MondayFields(d: Date, h: int, m: int)
    ensures FiveOk("0", "9", "*", "*", "1")
    ensures Meets("0", "9", "*", "*", "1", d, h, m) <==> m == 0 && h == 9 && Zeller(d) == 1
  {
    assert FormatNat(0) == "0" && FormatNat(9) == "9" && FormatNat(1) == "1";
    hide FieldOk, InField, Zeller, FormatNat;
    NumberField(0, 0, 59);
    NumberField(9, 0, 23);
    NumberField(1, 0, 6);
    StarField(1, 31, d.day);
    StarField(1, 12, d.month);
  }
}
