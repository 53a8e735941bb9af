/** The cron expression parser of internal/scheduler: five fields, each a comma
    list of `*`, steps, ranges and numbers, turned into membership tables. */
module CronParser {
  import opened Wrappers
  import opened Text

  /** The five membership tables; index 0 is the least value of the field. */
  datatype CronTables = Cron(
    minutes: seq<bool>, hours: seq<bool>, doms: seq<bool>, months: seq<bool>, dows: seq<bool>)
  {
    predicate Sized() {
      |minutes| == 60 && |hours| == 24 && |doms| == 31 && |months| == 12 && |dows| == 7
    }
  }

  function Never(n: nat): seq<bool> { seq(n, _ => false) }

  type Cron = c: CronTables | c.Sized()
    witness Cron(Never(60), Never(24), Never(31), Never(12), Never(7))

  // ---------- what a field means ----------

  /** Whether one comma part is accepted for a field ranging over [min, max]. */
  predicate PartOk(part: string, min: int, max: int) {
    if part == "*" then true
    else if "*/" <= part then
      var n := ParseInt(part[2..]);
      n.Some? && n.value > 0
    else if '-' in part then
      var (a, b) := Cut(part, '-').value;
      var lo, hi := ParseInt(a), ParseInt(b);
      lo.Some? && hi.Some? && min <= lo.value && hi.value <= max && lo.value <= hi.value
    else
      var n := ParseInt(part);
      n.Some? && min <= n.value <= max
  }

  /** Whether an accepted part denotes the value v. */
  predicate Denotes(part: string, min: int, max: int, v: int)
    requires PartOk(part, min, max)
  {
    if part == "*" then true
    else if "*/" <= part then (v - min) % ParseInt(part[2..]).value == 0
    else if '-' in part then
      var (a, b) := Cut(part, '-').value;
      ParseInt(a).value <= v <= ParseInt(b).value
    else v == ParseInt(part).value
  }

  predicate PartsOk(parts: seq<string>, min: int, max: int) {
    forall p :: p in parts ==> PartOk(TrimSpace(p), min, max)
  }

  predicate SomeDenotes(parts: seq<string>, min: int, max: int, v: int)
    requires PartsOk(parts, min, max)
  {
    exists p :: p in parts && Denotes(TrimSpace(p), min, max, v)
  }

  predicate FieldOk(expr: string, min: int, max: int) {
    PartsOk(Split(expr, ','), min, max)
  }

  predicate InField(expr: string, min: int, max: int, v: int)
    requires FieldOk(expr, min, max)
  {
    SomeDenotes(Split(expr, ','), min, max, v)
  }

  // ---------- the parser ----------

  lemma MultiplesStep(i: int, n: int, j: int)
    requires n > 0 && i % n == 0 && i < j <= i + n
    ensures j % n == 0 <==> j == i + n
  {
    var q := i / n;
    assert i == q * n;
    if j == i + n {
      RemainderUnique(j, q + 1, 0, n);
    } else {
      RemainderUnique(j, q, j - i, n);
    }
  }

  lemma RemainderUnique(a: int, q: int, r: int, n: int)
    requires 0 <= r < n && a == q * n + r
    ensures a % n == r
  {
    var k := q - a / n;
    assert k * n == a % n - r;
    assert k >= 1 ==> k * n >= n;
    assert k <= -1 ==> k * n <= -n;
  }

  /** The table has the bit of value v set. */
  predicate Bit(table: seq<bool>, min: int, v: int) { 0 <= v - min < |table| && table[v - min] }

  /** One case of the switch inside the parsing loop: fills `result` in place. */
  method MarkPart(result: array<bool>, part: string, min: int, max: int) returns (ok: bool)
    requires min <= max && result.Length == max - min + 1
    modifies result
    ensures ok <==> PartOk(part, min, max)
    ensures ok ==> forall v :: min <= v <= max ==>
      (Bit(result[..], min, v) <==> old(Bit(result[..], min, v)) || Denotes(part, min, max, v))
  {
    if part == "*" {
      for i := 0 to result.Length
        invariant forall j :: 0 <= j < i ==> result[j]
      {
        result[i] := true;
      }
      return true;
    } else if "*/" <= part {
      var n := ParseInt(part[2..]);
      if n.None? || n.value <= 0 { return false; }
      var i := 0;
      while i <= max - min
        invariant 0 <= i && i % n.value == 0
        invariant forall j :: 0 <= j < result.Length ==>
          (result[j] <==> old(result[j]) || (j < i && j % n.value == 0))
      {
        result[i] := true;
        forall j | i < j <= i + n.value
          ensures j % n.value == 0 <==> j == i + n.value
        {
          MultiplesStep(i, n.value, j);
        }
        assert (i + n.value) % n.value == 0;
        i := i + n.value;
      }
      return true;
    } else if '-' in part {
      var (a, b) := Cut(part, '-').value;
      var lo, hi := ParseInt(a), ParseInt(b);
      if lo.None? || hi.None? || lo.value < min || hi.value > max || lo.value > hi.value {
        return false;
      }
      for i := lo.value to hi.value + 1
        invariant forall j :: 0 <= j < result.Length ==>
          (result[j] <==> old(result[j]) || lo.value <= j + min < i)
      {
        result[i - min] := true;
      }
      return true;
    } else {
      var n := ParseInt(part);
      if n.None? || n.value < min || n.value > max { return false; }
      result[n.value - min] := true;
      return true;
    }
  }

  /** A field is accepted exactly when all its parts are, and then a bit is set
      exactly when some part denotes the value. */
  method ParseField(expr: string, min: int, max: int) returns (r: Option<seq<bool>>)
    requires min <= max
    ensures r.Some? <==> FieldOk(expr, min, max)
    ensures r.Some? ==> TableOf(r.value, expr, min, max)
  {
    var result := new bool[max - min + 1](_ => false);
    var parts := Split(expr, ',');
    assert parts[..0] == [];
    for i := 0 to |parts|
      invariant Marked(result[..], parts[..i], min, max)
    {
      ghost var was := result[..];
      var ok := MarkPart(result, TrimSpace(parts[i]), min, max);
      assert parts[i] in parts;
      if !ok { return None; }
      MarkedSnoc(was, result[..], parts[..i], parts[i], min, max);
      assert parts[..i + 1] == parts[..i] + [parts[i]];
    }
    assert parts[..|parts|] == parts;
    MarkedIsTable(result[..], expr, min, max);
    return Some(result[..]);
  }

  /** The table holds exactly the values that the accepted parts denote. */
  ghost predicate Marked(table: seq<bool>, parts: seq<string>, min: int, max: int) {
    && PartsOk(parts, min, max) && |table| == max - min + 1
    && forall v :: min <= v <= max ==> (Bit(table, min, v) <==> SomeDenotes(parts, min, max, v))
  }

  lemma MarkedIsTable(table: seq<bool>, expr: string, min: int, max: int)
    requires Marked(table, Split(expr, ','), min, max)
    ensures FieldOk(expr, min, max) && TableOf(table, expr, min, max)
  {
    hide PartOk, Denotes;
    forall v | min <= v <= max ensures table[v - min] <==> InField(expr, min, max, v) {
      assert Bit(table, min, v) <==> SomeDenotes(Split(expr, ','), min, max, v);
    }
  }

  lemma MarkedSnoc(was: seq<bool>, now: seq<bool>, parts: seq<string>, p: string, min: int, max: int)
    requires Marked(was, parts, min, max) && PartOk(TrimSpace(p), min, max) && |now| == |was|
    requires forall v :: min <= v <= max ==> (Bit(now, min, v) <==> Bit(was, min, v) || Denotes(TrimSpace(p), min, max, v))
    ensures Marked(now, parts + [p], min, max)
  {
    hide PartOk, Denotes, TrimSpace, SomeDenotes, Bit;
    SomeDenotesSnoc(parts, p, min, max, min);
    forall v | min <= v <= max ensures Bit(now, min, v) <==> SomeDenotes(parts + [p], min, max, v) {
      SomeDenotesSnoc(parts, p, min, max, v);
    }
  }

  lemma SomeDenotesSnoc(parts: seq<string>, p: string, min: int, max: int, v: int)
    requires PartsOk(parts, min, max) && PartOk(TrimSpace(p), min, max)
    ensures PartsOk(parts + [p], min, max)
    ensures SomeDenotes(parts + [p], min, max, v) <==>
            SomeDenotes(parts, min, max, v) || Denotes(TrimSpace(p), min, max, v)
  {
    assert p in parts + [p];
    forall q | q in parts ensures q in parts + [p] {}
  }

  /** Every accepted field denotes some value of its range. */
  lemma FieldNonEmpty(expr: string, min: int, max: int)
    requires min <= max && FieldOk(expr, min, max)
    ensures exists v :: min <= v <= max && InField(expr, min, max, v)
  {
    var p := Split(expr, ',')[0];
    assert p in Split(expr, ',');
    var part := TrimSpace(p);
    var v :=
      if part == "*" || "*/" <= part then min
      else if '-' in part then ParseInt(Cut(part, '-').value.0).value
      else ParseInt(part).value;
    assert Denotes(part, min, max, v);
    assert InField(expr, min, max, v);
  }

  // ---------- the whole expression ----------

  /** What the expression accepts, field by field. */
  predicate ExprOk(expr: string) {
    var f := Fields(expr);
    && |f| == 5
    && FieldOk(f[0], 0, 59) && FieldOk(f[1], 0, 23) && FieldOk(f[2], 1, 31)
    && FieldOk(f[3], 1, 12) && FieldOk(f[4], 0, 6)
  }

  predicate TableOf(table: seq<bool>, field: string, min: int, max: int)
    requires FieldOk(field, min, max)
  {
    && |table| == max - min + 1
    && forall v :: min <= v <= max ==> (table[v - min] <==> InField(field, min, max, v))
  }

  /** The tables hold exactly the values each field denotes. */
  ghost predicate Means(c: Cron, expr: string)
    requires ExprOk(expr)
  {
    var f := Fields(expr);
    && TableOf(c.minutes, f[0], 0, 59)
    && TableOf(c.hours, f[1], 0, 23)
    && TableOf(c.doms, f[2], 1, 31)
    && TableOf(c.months, f[3], 1, 12)
    && TableOf(c.dows, f[4], 0, 6)
  }

  method Parse(expr: string) returns (r: Option<Cron>)
    ensures r.Some? <==> ExprOk(expr)
    ensures r.Some? ==> Means(r.value, expr)
  {
    var f := Fields(expr);
    if |f| != 5 { return None; }
    var minutes := ParseField(f[0], 0, 59);
    if minutes.None? { return None; }
    var hours := ParseField(f[1], 0, 23);
    if hours.None? { return None; }
    var doms := ParseField(f[2], 1, 31);
    if doms.None? { return None; }
    var months := ParseField(f[3], 1, 12);
    if months.None? { return None; }
    var dows := ParseField(f[4], 0, 6);
    if dows.None? { return None; }
    return Some(Cron(minutes.value, hours.value, doms.value, months.value, dows.value));
  }

  /** A table with at least one bit set. */
  predicate NonEmpty(table: seq<bool>) { exists i :: 0 <= i < |table| && table[i] }

  lemma TableNonEmpty(table: seq<bool>, field: string, min: int, max: int)
    requires min <= max && FieldOk(field, min, max) && TableOf(table, field, min, max)
    ensures NonEmpty(table)
  {
    FieldNonEmpty(field, min, max);
    var v :| min <= v <= max && InField(field, min, max, v);
    assert table[v - min];
  }

  lemma AcceptedTablesNonEmpty(c: Cron, expr: string)
    requires ExprOk(expr) && Means(c, expr)
    ensures NonEmpty(c.minutes) && NonEmpty(c.hours) && NonEmpty(c.doms)
    ensures NonEmpty(c.months) && NonEmpty(c.dows)
  {
    var f := Fields(expr);
    TableNonEmpty(c.minutes, f[0], 0, 59);
    TableNonEmpty(c.hours, f[1], 0, 23);
    TableNonEmpty(c.doms, f[2], 1, 31);
    TableNonEmpty(c.months, f[3], 1, 12);
    TableNonEmpty(c.dows, f[4], 0, 6);
  }
}
