/** ListJobs: keyset pages in (created_at, id) descending order, and walks that
    follow the cursor from page to page while the table changes underneath. */
module Pagination {
  import opened Wrappers
  import opened Text
  import opened Durations
  import opened Jobs
  import Base64

  // ---------- the cursor ----------

  /** A Go string is a sequence of bytes; here each character stands for one. */
  predicate ByteString(s: string) { forall i :: 0 <= i < |s| ==> s[i] as int < 256 }

  function ToBytes(s: string): (b: seq<Base64.Byte>)
    requires ByteString(s)
    ensures |b| == |s| && FromBytes(b) == s
  {
    if s == "" then [] else [s[0] as int] + ToBytes(s[1..])
  }

  function FromBytes(b: seq<Base64.Byte>): (s: string)
    ensures |s| == |b|
  {
    if b == [] then "" else [b[0] as char] + FromBytes(b[1..])
  }

  /** A row's place in the listing: created_at, then id. */
  datatype Place = Place(createdAt: Time, id: JobId)

  function UnixMicro(t: Time): int { t / MICROSECOND }

  /** What a row can hold: an id of bytes, and a time at microsecond precision whose
      microseconds fit 64 bits. */
  predicate Storable(p: Place) {
    ByteString(p.id) && p.createdAt % MICROSECOND == 0 && INT64_MIN <= UnixMicro(p.createdAt) <= INT64_MAX
  }

  function EncodeCursor(p: Place): string
    requires Storable(p)
  {
    FormatIsBytes(UnixMicro(p.createdAt));
    Base64.Encode(ToBytes(FormatInt(UnixMicro(p.createdAt)) + "|" + p.id))
  }

  lemma FormatIsBytes(n: int)
    ensures ByteString(FormatInt(n))
  {
    var s := FormatInt(n);
    forall i | 0 <= i < |s| ensures s[i] as int < 256 { assert s[i] in s; }
  }

  function DecodeCursor(c: string): (r: Option<Place>) {
    match Base64.Decode(c)
    case None => None
    case Some(raw) =>
      match Cut(FromBytes(raw), '|')
      case None => None
      case Some((micros, id)) =>
        match ParseInt(micros)
        case None => None
        case Some(n) => Some(Place(n * MICROSECOND, id))
  }

  /** The cursor loses nothing, whatever the id holds, and is never empty. */
  lemma CursorRoundTrip(p: Place)
    requires Storable(p)
    ensures DecodeCursor(EncodeCursor(p)) == Some(p) && EncodeCursor(p) != ""
  {
    hide Base64.Encode, Base64.Decode, FormatInt, ParseInt, Cut;
    var micros := UnixMicro(p.createdAt);
    FormatIsBytes(micros);
    var text := FormatInt(micros) + "|" + p.id;
    Base64.RoundTrip(ToBytes(text));
    CutOfPair(FormatInt(micros), '|', p.id);
    ParseOfFormat(micros);
  }

  // ---------- the order ----------

  predicate LexLess(a: string, b: string) {
    b != "" && (a == "" || a[0] < b[0] || (a[0] == b[0] && LexLess(a[1..], b[1..])))
  }

  lemma {:induction false} LexTotal(a: string, b: string)
    ensures LexLess(a, b) || LexLess(b, a) || a == b
    ensures !(LexLess(a, b) && LexLess(b, a))
    ensures a == b ==> !LexLess(a, b)
  {
    if a != "" && b != "" {
      LexTotal(a[1..], b[1..]);
      assert a == [a[0]] + a[1..] && b == [b[0]] + b[1..];
    }
  }

  lemma {:induction false} LexTransitive(a: string, b: string, c: string)
    requires LexLess(a, b) && LexLess(b, c)
    ensures LexLess(a, c)
  {
    if a != "" && a[0] == b[0] && b[0] == c[0] {
      LexTransitive(a[1..], b[1..], c[1..]);
    }
  }

  /** (created_at, id) < (created_at, id), as Postgres compares row values. */
  predicate Below(p: Place, q: Place) {
    p.createdAt < q.createdAt || (p.createdAt == q.createdAt && LexLess(p.id, q.id))
  }

  lemma BelowTotal(p: Place, q: Place)
    ensures Below(p, q) || Below(q, p) || p == q
    ensures !(Below(p, q) && Below(q, p)) && !Below(p, p)
  {
    LexTotal(p.id, q.id);
    LexTotal(p.id, p.id);
  }

  lemma BelowTransitive(p: Place, q: Place, r: Place)
    requires Below(p, q) && Below(q, r)
    ensures Below(p, r)
  {
    if p.createdAt == q.createdAt == r.createdAt { LexTransitive(p.id, q.id, r.id); }
  }

  // ---------- one page ----------

  datatype Filter = Filter(tenant: string, state: Option<JobState>)

  function PlaceOf(t: Table, id: JobId): Place
    requires id in t
  {
    Place(t[id].createdAt, id)
  }

  predicate Matches(f: Filter, r: Row) {
    (f.tenant != "" ==> r.tenant == f.tenant) && (f.state.Some? ==> r.state == f.state.value)
  }

  /** The rows a page may show: matching, and strictly after the cursor. */
  predicate Eligible(t: Table, f: Filter, after: Option<Place>, id: JobId) {
    id in t && Matches(f, t[id]) && (after.Some? ==> Below(PlaceOf(t, id), after.value))
  }

  ghost predicate Descending(t: Table, page: seq<JobId>) {
    && (forall i :: 0 <= i < |page| ==> page[i] in t)
    && forall i, j :: 0 <= i < j < |page| ==> Below(PlaceOf(t, page[j]), PlaceOf(t, page[i]))
  }

  /** The page is the next stretch of eligible rows in order; if there is more, all
      the other eligible rows come after its last. */
  ghost predicate IsPage(t: Table, f: Filter, after: Option<Place>, page: seq<JobId>, more: bool) {
    && Descending(t, page)
    && (forall id :: id in page ==> Eligible(t, f, after, id))
    && (more ==> page != [])
    && forall id :: Eligible(t, f, after, id) && id !in page ==>
         more && Below(PlaceOf(t, id), PlaceOf(t, page[|page| - 1]))
  }

  const DEFAULT_LIMIT := 50
  const MAX_LIMIT := 500

  function ClampLimit(limit: int): (n: int)
    ensures 1 <= n <= 500 && (1 <= limit <= 500 ==> n == limit) && (limit > 500 ==> n == 500) && (limit <= 0 ==> n == 50)
  {
    if limit <= 0 then DEFAULT_LIMIT else if limit > MAX_LIMIT then MAX_LIMIT else limit
  }

  /** The index scan behind ORDER BY created_at DESC, id DESC: the next eligible row. */
  method Greatest(t: Table, f: Filter, after: Option<Place>) returns (best: Option<JobId>)
    ensures best.None? ==> forall id :: !Eligible(t, f, after, id)
    ensures best.Some? ==>
      && Eligible(t, f, after, best.value)
      && forall id :: Eligible(t, f, after, id) && id != best.value ==> Below(PlaceOf(t, id), PlaceOf(t, best.value))
  {
    hide LexLess;
    best := None;
    var todo := t.Keys;
    while todo != {}
      invariant todo <= t.Keys
      invariant best.Some? ==> best.value in t && best.value !in todo && Eligible(t, f, after, best.value)
      invariant forall id :: Eligible(t, f, after, id) && id !in todo ==>
        best.Some? && (id == best.value || Below(PlaceOf(t, id), PlaceOf(t, best.value)))
      decreases |todo|
    {
      var id :| id in todo;
      todo := todo - {id};
      if Eligible(t, f, after, id) {
        if best.None? {
          best := Some(id);
        } else if Below(PlaceOf(t, best.value), PlaceOf(t, id)) {
          BelowTransitiveAll(t, best.value, id);
          best := Some(id);
        } else {
          BelowTotal(PlaceOf(t, best.value), PlaceOf(t, id));
        }
      }
    }
  }

  lemma BelowTransitiveAll(t: Table, mid: JobId, top: JobId)
    requires mid in t && top in t && Below(PlaceOf(t, mid), PlaceOf(t, top))
    ensures forall id :: id in t && Below(PlaceOf(t, id), PlaceOf(t, mid)) ==> Below(PlaceOf(t, id), PlaceOf(t, top))
  {
    hide LexLess;
    forall id | id in t && Below(PlaceOf(t, id), PlaceOf(t, mid)) ensures Below(PlaceOf(t, id), PlaceOf(t, top)) {
      BelowTransitive(PlaceOf(t, id), PlaceOf(t, mid), PlaceOf(t, top));
    }
  }

  /** What the row loop has collected: the greatest eligible rows, in order. */
  ghost predicate Collected(t: Table, f: Filter, after: Option<Place>, jobs: seq<JobId>) {
    && Descending(t, jobs)
    && (forall id :: id in jobs ==> Eligible(t, f, after, id))
    && forall id :: Eligible(t, f, after, id) && id !in jobs && jobs != [] ==>
         Below(PlaceOf(t, id), PlaceOf(t, jobs[|jobs| - 1]))
  }

  /** The cursor from which the rows after `jobs` are read. */
  function Bound(t: Table, after: Option<Place>, jobs: seq<JobId>): Option<Place>
    requires forall i :: 0 <= i < |jobs| ==> jobs[i] in t
  {
    if jobs == [] then after else Some(PlaceOf(t, jobs[|jobs| - 1]))
  }

  lemma EligibleAfter(t: Table, f: Filter, after: Option<Place>, jobs: seq<JobId>, id: JobId)
    requires Collected(t, f, after, jobs)
    ensures Eligible(t, f, Bound(t, after, jobs), id) <==> Eligible(t, f, after, id) && id !in jobs
  {
    hide LexLess;
    if jobs != [] && id in t {
      var last := jobs[|jobs| - 1];
      assert Eligible(t, f, after, last);
      BelowTotal(PlaceOf(t, id), PlaceOf(t, last));
      if Below(PlaceOf(t, id), PlaceOf(t, last)) {
        if after.Some? { BelowTransitive(PlaceOf(t, id), PlaceOf(t, last), after.value); }
        forall i | 0 <= i < |jobs| ensures jobs[i] != id {
          BelowTotal(PlaceOf(t, jobs[i]), PlaceOf(t, last));
        }
      }
    }
  }

  lemma CollectOne(t: Table, f: Filter, after: Option<Place>, jobs: seq<JobId>, id: JobId)
    requires Collected(t, f, after, jobs)
    requires Eligible(t, f, Bound(t, after, jobs), id)
    requires forall other :: Eligible(t, f, Bound(t, after, jobs), other) && other != id ==> Below(PlaceOf(t, other), PlaceOf(t, id))
    ensures Collected(t, f, after, jobs + [id])
  {
    hide Below, Matches;
    EligibleAfter(t, f, after, jobs, id);
    forall i | 0 <= i < |jobs| ensures Below(PlaceOf(t, id), PlaceOf(t, jobs[i])) {
      var last := jobs[|jobs| - 1];
      if i < |jobs| - 1 { BelowTransitive(PlaceOf(t, id), PlaceOf(t, last), PlaceOf(t, jobs[i])); }
    }
    forall other | Eligible(t, f, after, other) && other !in jobs + [id]
      ensures Below(PlaceOf(t, other), PlaceOf(t, id))
    {
      EligibleAfter(t, f, after, jobs, other);
    }
  }

  /** ListJobs: up to the clamped limit, with a cursor exactly when rows remain. */
  method ListJobs(t: Table, f: Filter, limit: int, cursor: string) returns (page: Option<seq<JobId>>, next: string)
    requires forall id :: id in t ==> Storable(PlaceOf(t, id))
    ensures page.None? <==> cursor != "" && DecodeCursor(cursor).None?
    ensures page.Some? ==>
      var after := if cursor == "" then None else DecodeCursor(cursor);
      && |page.value| <= ClampLimit(limit)
      && (1 <= limit <= 500 ==> |page.value| <= limit && (next != "" ==> |page.value| == limit))
      && IsPage(t, f, after, page.value, next != "")
      && (next != "" ==> |page.value| == ClampLimit(limit) && next == EncodeCursor(PlaceOf(t, page.value[|page.value| - 1])))
  {
    hide Eligible, Below, Storable, EncodeCursor, DecodeCursor;
    var after := None;
    if cursor != "" {
      after := DecodeCursor(cursor);
      if after.None? { return None, ""; }
    }
    var n := ClampLimit(limit);
    var jobs: seq<JobId> := [];
    while |jobs| < n + 1
      invariant |jobs| <= n + 1 && Collected(t, f, after, jobs)
      decreases n + 1 - |jobs|
    {
      var best := Greatest(t, f, Bound(t, after, jobs));
      if best.None? {
        forall id | Eligible(t, f, after, id) ensures id in jobs { EligibleAfter(t, f, after, jobs, id); }
        break;
      }
      CollectOne(t, f, after, jobs, best.value);
      jobs := jobs + [best.value];
    }
    if |jobs| > n {
      CollectedPrefix(t, f, after, jobs, n);
      var last := jobs[n - 1];
      CursorRoundTrip(PlaceOf(t, last));
      return Some(jobs[..n]), EncodeCursor(PlaceOf(t, last));
    }
    return Some(jobs), "";
  }

  lemma CollectedPrefix(t: Table, f: Filter, after: Option<Place>, jobs: seq<JobId>, n: nat)
    requires Collected(t, f, after, jobs) && 0 < n < |jobs|
    ensures IsPage(t, f, after, jobs[..n], true)
  {
    hide Below, Matches;
    var last := jobs[n - 1];
    assert Descending(t, jobs[..n]);
    forall id | Eligible(t, f, after, id) && id !in jobs[..n] ensures Below(PlaceOf(t, id), PlaceOf(t, last)) {
      var final := jobs[|jobs| - 1];
      if id in jobs {
        var i :| 0 <= i < |jobs| && jobs[i] == id;
        assert forall j :: 0 <= j < n ==> jobs[j] in jobs[..n];
      } else if final != last {
        BelowTransitive(PlaceOf(t, id), PlaceOf(t, final), PlaceOf(t, last));
      }
    }
  }

  // ---------- following the cursor while the table changes ----------

  /** One ListJobs call of a walk: the table it saw and what it returned. */
  datatype Fetch = Fetch(table: Table, page: seq<JobId>, more: bool)

  /** The place the cursor after this fetch encodes. */
  function EndOf(x: Fetch): Option<Place> {
    if x.page != [] && x.page[|x.page| - 1] in x.table
    then Some(PlaceOf(x.table, x.page[|x.page| - 1])) else None
  }

  function CursorAt(walk: seq<Fetch>, k: nat): Option<Place>
    requires k <= |walk|
  {
    if k == 0 then None else EndOf(walk[k - 1])
  }

  /** Each fetch starts from the cursor of the one before, and only the last may be final. */
  ghost predicate IsWalk(f: Filter, walk: seq<Fetch>) {
    && (forall k :: 0 <= k < |walk| ==> IsPage(walk[k].table, f, CursorAt(walk, k), walk[k].page, walk[k].more))
    && forall k :: 0 <= k < |walk| - 1 ==> walk[k].more
  }

  /** No statement ever writes created_at, and ids are never reused. */
  ghost predicate CreatedFixed(walk: seq<Fetch>) {
    forall j, k, id :: 0 <= j < |walk| && 0 <= k < |walk| && id in walk[j].table && id in walk[k].table ==>
      walk[j].table[id].createdAt == walk[k].table[id].createdAt
  }

  lemma PageAt(f: Filter, walk: seq<Fetch>, k: nat)
    requires IsWalk(f, walk) && k < |walk|
    ensures IsPage(walk[k].table, f, CursorAt(walk, k), walk[k].page, walk[k].more)
    ensures k < |walk| - 1 ==> walk[k].more
  {
    hide IsPage, CursorAt;
  }

  /** A page that is not the last ends at a row of its table. */
  lemma PageEnd(f: Filter, walk: seq<Fetch>, k: nat) returns (last: JobId)
    requires IsWalk(f, walk) && k < |walk| - 1
    ensures last in walk[k].page && last in walk[k].table && EndOf(walk[k]) == Some(PlaceOf(walk[k].table, last))
  {
    hide IsWalk, Eligible, Below;
    PageAt(f, walk, k);
    last := walk[k].page[|walk[k].page| - 1];
  }

  lemma PageMember(f: Filter, walk: seq<Fetch>, k: nat, id: JobId)
    requires IsWalk(f, walk) && k < |walk| && id in walk[k].page
    ensures Eligible(walk[k].table, f, CursorAt(walk, k), id)
  {
    hide IsWalk, Eligible, Below, CursorAt;
    PageAt(f, walk, k);
  }

  /** Everything on a later page lies strictly after the end of an earlier one. */
  lemma {:induction false} PagesDescend(f: Filter, walk: seq<Fetch>, j: nat, k: nat, id: JobId)
    requires IsWalk(f, walk) && j < k < |walk| && id in walk[k].page
    ensures EndOf(walk[j]).Some? && id in walk[k].table && Below(PlaceOf(walk[k].table, id), EndOf(walk[j]).value)
    decreases k
  {
    hide Below, Matches, IsWalk, EndOf;
    var last := PageEnd(f, walk, k - 1);
    PageMember(f, walk, k, id);
    if j < k - 1 {
      PagesDescend(f, walk, j, k - 1, last);
      BelowTransitive(PlaceOf(walk[k].table, id), PlaceOf(walk[k - 1].table, last), EndOf(walk[j]).value);
    }
  }

  /** Rows inserted, updated or deleted between pages notwithstanding, no row is
      returned twice. */
  lemma NoRowTwice(f: Filter, walk: seq<Fetch>)
    requires IsWalk(f, walk) && CreatedFixed(walk)
    ensures forall j, a, k, b :: ShownAt(walk, j, a) && ShownAt(walk, k, b) && walk[j].page[a] == walk[k].page[b] ==>
      j == k && a == b
  {
    forall j, a, k, b | ShownAt(walk, j, a) && ShownAt(walk, k, b) && walk[j].page[a] == walk[k].page[b]
      ensures j == k && a == b
    {
      EarlierIsAbove(f, walk, j, a, k, b);
      EarlierIsAbove(f, walk, k, b, j, a);
      if j == k {
        assert IsPage(walk[k].table, f, CursorAt(walk, k), walk[k].page, walk[k].more);
        var t := walk[k].table;
        BelowTotal(PlaceOf(t, walk[k].page[a]), PlaceOf(t, walk[k].page[b]));
      }
    }
  }

  /** The walk shows a row at position a of page j. */
  predicate ShownAt(walk: seq<Fetch>, j: int, a: int) { 0 <= j < |walk| && 0 <= a < |walk[j].page| }

  lemma EarlierIsAbove(f: Filter, walk: seq<Fetch>, j: int, a: int, k: int, b: int)
    requires IsWalk(f, walk) && CreatedFixed(walk)
    ensures j < k && ShownAt(walk, j, a) && ShownAt(walk, k, b) ==> walk[j].page[a] != walk[k].page[b]
  {
    hide Below, Matches;
    if j < k && ShownAt(walk, j, a) && ShownAt(walk, k, b) {
      var x, y := walk[j].page[a], walk[k].page[b];
      PagesDescend(f, walk, j, k, y);
      assert IsPage(walk[j].table, f, CursorAt(walk, j), walk[j].page, walk[j].more);
      var end, px, py := EndOf(walk[j]).value, PlaceOf(walk[j].table, x), PlaceOf(walk[k].table, y);
      if a < |walk[j].page| - 1 { BelowTransitive(py, end, px); }
      BelowTotal(py, px);
    }
  }

  /** What a page leaves out lies after its end, if there is more. */
  lemma LeftOut(f: Filter, walk: seq<Fetch>, k: nat, id: JobId)
    requires IsWalk(f, walk) && k < |walk| && Eligible(walk[k].table, f, CursorAt(walk, k), id) && id !in walk[k].page
    ensures walk[k].more && EndOf(walk[k]).Some? && Below(PlaceOf(walk[k].table, id), EndOf(walk[k]).value)
  {
    hide IsWalk, Below, CursorAt, Matches;
    PageAt(f, walk, k);
  }

  /** A row that is there and matching at every fetch is still ahead of the cursor
      until some page shows it. */
  lemma {:induction false} ShownOrAhead(f: Filter, walk: seq<Fetch>, k: nat, id: JobId)
    requires IsWalk(f, walk) && CreatedFixed(walk) && k < |walk|
    requires forall i :: 0 <= i <= k ==> id in walk[i].table && Matches(f, walk[i].table[id])
    ensures (exists i :: 0 <= i < k && id in walk[i].page) || Eligible(walk[k].table, f, CursorAt(walk, k), id)
  {
    hide Below, Matches, IsWalk, EndOf;
    if k > 0 {
      ShownOrAhead(f, walk, k - 1, id);
      assert PlaceOf(walk[k - 1].table, id) == PlaceOf(walk[k].table, id);
      if id !in walk[k - 1].page && Eligible(walk[k - 1].table, f, CursorAt(walk, k - 1), id) {
        LeftOut(f, walk, k - 1, id);
      }
    }
  }

  /** A finished walk shows every row that was present and matching throughout;
      with NoRowTwice, exactly once. */
  lemma EveryRowShown(f: Filter, walk: seq<Fetch>, id: JobId)
    requires IsWalk(f, walk) && CreatedFixed(walk)
    requires walk != [] && !walk[|walk| - 1].more
    requires forall i :: 0 <= i < |walk| ==> id in walk[i].table && Matches(f, walk[i].table[id])
    ensures exists k :: 0 <= k < |walk| && id in walk[k].page
  {
    hide Below, Matches;
    hide IsWalk, CursorAt;
    var k := |walk| - 1;
    ShownOrAhead(f, walk, k, id);
    PageAt(f, walk, k);
  }

  lemma EmptyWalk(f: Filter)
    ensures IsWalk(f, []) && CursorAt([], 0) == None
  {
  }

  lemma WalkOn(f: Filter, walk: seq<Fetch>, x: Fetch)
    requires IsWalk(f, walk) && (walk != [] ==> walk[|walk| - 1].more)
    requires IsPage(x.table, f, CursorAt(walk, |walk|), x.page, x.more)
    ensures IsWalk(f, walk + [x]) && CursorAt(walk + [x], |walk| + 1) == EndOf(x)
  {
    hide IsPage, EndOf;
    var longer := walk + [x];
    forall k | 0 <= k < |longer|
      ensures IsPage(longer[k].table, f, CursorAt(longer, k), longer[k].page, longer[k].more)
    {
      assert CursorAt(longer, k) == CursorAt(walk, k);
    }
  }

  lemma CursorEnd(t: Table, f: Filter, after: Option<Place>, page: seq<JobId>)
    requires IsPage(t, f, after, page, true) && forall id :: id in t ==> Storable(PlaceOf(t, id))
    ensures page[|page| - 1] in t && EndOf(Fetch(t, page, true)).Some?
    ensures DecodeCursor(EncodeCursor(PlaceOf(t, page[|page| - 1]))) == EndOf(Fetch(t, page, true))
  {
    hide Eligible, Below, Storable, EncodeCursor, DecodeCursor;
    CursorRoundTrip(PlaceOf(t, page[|page| - 1]));
  }

  /** A client that passes each next_cursor back makes such a walk: the encoded
      cursor carries the place exactly. */
  method FollowCursor(tables: seq<Table>, f: Filter, limit: int) returns (walk: seq<Fetch>)
    requires forall k, id :: 0 <= k < |tables| && id in tables[k] ==> Storable(PlaceOf(tables[k], id))
    ensures IsWalk(f, walk) && |walk| <= |tables|
    ensures forall k :: 0 <= k < |walk| ==> walk[k].table == tables[k]
    ensures walk == [] || |walk| == |tables| || !walk[|walk| - 1].more
    ensures tables != [] ==> walk != []
  {
    hide IsWalk, IsPage, DecodeCursor, EncodeCursor, Storable, EndOf, CursorAt;
    EmptyWalk(f);
    walk := [];
    var cursor := "";
    while |walk| < |tables| && (walk == [] || cursor != "")
      invariant |walk| <= |tables| && IsWalk(f, walk)
      invariant forall k :: 0 <= k < |walk| ==> walk[k].table == tables[k]
      invariant walk != [] ==> (walk[|walk| - 1].more <==> cursor != "")
      invariant walk == [] ==> cursor == ""
      invariant walk == [] ==> CursorAt(walk, |walk|) == None
      invariant cursor != "" ==> DecodeCursor(cursor).Some? && DecodeCursor(cursor) == CursorAt(walk, |walk|)
      decreases |tables| - |walk|
    {
      var t := tables[|walk|];
      var page, next := ListJobs(t, f, limit, cursor);
      var x := Fetch(t, page.value, next != "");
      WalkOn(f, walk, x);
      if next != "" { CursorEnd(t, f, CursorAt(walk, |walk|), page.value); }
      walk := walk + [x];
      cursor := next;
    }
  }
}
