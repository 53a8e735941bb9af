/** Listing while the queue works: a client follows cursors while any run of the lease
    protocol goes on underneath. */
module ListingRuns {
  import opened Wrappers
  import opened Durations
  import opened Jobs
  import opened LeaseProtocol
  import opened LeaseInvariant
  import opened LeaseMoves
  import Pagination
  import Backoff

  /** Job ids are random UUIDs: no two enqueues use one id. */
  predicate UniqueIds(ops: seq<Op>) {
    forall a, b :: 0 <= a < b < |ops| && ops[a].Create? && ops[b].Create? ==> ops[a].id != ops[b].id
  }

  /** A row in the table was put there by a Create. */
  lemma {:induction false} RowWasCreated(e: Backoff.Engine, ops: seq<Op>, i: nat, id: JobId) returns (a: nat)
    requires i <= |ops| && id in At(e, ops, i).rows
    ensures a < i && ops[a].Create? && ops[a].id == id
    decreases i
  {
    hide Run, Step, Inv, RowChange, RowGone;
    EmptyAtStart(e, ops);
    AtStep(e, ops, i - 1);
    RunInv(e, ops[..i - 1]);
    StepRow(At(e, ops, i - 1), ops[i - 1], id);
    if id in At(e, ops, i - 1).rows {
      a := RowWasCreated(e, ops, i - 1, id);
    } else {
      a := i - 1;
    }
  }

  lemma EmptyAtStart(e: Backoff.Engine, ops: seq<Op>)
    ensures At(e, ops, 0).rows == map[]
  {
    assert ops[..0] == [];
  }

  /** No statement writes created_at. */
  lemma ChangeKeepsCreated(s: Sys, op: Op, id: JobId, r: Row, r': Row)
    requires RowChange(s, op, id, r, r')
    ensures r'.createdAt == r.createdAt
  {
    hide FreshToken, FailOk, MessageOk, KafkaCopy, Expired, Claimable;
  }

  lemma {:induction false} CreatedKept(e: Backoff.Engine, ops: seq<Op>, i: nat, j: nat, id: JobId)
    requires i <= j <= |ops| && UniqueIds(ops) && id in At(e, ops, i).rows && id in At(e, ops, j).rows
    ensures At(e, ops, i).rows[id].createdAt == At(e, ops, j).rows[id].createdAt
    decreases j
  {
    hide Run, Step, Inv, RowChange, RowGone;
    if i < j {
      var s, s' := At(e, ops, j - 1), At(e, ops, j);
      AtStep(e, ops, j - 1);
      RunInv(e, ops[..j - 1]);
      StepRow(s, ops[j - 1], id);
      var a := RowWasCreated(e, ops, i, id);
      assert id in s.rows;
      CreatedKept(e, ops, i, j - 1, id);
      if s'.rows[id] != s.rows[id] { ChangeKeepsCreated(s, ops[j - 1], id, s.rows[id], s'.rows[id]); }
    }
  }

  /** Every row's created_at is at microsecond precision, so the cursor can carry it. */
  lemma CreatedAtMicros(e: Backoff.Engine, ops: seq<Op>, i: nat, id: JobId)
    requires i <= |ops| && UniqueIds(ops) && id in At(e, ops, i).rows
    ensures At(e, ops, i).rows[id].createdAt % MICROSECOND == 0
  {
    hide Run, Step, Inv, RowChange, RowGone;
    var a := FirstAppears(e, ops, i, id);
    AtStep(e, ops, a);
    RunInv(e, ops[..a]);
    StepRow(At(e, ops, a), ops[a], id);
    CreatedKept(e, ops, a + 1, i, id);
  }

  lemma {:induction false} FirstAppears(e: Backoff.Engine, ops: seq<Op>, i: nat, id: JobId) returns (a: nat)
    requires i <= |ops| && id in At(e, ops, i).rows
    ensures a < i && id !in At(e, ops, a).rows && id in At(e, ops, a + 1).rows
    decreases i
  {
    hide Run;
    EmptyAtStart(e, ops);
    if id in At(e, ops, i - 1).rows { a := FirstAppears(e, ops, i - 1, id); } else { a := i - 1; }
  }

  /** Each fetch sees the table at its own point of the run. */
  ghost predicate Listing(e: Backoff.Engine, ops: seq<Op>, times: seq<nat>, walk: seq<Pagination.Fetch>) {
    && |times| == |walk|
    && (forall k :: 0 <= k < |times| ==> times[k] <= |ops| && walk[k].table == At(e, ops, times[k]).rows)
    && forall j, k :: 0 <= j < k < |times| ==> times[j] <= times[k]
  }

  lemma ListingIsFixed(e: Backoff.Engine, ops: seq<Op>, times: seq<nat>, walk: seq<Pagination.Fetch>)
    requires UniqueIds(ops) && Listing(e, ops, times, walk)
    ensures Pagination.CreatedFixed(walk)
  {
    hide At, UniqueIds;
    forall j, k, id | 0 <= j < |walk| && 0 <= k < |walk| && id in walk[j].table && id in walk[k].table
      ensures walk[j].table[id].createdAt == walk[k].table[id].createdAt
    {
      if times[j] <= times[k] { CreatedKept(e, ops, times[j], times[k], id); }
      else { CreatedKept(e, ops, times[k], times[j], id); }
    }
  }

  /** In every run of the queue, following cursors to the end returns a job that was
      there and matching at every fetch exactly once, at one place on one page. */
  lemma ExactlyOnce(e: Backoff.Engine, ops: seq<Op>, times: seq<nat>, f: Pagination.Filter, walk: seq<Pagination.Fetch>,
                    id: JobId) returns (k: nat, a: nat)
    requires UniqueIds(ops) && Listing(e, ops, times, walk) && Pagination.IsWalk(f, walk)
    requires walk != [] && !walk[|walk| - 1].more
    requires forall i :: 0 <= i < |walk| ==> id in walk[i].table && Pagination.Matches(f, walk[i].table[id])
    ensures Pagination.ShownAt(walk, k, a) && walk[k].page[a] == id
    ensures forall j, b :: Pagination.ShownAt(walk, j, b) && walk[j].page[b] == id ==> j == k && b == a
  {
    hide Listing, Pagination.IsWalk, Pagination.CreatedFixed, UniqueIds, Pagination.Matches;
    ListingIsFixed(e, ops, times, walk);
    Pagination.EveryRowShown(f, walk, id);
    k :| 0 <= k < |walk| && id in walk[k].page;
    a :| 0 <= a < |walk[k].page| && walk[k].page[a] == id;
    Pagination.NoRowTwice(f, walk);
  }
}
