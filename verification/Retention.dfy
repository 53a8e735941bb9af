/** Exactly when retention keeps a finished row for its whole age. */
module Retention {
  import opened Wrappers
  import opened Jobs
  import opened LeaseProtocol
  import opened LeaseInvariant
  import opened Lifecycle
  import opened OneJobRuns
  import Backoff

  ghost predicate Deletes(e: Backoff.Engine, ops: seq<Op>, i: nat, id: JobId) {
    i < |ops| && ops[i].Prune? && id in At(e, ops, i).rows && id !in At(e, ops, i + 1).rows
  }

  /** At every moment of the retention age before the delete, the row was already what
      was deleted. */
  ghost predicate LongFinished(e: Backoff.Engine, ops: seq<Op>, i: nat, id: JobId)
    requires Deletes(e, ops, i, id)
  {
    forall j :: 0 <= j <= i && At(e, ops, i).clock - At(e, ops, j).clock <= ops[i].age ==>
      id in At(e, ops, j).rows && At(e, ops, j).rows[id] == At(e, ops, i).rows[id]
  }

  ghost predicate AllLongFinished(e: Backoff.Engine, ops: seq<Op>) {
    forall i: nat, id :: Deletes(e, ops, i, id) ==> LongFinished(e, ops, i, id)
  }

  /** No reap of the run pauses longer than `gap` between its select and its update. */
  ghost predicate GapsWithin(e: Backoff.Engine, ops: seq<Op>, gap: nat) {
    forall k :: 0 <= k < |ops| ==> Slack(At(e, ops, k), ops[k]) <= gap
  }

  lemma NoGapIsLong(e: Backoff.Engine, ops: seq<Op>)
    requires GapsWithin(e, ops, 0)
    ensures AllLongFinished(e, ops)
  {
    hide Run, Step, Slack;
    forall i: nat, id | Deletes(e, ops, i, id) ensures LongFinished(e, ops, i, id) {
      var m := NoLostWork(e, ops, i, id);
      forall j | 0 <= j <= i && At(e, ops, i).clock - At(e, ops, j).clock <= ops[i].age ensures m < j {
        if j <= m { ClockGrows(e, ops, j, m); }
      }
    }
  }

  /** A dead job whose reap paused for `gap` is deleted one tick after it was finished. */
  function EarlyRun(gap: nat): seq<Op> {
    ReapedRun(1, 1, gap) + [Tick(1)] + [Prune({JOB}, DEAD, gap, gap + 2, 1)]
  }

  lemma EarlyStates(e: Backoff.Engine, gap: nat)
    requires gap > 0
    ensures var ops, r := EarlyRun(gap), ClaimedJob(e, 1, 1);
      && At(e, ops, 6) == Only(e, 1, gap + 1, r, map[0 := ReapSel(map[JOB := r], 1)])
      && At(e, ops, 8) == Only(e, 1, gap + 2, ReapedRow(r, r, 1), map[])
      && JOB !in At(e, ops, 9).rows
  {
    hide Step;
    var ops, first, r := EarlyRun(gap), ReapedRun(1, 1, gap), ClaimedJob(e, 1, 1);
    ReapedStates(e, 1, 1, gap);
    assert ops[..6] == first[..6] && ops[..7] == first && ops[..8] == first + [Tick(1)] && ops[..9] == ops[..8] + [ops[8]];
    Snoc(e, first, Tick(1));
    TickAlone(Run(e, first), 1);
    Snoc(e, ops[..8], ops[8]);
    PruneAlone(At(e, ops, 8), ReapedRow(r, r, 1), gap);
  }

  lemma PruneAlone(s: Sys, r: Row, gap: nat)
    requires s.rows == map[JOB := r] && s.open == map[] && s.clock == gap + 2 && gap > 0
    requires r.state == DEAD && r.completedAt == Some(1)
    ensures JOB !in Step(s, Prune({JOB}, DEAD, gap, gap + 2, 1)).rows
  {
    assert !Locked(s, JOB);
    assert |{JOB}| == 1 && PruneOk(s, {JOB}, DEAD, 2, 1);
  }

  lemma EarlyGaps(e: Backoff.Engine, gap: nat)
    requires gap > 0
    ensures GapsWithin(e, EarlyRun(gap), gap)
  {
    hide Run, Step;
    EarlyStates(e, gap);
    var ops := EarlyRun(gap);
    forall k | 0 <= k < |ops| ensures Slack(At(e, ops, k), ops[k]) <= gap {
      if k != 6 { assert !ops[k].ReapUpdate?; }
    }
  }

  /** Deleted rows have been finished for their whole retention age, in all runs whose
      reaps pause for at most `gap`, if and only if they do not pause at all. */
  lemma AgedIffNoGap(e: Backoff.Engine, gap: nat)
    ensures (forall ops :: GapsWithin(e, ops, gap) ==> AllLongFinished(e, ops)) <==> gap == 0
  {
    hide Run, Step, Slack, GapsWithin;
    if gap == 0 {
      forall ops | GapsWithin(e, ops, 0) ensures AllLongFinished(e, ops) { NoGapIsLong(e, ops); }
    } else {
      var ops := EarlyRun(gap);
      EarlyStates(e, gap);
      EarlyGaps(e, gap);
      assert Deletes(e, ops, 8, JOB) && !LongFinished(e, ops, 8, JOB);
    }
  }
}
