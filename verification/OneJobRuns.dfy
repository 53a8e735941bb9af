/** A family of runs with one job, whose worker takes it and dies: the witnesses for what
    can go wrong. */
module OneJobRuns {
  import opened Wrappers
  import opened Jobs
  import opened LeaseProtocol
  import Backoff

  const ANY_JOB := ClaimFilter("", [], [])
  const JOB := "job"

  /** A request with this retry budget and everything else left to the defaults. */
  function Budget(retries: int): Request { Request("", "", "", "", 0, retries, None) }

  /** The job is enqueued and claimed with token "a" at time 0. */
  function ClaimedRun(retries: int, lease: nat): seq<Op> {
    [Create(JOB, Budget(retries)), ClaimSelect(0, JOB, ANY_JOB, lease), ClaimUpdate(0, "a")]
  }

  /** Its lease runs out and the reap's select sees it; `gap` later the update writes. */
  function ReapedRun(retries: int, lease: nat, gap: nat): seq<Op> {
    ClaimedRun(retries, lease) + [Tick(lease), ReapSelect(0, {JOB}, 1), Tick(gap), ReapUpdate(0)]
  }

  function ClaimedJob(e: Backoff.Engine, retries: int, lease: nat): Row {
    Claimed(EnqueuedRow(Budget(retries), e, 0), 0, lease, "a")
  }

  /** Only this job in the table, whatever else there is. */
  function Only(e: Backoff.Engine, retries: int, clock: Time, r: Row, open: map<Session, Selection>): Sys {
    Sys(e, clock, map[JOB := r], {"a"}, open, map[], map[], {(JOB, EnqueuedRow(Budget(retries), e, 0))})
  }

  lemma Snoc(e: Backoff.Engine, ops: seq<Op>, op: Op)
    ensures Run(e, ops + [op]) == Step(Run(e, ops), op)
  {
    assert (ops + [op])[..|ops|] == ops;
  }

  lemma ClaimedState(e: Backoff.Engine, retries: int, lease: nat)
    ensures var r := EnqueuedRow(Budget(retries), e, 0);
      Run(e, ClaimedRun(retries, lease)[..2])
      == Sys(e, 0, map[JOB := r], {}, map[0 := ClaimSel(JOB, r, ANY_JOB, lease, 0)], map[], map[], {(JOB, r)})
    ensures Run(e, ClaimedRun(retries, lease)) == Only(e, retries, 0, ClaimedJob(e, retries, lease), map[])
  {
    hide EnqueuedRow;
    var ops, r := ClaimedRun(retries, lease), EnqueuedRow(Budget(retries), e, 0);
    assert ops[..1] == [] + [ops[0]] && ops[..2] == ops[..1] + [ops[1]] && ops == ops[..2] + [ops[2]];
    Snoc(e, [], ops[0]);
    assert Run(e, ops[..1]) == Sys(e, 0, map[JOB := r], {}, map[], map[], map[], {(JOB, r)});
    assert Claimable(r, ANY_JOB, 0) by { FreshIsClaimable(e, retries); }
    Snoc(e, ops[..1], ops[1]);
    assert Run(e, ops[..2]).open == map[0 := ClaimSel(JOB, r, ANY_JOB, lease, 0)];
    Snoc(e, ops[..2], ops[2]);
    assert Run(e, ops).open == map[];
  }

  lemma FreshIsClaimable(e: Backoff.Engine, retries: int)
    ensures Claimable(EnqueuedRow(Budget(retries), e, 0), ANY_JOB, 0)
  {
  }

  lemma ReapSelectAlone(s: Sys, r: Row)
    requires s.rows == map[JOB := r] && s.open == map[] && Expired(r, s.clock)
    ensures Step(s, ReapSelect(0, {JOB}, 1)) == s.(open := map[0 := ReapSel(map[JOB := r], s.clock)])
  {
    hide Expired;
    assert !Locked(s, JOB);
    assert |{JOB}| == 1 && ReapSelectOk(s, {JOB}, 1);
    var s' := Step(s, ReapSelect(0, {JOB}, 1));
    assert s'.open.Keys == {0} && s'.open[0].ReapSel? && s'.open[0].at == s.clock;
    assert s'.open[0].seen == map[JOB := r];
    assert s'.open == map[0 := s'.open[0]];
  }

  lemma ReapUpdateAlone(s: Sys, r: Row, at: Time)
    requires s.rows == map[JOB := r] && s.open == map[0 := ReapSel(map[JOB := r], at)]
    ensures Step(s, ReapUpdate(0)) == s.(rows := map[JOB := ReapedRow(r, r, at)], open := map[])
  {
    hide ReapedRow;
    assert s.open - {0} == map[];
    assert ReapUpdateStep(s, 0).rows == map[JOB := ReapedRow(r, r, at)];
  }

  /** The states of the run from the claim on. */
  lemma ReapedStates(e: Backoff.Engine, retries: int, lease: nat, gap: nat)
    ensures var ops, r := ReapedRun(retries, lease, gap), ClaimedJob(e, retries, lease);
      && Run(e, ops[..3]) == Only(e, retries, 0, r, map[])
      && Run(e, ops[..4]) == Only(e, retries, lease, r, map[])
      && Run(e, ops[..5]) == Only(e, retries, lease, r, map[0 := ReapSel(map[JOB := r], lease)])
      && Run(e, ops[..6]) == Only(e, retries, lease + gap, r, map[0 := ReapSel(map[JOB := r], lease)])
      && Run(e, ops) == Only(e, retries, lease + gap, ReapedRow(r, r, lease), map[])
  {
    hide EnqueuedRow, ReapedRow;
    var ops, r := ReapedRun(retries, lease, gap), ClaimedJob(e, retries, lease);
    ClaimedState(e, retries, lease);
    assert ops[..3] == ClaimedRun(retries, lease) && ops[..4] == ops[..3] + [ops[3]];
    assert ops[..5] == ops[..4] + [ops[4]] && ops[..6] == ops[..5] + [ops[5]] && ops == ops[..6] + [ops[6]];
    Snoc(e, ops[..3], ops[3]);
    Snoc(e, ops[..4], ops[4]);
    Snoc(e, ops[..5], ops[5]);
    Snoc(e, ops[..6], ops[6]);
    ReapSelectAlone(Run(e, ops[..4]), r);
    hide Step;
    assert Run(e, ops[..6]) == Only(e, retries, lease + gap, r, map[0 := ReapSel(map[JOB := r], lease)]) by {
      TickAlone(Run(e, ops[..5]), gap);
    }
    ReapUpdateAlone(Run(e, ops[..6]), r, lease);
  }

  lemma TickAlone(s: Sys, elapsed: nat)
    ensures Step(s, Tick(elapsed)) == s.(clock := s.clock + elapsed)
  {
  }
}
