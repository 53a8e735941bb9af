/** Attempt accounting: the attempt column never exceeds the number of claims not given
    back, and on the Postgres transport equals it, so the retry budget bounds the
    executions. */
module Attempts {
  import opened Wrappers
  import opened Jobs
  import opened LeaseProtocol
  import opened LeaseInvariant
  import opened LeaseMoves
  import opened OneJobRuns
  import Backoff

  /** The step took the row from PENDING to RUNNING. */
  ghost predicate ClaimsRow(s: Sys, op: Op, id: JobId) {
    && id in s.rows && id in Step(s, op).rows
    && s.rows[id].state == PENDING && Step(s, op).rows[id].state == RUNNING
  }

  /** The step was a ReleaseClaim that matched the row. */
  ghost predicate ReleasesRow(s: Sys, op: Op, id: JobId) {
    op.Release? && id in s.rows && id in Step(s, op).rows && Step(s, op).rows[id] != s.rows[id]
  }

  /** The row was not there yet, or a dead job was requeued. */
  ghost predicate Resets(s: Sys, op: Op, id: JobId) {
    id !in s.rows || (op.Requeue? && id in Step(s, op).rows && Step(s, op).rows[id] != s.rows[id])
  }

  datatype Ledger = Ledger(claims: nat, releases: nat)

  /** Claims and releases of a row since its creation or last requeue. */
  ghost function Count(e: Backoff.Engine, ops: seq<Op>, id: JobId): Ledger {
    if ops == [] then Ledger(0, 0)
    else
      var s, op := Run(e, ops[..|ops| - 1]), ops[|ops| - 1];
      var before := Count(e, ops[..|ops| - 1], id);
      if Resets(s, op, id) then Ledger(0, 0)
      else Ledger(before.claims + if ClaimsRow(s, op, id) then 1 else 0,
                  before.releases + if ReleasesRow(s, op, id) then 1 else 0)
  }

  /** A Kafka claim, if that is what the step is, finds the row never attempted. */
  ghost predicate KafkaFindsUntried(s: Sys, op: Op, id: JobId) {
    op.KafkaClaim? && ClaimsRow(s, op, id) ==> s.rows[id].attempt == 0
  }

  /** Every Kafka claim of the row since its creation or last requeue found attempt 0. */
  ghost predicate UntriedSinceReset(e: Backoff.Engine, ops: seq<Op>, id: JobId) {
    ops == [] ||
    var s, op := Run(e, ops[..|ops| - 1]), ops[|ops| - 1];
    Resets(s, op, id) || (UntriedSinceReset(e, ops[..|ops| - 1], id) && KafkaFindsUntried(s, op, id))
  }

  function Change(claims: bool, releases: bool): int { (if claims then 1 else 0) - if releases then 1 else 0 }

  /** What one step does to the attempt column: as many up or down as it claims or
      releases, less only for a Kafka claim that finds the row already tried. */
  lemma AttemptStep(s: Sys, op: Op, id: JobId)
    requires Inv(s) && id in Step(s, op).rows
    ensures Resets(s, op, id) ==> Step(s, op).rows[id].attempt == 0
    ensures !Resets(s, op, id) ==>
      var now, due := Step(s, op).rows[id].attempt,
        s.rows[id].attempt + Change(ClaimsRow(s, op, id), ReleasesRow(s, op, id));
      now <= due && (now == due <==> KafkaFindsUntried(s, op, id))
  {
    hide Step, RowsOk, TokensOk, OpenOk, FailsOk, KafkaOk, FailOk;
    StepRow(s, op, id);
    if id in s.rows { RowAt(s, id); }
  }

  /** In every run, on both transports, attempt <= claims - releases, with equality if and
      only if every Kafka claim since the last reset found the row untried. */
  lemma {:induction false} Conservation(e: Backoff.Engine, ops: seq<Op>, id: JobId)
    requires id in Run(e, ops).rows
    ensures var n := Count(e, ops, id);
      && Run(e, ops).rows[id].attempt <= n.claims - n.releases
      && (Run(e, ops).rows[id].attempt == n.claims - n.releases <==> UntriedSinceReset(e, ops, id))
  {
    hide Step, RowsOk, TokensOk, OpenOk, FailsOk, KafkaOk, Resets, ClaimsRow, ReleasesRow, KafkaFindsUntried;
    if ops != [] {
      var before, op := ops[..|ops| - 1], ops[|ops| - 1];
      var s := Run(e, before);
      RunInv(e, before);
      AttemptStep(s, op, id);
      if id in s.rows { Conservation(e, before, id); } else { NewRowResets(s, op, id); }
    }
  }

  ghost predicate PostgresOnly(ops: seq<Op>) {
    forall i :: 0 <= i < |ops| ==> !ops[i].KafkaClaim?
  }

  lemma {:induction false} PostgresUntried(e: Backoff.Engine, ops: seq<Op>, id: JobId)
    requires PostgresOnly(ops)
    ensures UntriedSinceReset(e, ops, id)
  {
    hide Run;
    if ops != [] { PostgresUntried(e, ops[..|ops| - 1], id); }
  }

  /** So always on the Postgres transport. */
  lemma PostgresConservation(e: Backoff.Engine, ops: seq<Op>, id: JobId)
    requires PostgresOnly(ops) && id in Run(e, ops).rows
    ensures var n := Count(e, ops, id);
      Run(e, ops).rows[id].attempt == n.claims - n.releases
  {
    hide Step, Run, UntriedSinceReset;
    PostgresUntried(e, ops, id);
    Conservation(e, ops, id);
  }

  lemma NewRowResets(s: Sys, op: Op, id: JobId)
    requires id !in s.rows
    ensures Resets(s, op, id)
  {
  }

  /** Claims that did not end in a release, the running one included, never exceed
      the budget; and a job waiting to run has budget left. */
  lemma BudgetBoundsClaims(e: Backoff.Engine, ops: seq<Op>, id: JobId)
    requires PostgresOnly(ops) && id in Run(e, ops).rows
    ensures var n, r := Count(e, ops, id), Run(e, ops).rows[id];
      && n.releases <= n.claims <= n.releases + r.maxRetries
      && (r.state == PENDING ==> n.claims < n.releases + r.maxRetries)
      && (r.state == RUNNING ==> n.claims > n.releases)
  {
    hide Step, Run, TokensOk, OpenOk, FailsOk, KafkaOk;
    RunInv(e, ops);
    PostgresConservation(e, ops, id);
    RowAt(Run(e, ops), id);
  }

  /** GREATEST(attempt - 1, 0) never clamps: a release that matches finds a count. */
  lemma ClampNeverFires(s: Sys, id: JobId, token: Token)
    requires Inv(s) && id in s.rows && Fenced(s.rows[id], token)
    ensures Max(s.rows[id].attempt - 1, 0) == s.rows[id].attempt - 1
  {
    RowAt(s, id);
  }

  /** The Kafka claim writes the attempt of the message, so it counts as the one claim it
      is exactly when the row had attempt 0. */
  lemma KafkaClaimCounts(s: Sys, c: Call, token: Token, lease: Time, id: JobId)
    requires Inv(s) && ClaimsRow(s, KafkaClaim(c, token, lease), id)
    ensures Step(s, KafkaClaim(c, token, lease)).rows[id].attempt == 1
    ensures Step(s, KafkaClaim(c, token, lease)).rows[id].attempt == s.rows[id].attempt + 1 <==>
            s.rows[id].attempt == 0
  {
    hide Step, RowsOk, TokensOk, OpenOk, FailsOk, KafkaOk;
    StepRow(s, KafkaClaim(c, token, lease), id);
  }

  // ---------- a Kafka run that does not balance ----------

  lemma DeliverAlone(s: Sys, r: Row, msg: Row)
    requires s.rows == map[JOB := r] && r.state == PENDING && s.deliveries == map[] && (JOB, msg) in s.topic
    ensures Step(s, Deliver(0, JOB, msg)) == s.(deliveries := map[0 := Delivery(JOB, msg, s.clock)])
  {
  }

  lemma KafkaClaimAlone(s: Sys, r: Row, msg: Row)
    requires s.rows == map[JOB := r] && r.state == PENDING && r.leaseToken.None?
    requires s.open == map[] && s.fails == map[] && "b" !in s.minted
    requires s.deliveries == map[0 := Delivery(JOB, msg, s.clock)]
    ensures Step(s, KafkaClaim(0, "b", 1)).rows == map[JOB := UpdatedRow(r, KafkaCopy(msg, s.clock, 1, "b"))]
  {
    hide UpdatedRow, KafkaCopy;
    assert FreshToken(s, "b") && !Locked(s, JOB);
    var r' := UpdatedRow(r, KafkaCopy(msg, s.clock, 1, "b"));
    assert s.rows[JOB := r'] == map[JOB := r'];
  }

  /** The job is claimed, reaped, and claimed again by its late Kafka message. */
  function LateMessageRun(e: Backoff.Engine): seq<Op> {
    ReapedRun(2, 1, 0) + [Deliver(0, JOB, EnqueuedRow(Budget(2), e, 0))] + [KafkaClaim(0, "b", 1)]
  }

  /** Its attempt is 1 again, below the claims it has had. */
  lemma KafkaOvercounts(e: Backoff.Engine)
    ensures var ops := LateMessageRun(e);
      && JOB in Run(e, ops).rows && Run(e, ops).rows[JOB].attempt == 1
      && Count(e, ops, JOB).claims - Count(e, ops, JOB).releases > 1
  {
    hide Step, Count;
    ReapedStates(e, 2, 1, 0);
    var msg, claimed := EnqueuedRow(Budget(2), e, 0), ClaimedJob(e, 2, 1);
    var r := ReapedRow(claimed, claimed, 1);
    assert r.state == PENDING && r.leaseToken.None? && r.attempt == 1;
    var first := ReapedRun(2, 1, 0) + [Deliver(0, JOB, msg)];
    Snoc(e, ReapedRun(2, 1, 0), Deliver(0, JOB, msg));
    DeliverAlone(Run(e, ReapedRun(2, 1, 0)), r, msg);
    Snoc(e, first, KafkaClaim(0, "b", 1));
    KafkaClaimAlone(Run(e, first), r, msg);
    var ops := LateMessageRun(e);
    assert ops[..|ops| - 1] == first;
    assert !UntriedSinceReset(e, ops, JOB);
    Conservation(e, ops, JOB);
  }
}
