/** The delay of a release over whole runs: a job handed back is left alone until the
    delay has passed, and can be had from then on. */
module ReleaseDelay {
  import opened Wrappers
  import opened Jobs
  import opened LeaseProtocol
  import opened LeaseInvariant
  import opened LeaseMoves
  import opened ClaimOrder
  import opened Statements
  import Lifecycle
  import Backoff

  /** The step starts the row's life again: a requeue, a Kafka claim, or a creation. */
  ghost predicate Restarts(s: Sys, op: Op, id: JobId) {
    || (op.Requeue? && op.id == id)
    || (op.KafkaClaim? && op.call in s.deliveries && s.deliveries[op.call].id == id)
    || (op.Create? && op.id == id)
  }

  /** Nobody can have claimed the row since its release, or the delay is over for all. */
  ghost predicate HeldBack(s: Sys, id: JobId, due: Time) {
    || id !in s.rows
    || Terminal(s.rows[id].state)
    || (s.rows[id].state == PENDING && s.rows[id].scheduledAt == Some(due))
    || (s.clock >= due && LateSelects(s, id, due))
  }

  /** Every select that has the row started when it was due. */
  ghost predicate LateSelects(s: Sys, id: JobId, due: Time) {
    forall q :: q in s.open && s.open[q].ClaimSel? && s.open[q].id == id ==> s.open[q].at >= due
  }

  /** While a row is held back, a select that has it was not early. */
  lemma SelectNotEarly(s: Sys, id: JobId, due: Time, q: Session)
    requires Inv(s) && HeldBack(s, id, due) && q in s.open && s.open[q].ClaimSel? && s.open[q].id == id
    ensures s.open[q].at >= due && s.clock >= due
  {
    hide RowsOk, TokensOk, FailsOk, KafkaOk;
    assert SelectionOk(s, s.open[q]);
  }

  lemma HeldBackStep(s: Sys, op: Op, id: JobId, due: Time)
    requires Inv(s) && HeldBack(s, id, due) && !Restarts(s, op, id)
    ensures HeldBack(Step(s, op), id, due)
  {
    hide Step, RowsOk, TokensOk, OpenOk, FailsOk, KafkaOk, FailOk;
    var s' := Step(s, op);
    StepRow(s, op, id);
    Lifecycle.ClockStep(s, op);
    SelectsForward(s, op, id, due);
    if id in s.rows { RowAt(s, id); }
    if op.ClaimUpdate? && op.session in s.open && s.open[op.session].ClaimSel? && s.open[op.session].id == id {
      SelectNotEarly(s, id, due, op.session);
      LoneSelect(s, op.session, op.token, id, due);
    }
  }

  /** A select that starts now is not early once the delay is over. */
  lemma SelectsForward(s: Sys, op: Op, id: JobId, due: Time)
    ensures s.clock >= due && LateSelects(s, id, due) ==> LateSelects(Step(s, op), id, due)
  {
    hide Step;
    if s.clock >= due && LateSelects(s, id, due) {
      forall q | q in Step(s, op).open && Step(s, op).open[q].ClaimSel? && Step(s, op).open[q].id == id
        ensures Step(s, op).open[q].at >= due
      {
        OpenStep(s, op, q);
      }
    }
  }

  /** Once the claim lands, no other select has the row. */
  lemma LoneSelect(s: Sys, q: Session, token: Token, id: JobId, due: Time)
    requires Inv(s) && q in s.open && s.open[q].ClaimSel? && s.open[q].id == id
    ensures Step(s, ClaimUpdate(q, token)) == s || LateSelects(Step(s, ClaimUpdate(q, token)), id, due)
  {
    hide RowsOk, TokensOk, FailsOk, KafkaOk, FreshToken, SelectionOk;
    forall p | p in s.open && p != q && s.open[p].ClaimSel? ensures s.open[p].id != id {
      assert id in s.open[q].Ids() && s.open[p].id in s.open[p].Ids();
    }
  }

  // ---------- whole runs ----------

  /** A release of the row lands at step i. */
  ghost predicate ReleasedAt(e: Backoff.Engine, ops: seq<Op>, i: nat, id: JobId) {
    i < |ops| && ops[i].Release? && ops[i].id == id && Holds(At(e, ops, i), id, ops[i].token)
  }

  ghost predicate NoRestart(e: Backoff.Engine, ops: seq<Op>, i: nat, j: nat, id: JobId) {
    forall k :: i <= k < j && k < |ops| ==> !Restarts(At(e, ops, k), ops[k], id)
  }

  lemma {:induction false} StaysHeldBack(e: Backoff.Engine, ops: seq<Op>, i: nat, j: nat, id: JobId, due: Time)
    requires i <= j <= |ops| && HeldBack(At(e, ops, i), id, due) && NoRestart(e, ops, i, j, id)
    ensures HeldBack(At(e, ops, j), id, due)
    decreases j
  {
    hide Run, Step, HeldBack, Inv, Restarts;
    if i < j {
      StaysHeldBack(e, ops, i, j - 1, id, due);
      RunInv(e, ops[..j - 1]);
      AtStep(e, ops, j - 1);
      HeldBackStep(At(e, ops, j - 1), ops[j - 1], id, due);
    }
  }

  lemma ReleasedIsHeldBack(e: Backoff.Engine, ops: seq<Op>, i: nat, id: JobId)
    requires ReleasedAt(e, ops, i, id)
    ensures id in At(e, ops, i + 1).rows
    ensures var r, due := At(e, ops, i + 1).rows[id], At(e, ops, i).clock + ops[i].retryAfter;
      r.state == PENDING && r.scheduledAt == Some(due) && HeldBack(At(e, ops, i + 1), id, due)
  {
    hide Run, Step, Inv;
    RunInv(e, ops[..i]);
    AtStep(e, ops, i);
    ReleaseWrites(At(e, ops, i), id, ops[i].token, ops[i].reason, ops[i].retryAfter);
  }

  /** After a release that landed at clock t, no claim of the job lands whose select came
      before t + retryAfter, unless the job's life started again in between. */
  lemma NotClaimedEarly(e: Backoff.Engine, ops: seq<Op>, i: nat, j: nat, id: JobId, q: Session, token: Token)
    requires ReleasedAt(e, ops, i, id) && i < j < |ops| && NoRestart(e, ops, i + 1, j, id)
    requires ops[j] == ClaimUpdate(q, token) && ClaimLands(At(e, ops, j), q, token) && At(e, ops, j).open[q].id == id
    ensures At(e, ops, j).open[q].at >= At(e, ops, i).clock + ops[i].retryAfter
  {
    hide Run, Step, HeldBack, Inv, Restarts, FreshToken;
    var due := At(e, ops, i).clock + ops[i].retryAfter;
    ReleasedIsHeldBack(e, ops, i, id);
    StaysHeldBack(e, ops, i + 1, j, id, due);
    RunInv(e, ops[..j]);
    SelectNotEarly(At(e, ops, j), id, due, q);
  }

  /** And as long as the released row has not changed, it is ready for a claim without a
      filter if and only if t + retryAfter has come. */
  lemma ReadyFromThenOn(e: Backoff.Engine, ops: seq<Op>, i: nat, j: nat, id: JobId)
    requires ReleasedAt(e, ops, i, id) && i < j <= |ops|
    requires id in At(e, ops, i + 1).rows && id in At(e, ops, j).rows && At(e, ops, j).rows[id] == At(e, ops, i + 1).rows[id]
    ensures Ready(At(e, ops, j).rows[id], ClaimFilter("", [], []), At(e, ops, j).clock) <==>
      At(e, ops, j).clock >= At(e, ops, i).clock + ops[i].retryAfter
  {
    hide Run, Step, HeldBack;
    ReleasedIsHeldBack(e, ops, i, id);
  }
}
