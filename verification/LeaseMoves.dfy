/** What one step of the lease protocol can do to one row. */
module LeaseMoves {
  import opened Wrappers
  import opened Jobs
  import opened LeaseProtocol
  import opened LeaseInvariant

  /** All the ways a row that stays in the table can change. */
  ghost predicate RowChange(s: Sys, op: Op, id: JobId, r: Row, r': Row) {
    match op
    case ClaimUpdate(q, token) =>
      && q in s.open && s.open[q].ClaimSel? && s.open[q].id == id
      && s.open[q].claimed == r && Claimable(r, s.open[q].filter, s.open[q].at)
      && FreshToken(s, token)
      && r' == Claimed(r, s.open[q].at, s.open[q].lease, token)
    case ReapUpdate(q) =>
      && q in s.open && s.open[q].ReapSel? && id in s.open[q].seen
      && Expired(r, s.open[q].at) && s.open[q].at <= s.clock
      && r' == ReapedRow(r, r, s.open[q].at)
    case Renew(i, token, lease) =>
      i == id && Fenced(r, token) && r' == Renewed(r, s.clock + lease)
    case Complete(i, token) =>
      i == id && Fenced(r, token) && r' == CompletedRow(r, s.clock)
    case Release(i, token, reason, retryAfter) =>
      i == id && Fenced(r, token) && r' == ReleasedRow(r, reason, s.clock + retryAfter)
    case FailWrite(c) =>
      && c in s.fails && s.fails[c].id == id && s.fails[c].decision.Some?
      && Fenced(r, s.fails[c].token) && FailOk(s, s.fails[c])
      && r' == FailedRow(r, s.fails[c].errMsg, s.fails[c].decision.value.nextRun, s.clock)
    case Cancel(tenant, i) =>
      i == id && Cancellable(r, tenant) && r' == CancelledRow(r, s.clock)
    case Requeue(tenant, i) =>
      i == id && Requeueable(r, tenant) && r' == RequeuedRow(r, s.clock)
    case KafkaClaim(c, token, lease) =>
      && c in s.deliveries && s.deliveries[c].id == id && MessageOk(s.deliveries[c].msg)
      && r.state == PENDING && r.leaseToken.None? && FreshToken(s, token)
      && r' == UpdatedRow(r, KafkaCopy(s.deliveries[c].msg, s.deliveries[c].at, lease, token))
    case _ => false
  }

  /** A row goes away only when retention takes it. */
  ghost predicate RowGone(s: Sys, op: Op, id: JobId, r: Row) {
    && op.Prune? && id in op.ids && op.age > 0 && op.sweep <= s.clock
    && Prunable(r, op.state, op.sweep - op.age)
  }

  /** Everything step `op` may do to row id. */
  ghost predicate Explained(s: Sys, op: Op, id: JobId) {
    var s' := Step(s, op);
    && (id in s.rows && id in s'.rows ==>
          s'.rows[id] == s.rows[id] || RowChange(s, op, id, s.rows[id], s'.rows[id]))
    && (id in s.rows && id !in s'.rows ==> RowGone(s, op, id, s.rows[id]))
    && (id !in s.rows && id in s'.rows ==>
          op.Create? && op.id == id && s'.rows[id] == EnqueuedRow(op.req, s.engine, s.clock))
  }

  lemma StepRow(s: Sys, op: Op, id: JobId)
    requires Inv(s)
    ensures Explained(s, op, id)
  {
    hide Explained, RowsOk, TokensOk, KafkaOk, OpenOk, FailsOk, Step;
    match op {
      case ClaimUpdate(q, token) => ExplainClaim(s, q, token, id);
      case ReapUpdate(q) => ExplainReap(s, q, id);
      case KafkaClaim(c, token, lease) => ExplainKafka(s, c, token, lease, id);
      case FailWrite(c) => ExplainFail(s, c, id);
      case Tick(_) => ExplainRest(s, op, id);
      case Create(_, _) => ExplainRest(s, op, id);
      case Prune(_, _, _, _, _) => ExplainRest(s, op, id);
      case Renew(_, _, _) => ExplainStatement(s, op, id);
      case Complete(_, _) => ExplainStatement(s, op, id);
      case Release(_, _, _, _) => ExplainStatement(s, op, id);
      case Cancel(_, _) => ExplainStatement(s, op, id);
      case Requeue(_, _) => ExplainStatement(s, op, id);
      case _ => ExplainNoWrite(s, op, id);
    }
  }

  lemma ExplainStatement(s: Sys, op: Op, id: JobId)
    requires op.Renew? || op.Complete? || op.Release? || op.Cancel? || op.Requeue?
    ensures Explained(s, op, id)
  {
    hide Renewed, CompletedRow, ReleasedRow, CancelledRow, RequeuedRow, Cancellable, Requeueable, Fenced, Locked;
  }

  lemma ExplainRest(s: Sys, op: Op, id: JobId)
    requires op.Tick? || op.Create? || op.Prune?
    ensures Explained(s, op, id)
  {
    hide EnqueuedRow, KeyTaken, Locked, RowChange;
  }

  lemma ExplainNoWrite(s: Sys, op: Op, id: JobId)
    requires op.ClaimSelect? || op.ReapSelect? || op.Disconnect? || op.FailRead? || op.FailDecide? || op.Deliver?
    ensures Explained(s, op, id)
  {
    hide RowChange, ClaimSelectOk, ReapSelectOk, Decide;
  }

  lemma ExplainClaim(s: Sys, q: Session, token: Token, id: JobId)
    requires Inv(s)
    ensures Explained(s, ClaimUpdate(q, token), id)
  {
    hide RowsOk, TokensOk, KafkaOk, OpenOk, FailsOk, Claimed, Claimable, FreshToken;
    ClaimRow(s, q, token);
  }

  lemma ExplainReap(s: Sys, q: Session, id: JobId)
    requires Inv(s)
    ensures Explained(s, ReapUpdate(q), id)
  {
    hide RowsOk, TokensOk, KafkaOk, OpenOk, FailsOk, ReapedRow, Expired;
    ReapRow(s, q, id);
  }

  lemma ExplainFail(s: Sys, c: Call, id: JobId)
    requires Inv(s)
    ensures Explained(s, FailWrite(c), id)
  {
    hide RowsOk, TokensOk, KafkaOk, OpenOk, FailOk, FailedRow, Fenced, Locked;
  }

  lemma ExplainKafka(s: Sys, c: Call, token: Token, lease: Time, id: JobId)
    requires Inv(s)
    ensures Explained(s, KafkaClaim(c, token, lease), id)
  {
    hide RowsOk, TokensOk, KafkaOk, OpenOk, FailsOk, UpdatedRow, KafkaCopy, UpdateFence, FreshToken, MessageOk, Locked;
    KafkaRow(s, c, token, id);
  }

  lemma ClaimRow(s: Sys, q: Session, token: Token)
    requires Inv(s)
    ensures q in s.open && s.open[q].ClaimSel? ==>
      var sel := s.open[q];
      sel.id in s.rows && s.rows[sel.id] == sel.claimed && Claimable(sel.claimed, sel.filter, sel.at)
  {
    if q in s.open { assert SelectionOk(s, s.open[q]); }
  }

  lemma ReapRow(s: Sys, q: Session, id: JobId)
    requires Inv(s)
    ensures q in s.open && s.open[q].ReapSel? && id in s.open[q].seen ==>
      && id in s.rows && s.rows[id] == s.open[q].seen[id]
      && Expired(s.rows[id], s.open[q].at) && s.open[q].at <= s.clock
  {
    if q in s.open { assert SelectionOk(s, s.open[q]); }
  }

  lemma KafkaRow(s: Sys, c: Call, token: Token, id: JobId)
    requires Inv(s)
    ensures c in s.deliveries ==> MessageOk(s.deliveries[c].msg)
    ensures id in s.rows && FreshToken(s, token) && UpdateFence(s.rows[id], RUNNING, token) ==>
      s.rows[id].state == PENDING && s.rows[id].leaseToken.None?
  {
    hide RowOk, MessageOk, OpenOk, FailsOk;
  }
}
