/** The inductive invariant of the lease protocol, kept by every step. */
module LeaseInvariant {
  import opened Wrappers
  import opened Jobs
  import opened LeaseProtocol
  import Backoff

  /** What every stored row satisfies at time `now`. */
  predicate RowOk(r: Row, now: Time) {
    && r.state != FAILED
    && (r.state == RUNNING <==> r.leaseToken.Some?)
    && (r.state == RUNNING <==> r.leaseExpiresAt.Some?)
    && (r.state == RUNNING <==> r.startedAt.Some?)
    && (Terminal(r.state) <==> r.completedAt.Some?)
    && (r.completedAt.Some? ==> r.completedAt.value <= now)
    && r.maxRetries >= 1
    && 0 <= r.attempt <= r.maxRetries
    && (r.state == PENDING ==> r.attempt < r.maxRetries)
    && (r.state == RUNNING ==> r.attempt >= 1)
  }

  ghost predicate RowsOk(s: Sys) {
    forall id :: id in s.rows ==> RowOk(s.rows[id], s.clock)
  }

  /** Tokens on rows were minted, and no two rows share one. */
  ghost predicate TokensOk(s: Sys) {
    && (forall id :: id in s.rows && s.rows[id].leaseToken.Some? ==> s.rows[id].leaseToken.value in s.minted)
    && (forall id, other :: id in s.rows && other in s.rows && id != other && s.rows[id].leaseToken.Some? ==>
          s.rows[id].leaseToken != s.rows[other].leaseToken)
  }

  /** A locked row is exactly what the select that locked it saw. */
  predicate SelectionOk(s: Sys, sel: Selection) {
    && sel.at <= s.clock
    && match sel
       case ClaimSel(id, claimed, filter, _, at) =>
         id in s.rows && s.rows[id] == claimed && Claimable(claimed, filter, at)
       case ReapSel(seen, at) =>
         forall id :: id in seen ==> id in s.rows && s.rows[id] == seen[id] && Expired(seen[id], at)
  }

  ghost predicate OpenOk(s: Sys) {
    && (forall q :: q in s.open ==> SelectionOk(s, s.open[q]))
    && (forall q, p :: q in s.open && p in s.open && q != p ==> s.open[q].Ids() !! s.open[p].Ids())
  }

  predicate SameButLease(r: Row, read: Row) { r == read.(leaseExpiresAt := r.leaseExpiresAt) }

  /** While the token a Fail call presents is still on the row, the row is what the
      call read, but for lease renewals. */
  ghost predicate FailOk(s: Sys, f: FailCall) {
    && (f.id in s.rows && s.rows[f.id].leaseToken == Some(f.token) ==> SameButLease(s.rows[f.id], f.read))
    && (f.decision.Some? ==> FailDecided(s.engine, f, s.clock))
  }

  /** The delay is what the backoff policy gives for some draw. */
  ghost predicate OnPolicy(e: Backoff.Engine, attempt: int, at: Time, next: Time) {
    exists draw :: 0.0 <= draw < 1.0 && next == at + Backoff.Stretched(e, attempt, draw).Floor
  }

  /** The decision follows the policy applied to the row that was read. */
  ghost predicate FailDecided(e: Backoff.Engine, f: FailCall, now: Time)
    requires f.decision.Some?
  {
    var d := f.decision.value;
    && d.at <= now
    && (d.nextRun.Some? <==> !f.permanent && ShouldRetry(e, f.read))
    && (d.nextRun.Some? && e.Normal() ==>
          && d.at + e.baseDelay <= d.nextRun.value <= d.at + e.maxDelay
          && OnPolicy(e, f.read.attempt, d.at, d.nextRun.value))
  }

  ghost predicate FailsOk(s: Sys) {
    forall c :: c in s.fails ==> FailOk(s, s.fails[c])
  }

  /** Kafka carries copies of jobs as they were enqueued. */
  predicate MessageOk(msg: Row) {
    msg.attempt == 0 && msg.state == PENDING && msg.completedAt.None?
  }

  ghost predicate KafkaOk(s: Sys) {
    && (forall id, msg :: (id, msg) in s.topic ==> MessageOk(msg))
    && (forall c :: c in s.deliveries ==> MessageOk(s.deliveries[c].msg) && s.deliveries[c].at <= s.clock)
  }

  ghost predicate Inv(s: Sys) {
    RowsOk(s) && TokensOk(s) && OpenOk(s) && FailsOk(s) && KafkaOk(s)
  }

  // ---------- frames ----------

  /** Selections still open after the change find their rows as they left them. */
  lemma OpenFrame(s: Sys, s': Sys)
    requires OpenOk(s) && s.clock <= s'.clock
    requires forall q :: q in s'.open ==> q in s.open && s'.open[q] == s.open[q]
    requires forall q, id :: q in s'.open && id in s'.open[q].Ids() && id in s.rows ==>
               id in s'.rows && s'.rows[id] == s.rows[id]
    ensures OpenOk(s')
  {
    hide Claimable, Expired;
    forall q | q in s'.open ensures SelectionOk(s', s'.open[q]) {
      assert SelectionOk(s, s.open[q]);
    }
  }

  /** A write that drops the row's token, or keeps it and moves only the lease expiry. */
  predicate TokenDropped(r: Row, r': Row) {
    r'.leaseToken.None? || (r'.leaseToken == r.leaseToken && SameButLease(r', r))
  }

  /** A row's token is new to every Fail call in flight. */
  ghost predicate Unpresented(s: Sys, r: Row) {
    forall c :: c in s.fails ==> r.leaseToken != Some(s.fails[c].token)
  }

  lemma FailFrame(s: Sys, s': Sys)
    requires FailsOk(s) && s.clock <= s'.clock && s'.engine == s.engine
    requires forall c :: c in s'.fails ==> c in s.fails && s'.fails[c] == s.fails[c]
    requires forall id :: id in s'.rows ==>
               (id in s.rows && TokenDropped(s.rows[id], s'.rows[id])) || Unpresented(s, s'.rows[id])
    ensures FailsOk(s')
  {
    forall c | c in s'.fails ensures FailOk(s', s'.fails[c]) {
      assert FailOk(s, s.fails[c]);
    }
  }

  // ---------- one row written ----------

  lemma WriteKeeps(s: Sys, id: JobId, r: Row)
    requires Inv(s) && Writable(s, id)
    requires RowOk(r, s.clock) && TokenDropped(s.rows[id], r)
    ensures Inv(Write(s, id, r))
  {
    hide RowOk, MessageOk, SelectionOk, FailOk;
    OpenFrame(s, Write(s, id, r));
    FailFrame(s, Write(s, id, r));
  }

  lemma MintKeeps(s: Sys, id: JobId, r: Row, token: Token)
    requires Inv(s) && Writable(s, id) && FreshToken(s, token)
    requires RowOk(r, s.clock) && r.leaseToken == Some(token)
    ensures Inv(Write(s, id, r).(minted := s.minted + {token}))
  {
    hide RowOk, MessageOk, SelectionOk, FailOk;
    OpenFrame(s, Write(s, id, r).(minted := s.minted + {token}));
    FailFrame(s, Write(s, id, r).(minted := s.minted + {token}));
  }

  /** Closing a selection keeps the invariant and frees its rows. */
  lemma CloseKeeps(s: Sys, q: Session)
    requires Inv(s)
    ensures Inv(s.(open := s.open - {q}))
    ensures q in s.open ==> forall id :: id in s.open[q].Ids() ==> !Locked(s.(open := s.open - {q}), id)
  {
    hide RowOk, MessageOk, SelectionOk, FailOk;
    OpenFrame(s, s.(open := s.open - {q}));
    FailFrame(s, s.(open := s.open - {q}));
  }

  // ---------- each step ----------

  lemma TickKeeps(s: Sys, elapsed: nat)
    requires Inv(s)
    ensures Inv(s.(clock := s.clock + elapsed))
  {
    hide MessageOk, SelectionOk, FailOk;
    OpenFrame(s, s.(clock := s.clock + elapsed));
    FailFrame(s, s.(clock := s.clock + elapsed));
  }

  lemma EnqueuedOk(req: Request, e: Backoff.Engine, now: Time)
    ensures RowOk(EnqueuedRow(req, e, now), now) && MessageOk(EnqueuedRow(req, e, now))
    ensures EnqueuedRow(req, e, now).leaseToken.None?
  {
  }

  lemma CreateKeeps(s: Sys, id: JobId, r: Row)
    requires Inv(s) && id !in s.rows
    requires RowOk(r, s.clock) && MessageOk(r) && r.leaseToken.None?
    ensures Inv(Write(s, id, r).(topic := s.topic + {(id, r)}))
  {
    hide RowOk, MessageOk, SelectionOk, FailOk;
    OpenFrame(s, Write(s, id, r).(topic := s.topic + {(id, r)}));
    FailFrame(s, Write(s, id, r).(topic := s.topic + {(id, r)}));
  }

  lemma SelectKeeps(s: Sys, q: Session, sel: Selection)
    requires Inv(s) && q !in s.open && SelectionOk(s, sel)
    requires forall id :: id in sel.Ids() ==> !Locked(s, id)
    ensures Inv(s.(open := s.open[q := sel]))
  {
    hide RowOk, Claimable, Expired, FailOk, MessageOk;
    var s' := s.(open := s.open[q := sel]);
    forall p | p in s'.open ensures SelectionOk(s', s'.open[p]) {
      assert p != q ==> SelectionOk(s, s.open[p]);
    }
    assert OpenOk(s');
    FailFrame(s, s');
  }

  lemma ClaimUpdateKeeps(s: Sys, q: Session, token: Token)
    requires Inv(s)
    ensures Inv(ClaimUpdateStep(s, q, token))
  {
    if q in s.open && s.open[q].ClaimSel? && s.open[q].id in s.rows && FreshToken(s, token) {
      var sel := s.open[q];
      var closed := s.(open := s.open - {q});
      CloseKeeps(s, q);
      assert SelectionOk(s, sel);
      MintKeeps(closed, sel.id, Claimed(s.rows[sel.id], sel.at, sel.lease, token), token);
    }
  }

  lemma ReapedOk(r: Row, at: Time, now: Time)
    requires RowOk(r, now) && r.state == RUNNING && at <= now
    ensures RowOk(ReapedRow(r, r, at), now) && ReapedRow(r, r, at).leaseToken.None?
  {
  }

  /** Any number of unlocked rows may drop their tokens in one statement. */
  lemma BatchKeeps(s: Sys, rows: Table)
    requires Inv(s) && rows.Keys == s.rows.Keys
    requires forall id :: id in rows ==>
      rows[id] == s.rows[id] || (!Locked(s, id) && RowOk(rows[id], s.clock) && rows[id].leaseToken.None?)
    ensures Inv(s.(rows := rows))
  {
    hide RowOk, MessageOk, SelectionOk, FailOk;
    OpenFrame(s, s.(rows := rows));
    FailFrame(s, s.(rows := rows));
  }

  lemma ReapUpdateKeeps(s: Sys, q: Session)
    requires Inv(s)
    ensures Inv(ReapUpdateStep(s, q))
  {
    hide RowOk, ReapedRow, Claimable, TokensOk, FailsOk, KafkaOk;
    if q in s.open && s.open[q].ReapSel? {
      var seen, rows := s.open[q].seen, ReapUpdateStep(s, q).rows;
      CloseKeeps(s, q);
      assert SelectionOk(s, s.open[q]);
      forall id | id in seen ensures RowOk(rows[id], s.clock) && rows[id].leaseToken.None? {
        ReapedOk(s.rows[id], s.open[q].at, s.clock);
      }
      BatchKeeps(s.(open := s.open - {q}), rows);
    }
  }

  lemma PruneKeeps(s: Sys, ids: set<JobId>)
    requires Inv(s)
    requires forall id :: id in ids ==> Writable(s, id)
    ensures Inv(s.(rows := s.rows - ids))
  {
    hide RowOk, MessageOk, SelectionOk, FailOk;
    OpenFrame(s, s.(rows := s.rows - ids));
    FailFrame(s, s.(rows := s.rows - ids));
  }

  lemma FailCallKeeps(s: Sys, c: Call, f: FailCall)
    requires Inv(s) && FailOk(s, f)
    ensures Inv(s.(fails := s.fails[c := f]))
  {
    hide RowOk, MessageOk, SelectionOk, FailDecided;
    var s' := s.(fails := s.fails[c := f]);
    OpenFrame(s, s');
    forall d | d in s'.fails ensures FailOk(s', s'.fails[d]) {
      assert d != c ==> FailOk(s, s.fails[d]);
    }
  }

  /** Dropping a finished call keeps the invariant. */
  lemma CallDoneKeeps(s: Sys, c: Call)
    requires Inv(s)
    ensures Inv(s.(fails := s.fails - {c}))
    ensures Inv(s.(deliveries := s.deliveries - {c}))
  {
    hide RowOk, MessageOk, SelectionOk, FailOk;
    OpenFrame(s, s.(fails := s.fails - {c}));
    FailFrame(s, s.(fails := s.fails - {c}));
    OpenFrame(s, s.(deliveries := s.deliveries - {c}));
    FailFrame(s, s.(deliveries := s.deliveries - {c}));
  }

  lemma FailDecideOk(s: Sys, c: Call, jitter: real)
    requires Inv(s) && c in s.fails && 0.0 <= jitter < 1.0
    ensures FailOk(s, s.fails[c].(decision := Some(Decide(s, s.fails[c], jitter))))
  {
    assert FailOk(s, s.fails[c]);
    if s.engine.Normal() {
      var attempt := s.fails[c].read.attempt;
      Backoff.DelayBounds(s.engine, attempt, attempt, jitter);
      Backoff.DelayLaw(s.engine, attempt, jitter);
      assert OnPolicy(s.engine, attempt, s.clock, s.clock + Backoff.Stretched(s.engine, attempt, jitter).Floor);
    }
  }

  lemma FailWriteKeeps(s: Sys, c: Call)
    requires Inv(s)
    ensures Inv(FailWriteStep(s, c))
  {
    if c in s.fails && s.fails[c].decision.Some? && !Locked(s, s.fails[c].id) {
      var f := s.fails[c];
      CallDoneKeeps(s, c);
      if f.id in s.rows && Fenced(s.rows[f.id], f.token) {
        assert FailOk(s, f);
        assert RowOk(s.rows[f.id], s.clock);
        var r := FailedRow(s.rows[f.id], f.errMsg, f.decision.value.nextRun, s.clock);
        assert RowOk(r, s.clock);
        WriteKeeps(s.(fails := s.fails - {c}), f.id, r);
      }
    }
  }

  lemma DeliverKeeps(s: Sys, c: Call, d: Delivery)
    requires Inv(s) && MessageOk(d.msg) && d.at <= s.clock
    ensures Inv(s.(deliveries := s.deliveries[c := d]))
  {
    hide RowOk, MessageOk, SelectionOk, FailOk;
    OpenFrame(s, s.(deliveries := s.deliveries[c := d]));
    FailFrame(s, s.(deliveries := s.deliveries[c := d]));
  }

  lemma KafkaClaimKeeps(s: Sys, c: Call, token: Token, lease: Time)
    requires Inv(s)
    ensures Inv(KafkaClaimStep(s, c, token, lease))
  {
    if c in s.deliveries && FreshToken(s, token) && !Locked(s, s.deliveries[c].id) {
      var d := s.deliveries[c];
      CallDoneKeeps(s, c);
      if d.id in s.rows && UpdateFence(s.rows[d.id], RUNNING, token) {
        assert RowOk(s.rows[d.id], s.clock);
        var r := UpdatedRow(s.rows[d.id], KafkaCopy(d.msg, d.at, lease, token));
        assert RowOk(r, s.clock);
        MintKeeps(s.(deliveries := s.deliveries - {c}), d.id, r, token);
      }
    }
  }

  /** The rows that the single-row statements write. */
  lemma WritesOk(r: Row, now: Time, msg: string, t: Time)
    requires RowOk(r, now)
    ensures r.state == RUNNING ==>
      RowOk(Renewed(r, t), now) && RowOk(CompletedRow(r, now), now) && RowOk(ReleasedRow(r, msg, t), now)
    ensures r.state == PENDING || r.state == RUNNING ==> RowOk(CancelledRow(r, now), now)
    ensures RowOk(RequeuedRow(r, now), now)
    ensures TokenDropped(r, Renewed(r, t)) && TokenDropped(r, CompletedRow(r, now)) && TokenDropped(r, ReleasedRow(r, msg, t))
    ensures TokenDropped(r, CancelledRow(r, now)) && TokenDropped(r, RequeuedRow(r, now))
  {
  }

  lemma StatementKeeps(s: Sys, op: Op)
    requires Inv(s)
    requires op.Renew? || op.Complete? || op.Release? || op.Cancel? || op.Requeue?
    ensures Inv(Step(s, op))
  {
    hide RowsOk, TokensOk, OpenOk, FailsOk, KafkaOk, Locked, TokenDropped, RowOk;
    hide Renewed, CompletedRow, ReleasedRow, CancelledRow, RequeuedRow;
    if Writable(s, op.id) {
      var r := s.rows[op.id];
      RowAt(s, op.id);
      assert r.state != FAILED by { NeverFailed(r, s.clock); }
      match op {
        case Renew(id, token, lease) =>
          WritesOk(r, s.clock, "", s.clock + lease);
          if Fenced(r, token) { WriteKeeps(s, id, Renewed(r, s.clock + lease)); }
        case Complete(id, token) =>
          WritesOk(r, s.clock, "", 0);
          if Fenced(r, token) { WriteKeeps(s, id, CompletedRow(r, s.clock)); }
        case Release(id, token, reason, retryAfter) =>
          WritesOk(r, s.clock, reason, s.clock + retryAfter);
          if Fenced(r, token) { WriteKeeps(s, id, ReleasedRow(r, reason, s.clock + retryAfter)); }
        case Cancel(tenant, id) =>
          WritesOk(r, s.clock, "", 0);
          if Cancellable(r, tenant) { WriteKeeps(s, id, CancelledRow(r, s.clock)); }
        case Requeue(tenant, id) =>
          WritesOk(r, s.clock, "", 0);
          if Requeueable(r, tenant) { WriteKeeps(s, id, RequeuedRow(r, s.clock)); }
      }
    }
  }

  lemma NeverFailed(r: Row, now: Time)
    requires RowOk(r, now)
    ensures r.state != FAILED
  {
  }

  lemma RowAt(s: Sys, id: JobId)
    requires RowsOk(s) && id in s.rows
    ensures RowOk(s.rows[id], s.clock)
  {
  }

  lemma StepKeeps(s: Sys, op: Op)
    requires Inv(s)
    ensures Inv(Step(s, op)) && Step(s, op).engine == s.engine
  {
    hide RowOk, MessageOk, RowsOk, EnqueuedRow, TokensOk, OpenOk, FailsOk, KafkaOk, Claimable, Expired;
    hide ClaimUpdateStep, ReapUpdateStep, FailWriteStep, KafkaClaimStep;
    StepEngine(s, op);
    match op {
      case Tick(elapsed) => TickKeeps(s, elapsed);
      case Create(id, req) =>
        EnqueuedOk(req, s.engine, s.clock);
        if id !in s.rows { CreateKeeps(s, id, EnqueuedRow(req, s.engine, s.clock)); }
      case ClaimSelect(q, id, filter, lease) =>
        if q !in s.open && ClaimSelectOk(s, id, filter) {
          SelectKeeps(s, q, ClaimSel(id, s.rows[id], filter, lease, s.clock));
        }
      case ClaimUpdate(q, token) => ClaimUpdateKeeps(s, q, token);
      case ReapSelect(q, ids, limit) =>
        if q !in s.open && ReapSelectOk(s, ids, limit) {
          SelectKeeps(s, q, ReapSel(map id | id in ids :: s.rows[id], s.clock));
        }
      case ReapUpdate(q) => ReapUpdateKeeps(s, q);
      case Disconnect(q) => CloseKeeps(s, q);
      case Renew(_, _, _) => StatementKeeps(s, op);
      case Complete(_, _) => StatementKeeps(s, op);
      case Release(_, _, _, _) => StatementKeeps(s, op);
      case FailRead(c, id, token, errMsg, permanent) =>
        if c !in s.fails && id in s.rows {
          FailCallKeeps(s, c, FailCall(id, token, errMsg, permanent, s.rows[id], None));
        }
      case FailDecide(c, jitter) =>
        if c in s.fails && s.fails[c].decision.None? && 0.0 <= jitter < 1.0 {
          FailDecideOk(s, c, jitter);
          FailCallKeeps(s, c, s.fails[c].(decision := Some(Decide(s, s.fails[c], jitter))));
        }
      case FailWrite(c) => FailWriteKeeps(s, c);
      case Cancel(_, _) => StatementKeeps(s, op);
      case Requeue(_, _) => StatementKeeps(s, op);
      case Prune(ids, state, age, sweep, limit) =>
        if age > 0 && sweep <= s.clock && PruneOk(s, ids, state, sweep - age, limit) {
          PruneKeeps(s, ids);
        }
      case Deliver(c, id, msg) =>
        if c !in s.deliveries && (id, msg) in s.topic && id in s.rows {
          assert MessageOk(msg) by { TopicMessage(s, id, msg); }
          DeliverKeeps(s, c, Delivery(id, msg, s.clock));
        }
      case KafkaClaim(c, token, lease) => KafkaClaimKeeps(s, c, token, lease);
    }
  }

  lemma TopicMessage(s: Sys, id: JobId, msg: Row)
    requires KafkaOk(s) && (id, msg) in s.topic
    ensures MessageOk(msg)
  {
  }

  lemma StepEngine(s: Sys, op: Op)
    ensures Step(s, op).engine == s.engine
  {
  }

  lemma InitInv(e: Backoff.Engine)
    ensures Inv(Init(e))
  {
  }

  /** The invariant holds in every state of every run. */
  lemma {:induction false} RunInv(e: Backoff.Engine, ops: seq<Op>)
    ensures Inv(Run(e, ops)) && Run(e, ops).engine == e
  {
    hide Step, RowsOk, TokensOk, OpenOk, FailsOk, KafkaOk;
    if ops == [] {
      InitInv(e);
    } else {
      RunInv(e, ops[..|ops| - 1]);
      StepKeeps(Run(e, ops[..|ops| - 1]), ops[|ops| - 1]);
    }
  }
}
