/** The lease and fencing protocol: any number of workers, API callers, Kafka
    consumers and reconcilers interleaving statements on one jobs table.

    Each SQL statement is one atomic step, except the two that lock rows before
    they write: ClaimNextJob and RequeueExpiredRunning are split into the select
    that locks with SKIP LOCKED and the update that unlocks. Calls made of several
    statements (Fail, UpdateJob) keep their reads and writes apart.

    A step whose guard fails changes nothing: its statement matched no row, or it
    is still waiting for a row lock. So every sequence of operations is a run, and
    nothing is assumed about how they interleave. */
module LeaseProtocol {
  import opened Wrappers
  import opened Jobs
  import Backoff

  type Session = nat
  type Call = nat

  /** A statement between its SELECT ... FOR UPDATE SKIP LOCKED and its UPDATE. */
  datatype Selection =
    | ClaimSel(id: JobId, claimed: Row, filter: ClaimFilter, lease: Time, at: Time)
    | ReapSel(seen: map<JobId, Row>, at: Time)
  {
    function Ids(): set<JobId> {
      match this
      case ClaimSel(id, _, _, _, _) => {id}
      case ReapSel(seen, _) => seen.Keys
    }
  }

  datatype Decision = Decision(nextRun: Option<Time>, at: Time)

  /** A JobService.Fail call between its read and its fenced write. */
  datatype FailCall = FailCall(
    id: JobId, token: Token, errMsg: string, permanent: bool, read: Row, decision: Option<Decision>)

  /** A Kafka delivery whose UpdateJob has read the row and passed CanTransition. */
  datatype Delivery = Delivery(id: JobId, msg: Row, at: Time)

  datatype Sys = Sys(
    engine: Backoff.Engine,
    clock: Time,
    rows: Table,
    minted: set<Token>,              // every token ever written to a row
    open: map<Session, Selection>,
    fails: map<Call, FailCall>,
    deliveries: map<Call, Delivery>,
    topic: set<(JobId, Row)>)        // messages Kafka may deliver, any number of times

  datatype Op =
    | Tick(elapsed: nat)
    | Create(id: JobId, req: Request)
    | ClaimSelect(session: Session, id: JobId, filter: ClaimFilter, lease: Time)
    | ClaimUpdate(session: Session, token: Token)
    | ReapSelect(session: Session, ids: set<JobId>, limit: nat)
    | ReapUpdate(session: Session)
    | Disconnect(session: Session)
    | Renew(id: JobId, token: Token, lease: Time)
    | Complete(id: JobId, token: Token)
    | Release(id: JobId, token: Token, reason: string, retryAfter: Time)
    | FailRead(call: Call, id: JobId, token: Token, errMsg: string, permanent: bool)
    | FailDecide(call: Call, jitter: real)
    | FailWrite(call: Call)
    | Cancel(tenant: string, id: JobId)
    | Requeue(tenant: string, id: JobId)
    | Prune(ids: set<JobId>, state: JobState, age: Time, sweep: Time, limit: nat)
    | Deliver(call: Call, id: JobId, msg: Row)
    | KafkaClaim(call: Call, token: Token, lease: Time)

  function Init(e: Backoff.Engine): Sys {
    Sys(e, 0, map[], {}, map[], map[], map[], {})
  }

  // ---------- guards ----------

  predicate Locked(s: Sys, id: JobId) {
    exists q :: q in s.open && id in s.open[q].Ids()
  }

  /** A single-row UPDATE can run now: the row exists and nobody has it locked. */
  predicate Writable(s: Sys, id: JobId) { id in s.rows && !Locked(s, id) }

  /** 16 random bytes: never written before, and not yet presented by any caller. */
  predicate FreshToken(s: Sys, token: Token) {
    token != "" && token !in s.minted && forall c :: c in s.fails ==> s.fails[c].token != token
  }

  predicate ClaimSelectOk(s: Sys, id: JobId, filter: ClaimFilter) {
    && Writable(s, id)
    && Claimable(s.rows[id], filter, s.clock)
    && forall other :: other in s.rows && Writable(s, other) && Claimable(s.rows[other], filter, s.clock) ==>
         !Before(s.rows[other], s.rows[id])
  }

  predicate ReapSelectOk(s: Sys, ids: set<JobId>, limit: nat) {
    && |ids| <= limit
    && (forall id :: id in ids ==> Writable(s, id) && Expired(s.rows[id], s.clock))
    && forall other :: other in s.rows && other !in ids && Writable(s, other) && Expired(s.rows[other], s.clock) ==>
         && |ids| == limit
         && forall id :: id in ids ==> s.rows[id].leaseExpiresAt.value <= s.rows[other].leaseExpiresAt.value
  }

  predicate PruneOk(s: Sys, ids: set<JobId>, state: JobState, before: Time, limit: nat) {
    && |ids| <= limit
    && (forall id :: id in ids ==> Writable(s, id) && Prunable(s.rows[id], state, before))
    && forall other :: other in s.rows && other !in ids && Prunable(s.rows[other], state, before) ==>
         && |ids| == limit
         && forall id :: id in ids ==> s.rows[id].completedAt.value <= s.rows[other].completedAt.value
  }

  // ---------- steps ----------

  function Write(s: Sys, id: JobId, r: Row): Sys { s.(rows := s.rows[id := r]) }

  /** The copy of the job a Kafka worker hands to UpdateJob. */
  function KafkaCopy(msg: Row, at: Time, lease: Time, token: Token): Row {
    msg.(attempt := msg.attempt + 1, state := RUNNING, startedAt := Some(at),
         leaseExpiresAt := Some(at + lease), leaseToken := Some(token))
  }

  function Decide(s: Sys, f: FailCall, jitter: real): Decision {
    if !f.permanent && ShouldRetry(s.engine, f.read)
    then Decision(Some(s.clock + Backoff.DelaySpec(s.engine, f.read.attempt, jitter)), s.clock)
    else Decision(None, s.clock)
  }

  function ClaimUpdateStep(s: Sys, q: Session, token: Token): Sys {
    if q in s.open && s.open[q].ClaimSel? && s.open[q].id in s.rows && FreshToken(s, token) then
      var sel := s.open[q];
      s.(rows := s.rows[sel.id := Claimed(s.rows[sel.id], sel.at, sel.lease, token)],
         minted := s.minted + {token}, open := s.open - {q})
    else s
  }

  /** One statement has one NOW(), fixed before its select. */
  function ReapUpdateStep(s: Sys, q: Session): Sys {
    if q in s.open && s.open[q].ReapSel? then
      var ReapSel(seen, at) := s.open[q];
      s.(rows := map id | id in s.rows ::
                   if id in seen then ReapedRow(s.rows[id], seen[id], at) else s.rows[id],
         open := s.open - {q})
    else s
  }

  function FailWriteStep(s: Sys, c: Call): Sys {
    if c in s.fails && s.fails[c].decision.Some? && !Locked(s, s.fails[c].id) then
      var f := s.fails[c];
      var done := s.(fails := s.fails - {c});
      if f.id in s.rows && Fenced(s.rows[f.id], f.token)
      then Write(done, f.id, FailedRow(s.rows[f.id], f.errMsg, f.decision.value.nextRun, s.clock))
      else done
    else s
  }

  function KafkaClaimStep(s: Sys, c: Call, token: Token, lease: Time): Sys {
    if c in s.deliveries && FreshToken(s, token) && !Locked(s, s.deliveries[c].id) then
      var d := s.deliveries[c];
      var done := s.(deliveries := s.deliveries - {c});
      if d.id in s.rows && UpdateFence(s.rows[d.id], RUNNING, token)
      then Write(done, d.id, UpdatedRow(s.rows[d.id], KafkaCopy(d.msg, d.at, lease, token)))
             .(minted := s.minted + {token})
      else done
    else s
  }

  function Step(s: Sys, op: Op): Sys {
    match op
    case Tick(elapsed) => s.(clock := s.clock + elapsed)
    case Create(id, req) =>
      var r := EnqueuedRow(req, s.engine, s.clock);
      if id in s.rows || KeyTaken(s.rows, r.tenant, r.key) then s
      else Write(s, id, r).(topic := s.topic + {(id, r)})
    case ClaimSelect(q, id, filter, lease) =>
      if q !in s.open && ClaimSelectOk(s, id, filter)
      then s.(open := s.open[q := ClaimSel(id, s.rows[id], filter, lease, s.clock)]) else s
    case ClaimUpdate(q, token) => ClaimUpdateStep(s, q, token)
    case ReapSelect(q, ids, limit) =>
      if q !in s.open && ReapSelectOk(s, ids, limit)
      then s.(open := s.open[q := ReapSel(map id | id in ids :: s.rows[id], s.clock)]) else s
    case ReapUpdate(q) => ReapUpdateStep(s, q)
    case Disconnect(q) => s.(open := s.open - {q})
    case Renew(id, token, lease) =>
      if Writable(s, id) && Fenced(s.rows[id], token)
      then Write(s, id, Renewed(s.rows[id], s.clock + lease)) else s
    case Complete(id, token) =>
      if Writable(s, id) && Fenced(s.rows[id], token)
      then Write(s, id, CompletedRow(s.rows[id], s.clock)) else s
    case Release(id, token, reason, retryAfter) =>
      if Writable(s, id) && Fenced(s.rows[id], token)
      then Write(s, id, ReleasedRow(s.rows[id], reason, s.clock + retryAfter)) else s
    case FailRead(c, id, token, errMsg, permanent) =>
      if c !in s.fails && id in s.rows
      then s.(fails := s.fails[c := FailCall(id, token, errMsg, permanent, s.rows[id], None)]) else s
    case FailDecide(c, jitter) =>
      if c in s.fails && s.fails[c].decision.None? && 0.0 <= jitter < 1.0
      then s.(fails := s.fails[c := s.fails[c].(decision := Some(Decide(s, s.fails[c], jitter)))]) else s
    case FailWrite(c) => FailWriteStep(s, c)
    case Cancel(tenant, id) =>
      if Writable(s, id) && Cancellable(s.rows[id], tenant)
      then Write(s, id, CancelledRow(s.rows[id], s.clock)) else s
    case Requeue(tenant, id) =>
      if Writable(s, id) && Requeueable(s.rows[id], tenant)
      then Write(s, id, RequeuedRow(s.rows[id], s.clock)) else s
    case Prune(ids, state, age, sweep, limit) =>
      if age > 0 && sweep <= s.clock && PruneOk(s, ids, state, sweep - age, limit) then s.(rows := s.rows - ids) else s
    case Deliver(c, id, msg) =>
      if c !in s.deliveries && (id, msg) in s.topic && id in s.rows && CanTransition(s.rows[id].state, RUNNING)
      then s.(deliveries := s.deliveries[c := Delivery(id, msg, s.clock)]) else s
    case KafkaClaim(c, token, lease) => KafkaClaimStep(s, c, token, lease)
  }

  // ---------- runs ----------

  function Run(e: Backoff.Engine, ops: seq<Op>): Sys {
    if ops == [] then Init(e) else Step(Run(e, ops[..|ops| - 1]), ops[|ops| - 1])
  }

  /** The state before operation i of a run. */
  function At(e: Backoff.Engine, ops: seq<Op>, i: nat): Sys
    requires i <= |ops|
  {
    Run(e, ops[..i])
  }

  lemma AtStep(e: Backoff.Engine, ops: seq<Op>, i: nat)
    requires i < |ops|
    ensures At(e, ops, i + 1) == Step(At(e, ops, i), ops[i])
  {
    assert ops[..i + 1][..i] == ops[..i];
  }
}
