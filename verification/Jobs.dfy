/** The jobs table: its rows, and what each SQL statement of internal/store writes
    to a row. A timestamp column keeps microseconds; only created_at, which listings
    sort and encode by, is cut to them here. Payload, metadata, timeouts and updated_at are not part of the model. */
module Jobs {
  import opened Wrappers
  import opened Durations
  import Backoff

  type JobId = string
  type Token = string
  type Time = int

  const ANY_TENANT := ""
  const DEFAULT_TENANT := "default"
  const DEFAULT_QUEUE := "default"

  datatype JobState = PENDING | RUNNING | COMPLETED | FAILED | DEAD

  datatype Row = Row(
    tenant: string,
    key: Option<string>,
    queue: string,
    name: string,
    priority: int,
    maxRetries: int,
    createdAt: Time,
    state: JobState,
    attempt: int,
    lastError: string,
    scheduledAt: Option<Time>,
    startedAt: Option<Time>,
    leaseExpiresAt: Option<Time>,
    leaseToken: Option<Token>,
    completedAt: Option<Time>)

  type Table = map<JobId, Row>

  predicate Terminal(s: JobState) { s == COMPLETED || s == DEAD }

  predicate CanTransition(from: JobState, to: JobState) {
    match from
    case COMPLETED => false
    case DEAD => false
    case PENDING => to == RUNNING || to == DEAD
    case RUNNING => to == COMPLETED || to == FAILED || to == DEAD
    case FAILED => to == PENDING || to == DEAD
  }

  // ---------- enqueue: what JobService fills in before CreateJob ----------

  /** A caller's request; neither the API nor the scheduler sets a state, an
      attempt or lease fields. */
  datatype Request = Request(
    tenant: string, key: string, queue: string, name: string, priority: int,
    maxRetries: int, scheduledAt: Option<Time>)

  function EnqueuedRow(req: Request, e: Backoff.Engine, now: Time): (r: Row)
    ensures r.maxRetries >= 1 && r.tenant != "" && r.queue != "" && r.key != Some("")
    ensures r.name == req.name && r.priority == req.priority && r.state == PENDING && r.attempt == 0
    ensures req.tenant != "" ==> r.tenant == req.tenant
    ensures req.queue != "" ==> r.queue == req.queue
    ensures r.key == if req.key != "" then Some(req.key) else None
    ensures req.maxRetries > 0 ==> r.maxRetries == req.maxRetries
    ensures r.scheduledAt == if req.scheduledAt.Some? then req.scheduledAt else Some(now)
    ensures r.createdAt % MICROSECOND == 0 && r.createdAt <= now < r.createdAt + MICROSECOND
  {
    Row(
      if req.tenant == "" then DEFAULT_TENANT else req.tenant,
      if req.key == "" then None else Some(req.key),
      if req.queue == "" then DEFAULT_QUEUE else req.queue,
      req.name,
      req.priority,
      if req.maxRetries > 0 then req.maxRetries
      else if e.maxAttempts > 0 then e.maxAttempts
      else Backoff.DEFAULT_MAX_ATTEMPTS,
      now / MICROSECOND * MICROSECOND,
      PENDING, 0, "",
      if req.scheduledAt.Some? then req.scheduledAt else Some(now),
      None, None, None, None)
  }

  predicate KeyTaken(t: Table, tenant: string, key: Option<string>) {
    key.Some? && exists id :: id in t && t[id].tenant == tenant && t[id].key == key
  }

  // ---------- ClaimNextJob ----------

  /** Empty fields accept anything. */
  datatype ClaimFilter = ClaimFilter(tenant: string, queues: seq<string>, names: seq<string>)

  predicate Due(r: Row, now: Time) { r.scheduledAt.Some? ==> r.scheduledAt.value <= now }

  predicate Accepts(f: ClaimFilter, r: Row) {
    && (f.queues != [] ==> r.queue in f.queues)
    && (f.tenant != "" ==> r.tenant == f.tenant)
    && (f.names != [] ==> r.name in f.names)
  }

  predicate Claimable(r: Row, f: ClaimFilter, now: Time) {
    r.state == PENDING && Due(r, now) && Accepts(f, r)
  }

  /** ORDER BY task_priority DESC, scheduled_at ASC NULLS LAST: a comes strictly first. */
  predicate Before(a: Row, b: Row) {
    || a.priority > b.priority
    || (a.priority == b.priority && a.scheduledAt.Some?
        && (b.scheduledAt.None? || a.scheduledAt.value < b.scheduledAt.value))
  }

  function Claimed(r: Row, now: Time, lease: Time, token: Token): Row {
    r.(state := RUNNING, attempt := r.attempt + 1, startedAt := Some(now),
       leaseExpiresAt := Some(now + lease), leaseToken := Some(token))
  }

  // ---------- the fenced statements ----------

  /** The fence: WHERE state = 'RUNNING' AND lease_token = token. */
  predicate Fenced(r: Row, token: Token) {
    r.state == RUNNING && r.leaseToken == Some(token)
  }

  function Unleased(r: Row): Row {
    r.(startedAt := None, leaseExpiresAt := None, leaseToken := None)
  }

  function Renewed(r: Row, expires: Time): Row {
    r.(leaseExpiresAt := Some(expires))
  }

  function CompletedRow(r: Row, now: Time): Row {
    Unleased(r).(state := COMPLETED, completedAt := Some(now))
  }

  function FailedRow(r: Row, errMsg: string, nextRun: Option<Time>, now: Time): Row {
    if nextRun.Some? then
      Unleased(r).(state := PENDING, lastError := errMsg, scheduledAt := nextRun)
    else
      Unleased(r).(state := DEAD, lastError := errMsg, completedAt := Some(now))
  }

  function Max(a: int, b: int): int { if a < b then b else a }

  function ReleasedRow(r: Row, reason: string, nextRun: Time): Row {
    Unleased(r).(state := PENDING, attempt := Max(r.attempt - 1, 0), lastError := reason,
                 scheduledAt := Some(nextRun))
  }

  // ---------- the unfenced statements ----------

  predicate Expired(r: Row, now: Time) {
    r.state == RUNNING && r.leaseExpiresAt.Some? && r.leaseExpiresAt.value <= now
  }

  /** RequeueExpiredRunning decides by the attempt and budget its select saw. */
  function ReapedRow(r: Row, seen: Row, now: Time): Row {
    var u := Unleased(r).(lastError := "job lease expired before completion");
    if seen.attempt >= seen.maxRetries then u.(state := DEAD, completedAt := Some(now))
    else u.(state := PENDING, scheduledAt := Some(now))
  }

  predicate TenantOk(tenant: string, r: Row) { tenant == ANY_TENANT || r.tenant == tenant }

  predicate Cancellable(r: Row, tenant: string) {
    TenantOk(tenant, r) && (r.state == PENDING || r.state == RUNNING || r.state == FAILED)
  }

  function CancelledRow(r: Row, now: Time): Row {
    Unleased(r).(state := DEAD, completedAt := Some(now))
  }

  predicate Requeueable(r: Row, tenant: string) { TenantOk(tenant, r) && r.state == DEAD }

  function RequeuedRow(r: Row, now: Time): Row {
    Unleased(r).(state := PENDING, attempt := 0, scheduledAt := Some(now), completedAt := None)
  }

  predicate Prunable(r: Row, state: JobState, before: Time) {
    Terminal(state) && r.state == state && r.completedAt.Some? && r.completedAt.value < before
  }

  // ---------- UpdateJob, the Kafka claim path ----------

  /** The WHERE clause of UpdateJob's write. */
  predicate UpdateFence(r: Row, to: JobState, token: Token) {
    || token == ""
    || r.leaseToken == Some(token)
    || (r.state == PENDING && to == RUNNING && r.leaseToken.None?)
  }

  /** UpdateJob overwrites the lifecycle columns from the caller's copy of the job. */
  function UpdatedRow(r: Row, job: Row): Row {
    r.(state := job.state, attempt := job.attempt, lastError := job.lastError,
       scheduledAt := job.scheduledAt, startedAt := job.startedAt,
       leaseExpiresAt := job.leaseExpiresAt,
       leaseToken := if Terminal(job.state) || job.state == PENDING then None else job.leaseToken,
       completedAt := job.completedAt)
  }

  // ---------- Fail's decision ----------

  /** JobService.shouldRetry: the job's own budget first, else the engine's. */
  predicate ShouldRetry(e: Backoff.Engine, r: Row) {
    if r.maxRetries > 0 then r.attempt < r.maxRetries else Backoff.ShouldRetry(e, r.attempt)
  }

  /** JobService.clampLease. */
  function ClampLease(requested: Time, configured: Time): (lease: Time)
    requires configured > 0
    ensures 0 < lease <= configured
    ensures lease == if 0 < requested <= configured then requested else configured
  {
    if requested <= 0 || requested > configured then configured else requested
  }
}
