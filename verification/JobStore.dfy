/** PostgresStore and the retention sweep as code that updates the table in place.
    Every method is tied to the protocol step it performs when it runs alone. */
module JobStore {
  import opened Wrappers
  import opened Durations
  import opened Jobs
  import opened LeaseProtocol
  import Backoff

  datatype StoreError = Nil | JobNotFound | InvalidTransition | LeaseLost | Refused

  const SERVER_ENGINE := Backoff.Engine(SECOND, 30 * SECOND, 2.0, 5, 0.1)

  /** The protocol state with this table and nobody else at work. */
  function Alone(t: Table, now: Time): Sys {
    Init(SERVER_ENGINE).(clock := now, rows := t)
  }

  /** The table after protocol step `op` alone. */
  function After(t: Table, now: Time, op: Op): Table { Step(Alone(t, now), op).rows }

  /** The table with the rows `ids` taken off their holders. */
  function Reaped(t: Table, ids: set<JobId>, now: Time): Table {
    map id | id in t :: if id in ids then ReapedRow(t[id], t[id], now) else t[id]
  }

  function LeaseEnd(r: Row): Time { if r.leaseExpiresAt.Some? then r.leaseExpiresAt.value else 0 }

  lemma ReapedIsNotExpired(t: Table, ids: set<JobId>, now: Time, id: JobId)
    requires id in t && Expired(Reaped(t, ids, now)[id], now)
    ensures id !in ids
  {
  }

  /** The protocol state with this table and other statements holding locks on some rows. */
  function Busy(t: Table, now: Time, locked: set<JobId>): Sys {
    Alone(t, now).(open := map[1 := ReapSel(map id | id in t && id in locked :: t[id], now)])
  }

  lemma BusyLocks(t: Table, now: Time, locked: set<JobId>, id: JobId)
    ensures Locked(Busy(t, now, locked), id) <==> id in t && id in locked
  {
    assert 1 in Busy(t, now, locked).open;
  }

  lemma BeforeIsOrder(a: Row, b: Row, c: Row)
    ensures !Before(a, a)
    ensures Before(b, c) && !Before(a, c) ==> !Before(a, b)
  {
  }

  /** The claim's two halves with nobody between them. */
  lemma ClaimTogether(t: Table, now: Time, locked: set<JobId>, id: JobId, filter: ClaimFilter, lease: Time, token: Token)
    requires id in t && ClaimSelectOk(Busy(t, now, locked), id, filter) && token != ""
    ensures id !in locked && Claimable(t[id], filter, now)
    ensures Step(Step(Busy(t, now, locked), ClaimSelect(0, id, filter, lease)), ClaimUpdate(0, token)).rows
         == t[id := Claimed(t[id], now, lease, token)]
  {
    hide Claimable, Claimed, Before;
    BusyLocks(t, now, locked, id);
    assert FreshToken(Busy(t, now, locked), token);
  }

  /** The table after a Kafka delivery and its claim, with nobody between them. */
  function AfterKafka(t: Table, now: Time, id: JobId, msg: Row, lease: Time, token: Token): Table {
    Step(Step(Alone(t, now).(topic := {(id, msg)}), Deliver(0, id, msg)), KafkaClaim(0, token, lease)).rows
  }

  lemma KafkaTogether(t: Table, now: Time, id: JobId, msg: Row, lease: Time, token: Token)
    requires token != ""
    ensures AfterKafka(t, now, id, msg, lease, token) ==
      if id in t && CanTransition(t[id].state, RUNNING) && UpdateFence(t[id], RUNNING, token)
      then t[id := UpdatedRow(t[id], KafkaCopy(msg, now, lease, token))] else t
  {
    hide UpdatedRow, KafkaCopy, UpdateFence;
  }

  /** The table after the fenced write of a Fail call that has decided. */
  function AfterFail(t: Table, now: Time, f: FailCall): Table {
    Step(Alone(t, now).(fails := map[0 := f]), FailWrite(0)).rows
  }

  lemma FailAlone(t: Table, now: Time, f: FailCall)
    requires f.decision.Some?
    ensures AfterFail(t, now, f) ==
      if f.id in t && Fenced(t[f.id], f.token)
      then t[f.id := FailedRow(t[f.id], f.errMsg, f.decision.value.nextRun, now)] else t
  {
    hide FailedRow, Fenced;
  }

  /** The reap's two halves with nobody between them. */
  lemma ReapTogether(t: Table, ids: set<JobId>, now: Time, limit: nat)
    requires |ids| <= limit && ids <= t.Keys && forall id :: id in ids ==> Expired(t[id], now)
    requires forall id, other :: id in ids && other in t && other !in ids && Expired(t[other], now) ==>
      LeaseEnd(t[id]) <= LeaseEnd(t[other])
    requires |ids| < limit ==> forall other :: other in t && other !in ids ==> !Expired(t[other], now)
    ensures ReapSelectOk(Alone(t, now), ids, limit)
    ensures Step(Step(Alone(t, now), ReapSelect(0, ids, limit)), ReapUpdate(0)).rows == Reaped(t, ids, now)
  {
    hide ReapedRow;
  }

  class PostgresStore {
    var rows: Table

    constructor ()
      ensures rows == map[]
    {
      rows := map[];
    }

    /** Read, check the transition, write under the fence. Called with a Kafka worker's
        copy of the job, it is the protocol's delivery and claim. */
    method UpdateJob(id: JobId, job: Row, ghost now: Time) returns (err: StoreError)
      modifies this
      ensures forall msg, lease, token :: token != "" && job == KafkaCopy(msg, now, lease, token) ==>
        rows == AfterKafka(old(rows), now, id, msg, lease, token)
      ensures err == JobNotFound <==> id !in old(rows)
      ensures err == Nil <==>
        && id in old(rows) && CanTransition(old(rows[id]).state, job.state)
        && (job.leaseToken in {None, Some("")} || old(rows[id]).leaseToken == job.leaseToken
            || (old(rows[id]).state == PENDING && job.state == RUNNING && old(rows[id]).leaseToken.None?))
      ensures rows == if err == Nil then old(rows)[id := UpdatedRow(old(rows[id]), job)] else old(rows)
      ensures err == Nil ==>
        var r, r' := old(rows[id]), rows[id];
        r' == r.(state := job.state, attempt := job.attempt, lastError := job.lastError, scheduledAt := job.scheduledAt,
                 startedAt := job.startedAt, leaseExpiresAt := job.leaseExpiresAt, completedAt := job.completedAt,
                 leaseToken := if job.state in {COMPLETED, DEAD, PENDING} then None else job.leaseToken)
    {
      hide AfterKafka;
      forall msg, lease, token | token != "" && job == KafkaCopy(msg, now, lease, token)
        ensures AfterKafka(rows, now, id, msg, lease, token) ==
          if id in rows && CanTransition(rows[id].state, RUNNING) && UpdateFence(rows[id], RUNNING, token)
          then rows[id := UpdatedRow(rows[id], job)] else rows
      {
        KafkaTogether(rows, now, id, msg, lease, token);
      }
      if id !in rows { return JobNotFound; }
      if !CanTransition(rows[id].state, job.state) { return InvalidTransition; }
      var token := if job.leaseToken.Some? then job.leaseToken.value else "";
      if !UpdateFence(rows[id], job.state, token) { return InvalidTransition; }
      rows := rows[id := UpdatedRow(rows[id], job)];
      return Nil;
    }

    method CancelJob(tenant: string, id: JobId, now: Time) returns (err: StoreError)
      modifies this
      ensures rows == After(old(rows), now, Cancel(tenant, id))
      ensures err == Nil <==> id in old(rows) && Cancellable(old(rows[id]), tenant)
      ensures err == JobNotFound <==> !(id in old(rows) && TenantOk(tenant, old(rows[id])))
      ensures err in {Nil, JobNotFound, InvalidTransition}
    {
      if id in rows && Cancellable(rows[id], tenant) {
        rows := rows[id := CancelledRow(rows[id], now)];
        return Nil;
      }
      if id !in rows || !TenantOk(tenant, rows[id]) { return JobNotFound; }
      return InvalidTransition;
    }

    method RequeueDeadJob(tenant: string, id: JobId, now: Time) returns (err: StoreError)
      modifies this
      ensures rows == After(old(rows), now, Requeue(tenant, id))
      ensures err == Nil <==> id in old(rows) && Requeueable(old(rows[id]), tenant)
      ensures err == JobNotFound <==> !(id in old(rows) && TenantOk(tenant, old(rows[id])))
      ensures err in {Nil, JobNotFound, InvalidTransition}
    {
      if id in rows && Requeueable(rows[id], tenant) {
        rows := rows[id := RequeuedRow(rows[id], now)];
        return Nil;
      }
      if id !in rows || !TenantOk(tenant, rows[id]) { return JobNotFound; }
      return InvalidTransition;
    }

    method RenewLease(id: JobId, token: Token, lease: Time, now: Time) returns (err: StoreError)
      modifies this
      ensures err == Nil <==> token != "" && id in old(rows) && Fenced(old(rows[id]), token)
      ensures err == Nil ==> rows == After(old(rows), now, Renew(id, token, lease))
      ensures err != Nil ==> rows == old(rows) && err == InvalidTransition
    {
      if token == "" || id !in rows || !Fenced(rows[id], token) { return InvalidTransition; }
      rows := rows[id := Renewed(rows[id], now + lease)];
      return Nil;
    }

    method CompleteClaimedJob(id: JobId, token: Token, now: Time) returns (job: Option<Row>, err: StoreError)
      modifies this
      ensures err == Nil <==> token != "" && id in old(rows) && Fenced(old(rows[id]), token)
      ensures err == Nil ==> rows == After(old(rows), now, Complete(id, token)) && job == Some(rows[id])
      ensures err != Nil ==> rows == old(rows) && job.None? && err == if token == "" then InvalidTransition else LeaseLost
    {
      if token == "" { return None, InvalidTransition; }
      if id !in rows || !Fenced(rows[id], token) { return None, LeaseLost; }
      rows := rows[id := CompletedRow(rows[id], now)];
      return Some(rows[id]), Nil;
    }

    method FailClaimedJob(id: JobId, token: Token, errMsg: string, nextRun: Option<Time>, now: Time) returns (err: StoreError)
      modifies this
      ensures err == Nil <==> token != "" && id in old(rows) && Fenced(old(rows[id]), token)
      ensures token != "" ==> forall f: FailCall ::
        f.id == id && f.token == token && f.errMsg == errMsg && f.decision.Some? && f.decision.value.nextRun == nextRun ==>
        rows == AfterFail(old(rows), now, f)
      ensures err == Nil ==> rows == old(rows)[id := FailedRow(old(rows[id]), errMsg, nextRun, now)]
      ensures err != Nil ==> rows == old(rows) && err == if token == "" then InvalidTransition else LeaseLost
    {
      hide AfterFail;
      forall f: FailCall | f.decision.Some? { FailAlone(rows, now, f); }
      if token == "" { return InvalidTransition; }
      if id !in rows || !Fenced(rows[id], token) { return LeaseLost; }
      rows := rows[id := FailedRow(rows[id], errMsg, nextRun, now)];
      return Nil;
    }

    method ReleaseClaim(id: JobId, token: Token, reason: string, retryAfter: Time, now: Time) returns (err: StoreError)
      modifies this
      ensures err == Nil <==> id in old(rows) && Fenced(old(rows[id]), token)
      ensures rows == After(old(rows), now, Release(id, token, reason, retryAfter))
      ensures err != Nil ==> err == InvalidTransition
    {
      if id !in rows || !Fenced(rows[id], token) { return InvalidTransition; }
      rows := rows[id := ReleasedRow(rows[id], reason, now + retryAfter)];
      return Nil;
    }

    /** SELECT ... ORDER BY ... LIMIT 1 FOR UPDATE SKIP LOCKED: a claimable row that nobody
        else has locked and that no such row comes before. */
    method SelectDue(filter: ClaimFilter, now: Time, locked: set<JobId>) returns (best: Option<JobId>)
      ensures best.Some? ==> best.value in rows && ClaimSelectOk(Busy(rows, now, locked), best.value, filter)
      ensures best.None? ==> forall id :: id in rows && id !in locked ==> !Claimable(rows[id], filter, now)
    {
      hide Claimable, Before, Locked;
      forall id ensures Locked(Busy(rows, now, locked), id) <==> id in rows && id in locked { BusyLocks(rows, now, locked, id); }
      best := None;
      var todo := rows.Keys - locked;
      while todo != {}
        invariant todo <= rows.Keys - locked
        invariant best.Some? ==> best.value in rows && best.value !in locked && Claimable(rows[best.value], filter, now)
        invariant forall id :: id in rows && id !in locked && id !in todo && Claimable(rows[id], filter, now) ==>
          best.Some? && !Before(rows[id], rows[best.value])
        decreases |todo|
      {
        var id :| id in todo;
        todo := todo - {id};
        if Claimable(rows[id], filter, now) {
          if best.None? {
            best := Some(id);
            BeforeIsOrder(rows[id], rows[id], rows[id]);
          } else if Before(rows[id], rows[best.value]) {
            forall other | other in rows { BeforeIsOrder(rows[other], rows[id], rows[best.value]); }
            best := Some(id);
          }
        }
      }
    }

    /** The best claimable row that the other statements have not locked, claimed: both
        halves of the protocol's claim, one straight after the other. */
    method ClaimNextJob(filter: ClaimFilter, lease: Time, now: Time, token: Token, locked: set<JobId>) returns (id: Option<JobId>)
      requires token != ""
      modifies this
      ensures id.None? <==> forall other :: other in old(rows) && other !in locked ==> !Claimable(old(rows)[other], filter, now)
      ensures id.None? ==> rows == old(rows)
      ensures id.Some? ==>
        && id.value in old(rows) && id.value !in locked
        && ClaimSelectOk(Busy(old(rows), now, locked), id.value, filter)
        && rows == Step(Step(Busy(old(rows), now, locked), ClaimSelect(0, id.value, filter, lease)), ClaimUpdate(0, token)).rows
    {
      hide Step, ClaimSelectOk, Claimable;
      id := SelectDue(filter, now, locked);
      if id.Some? {
        ClaimTogether(rows, now, locked, id.value, filter, lease, token);
        rows := rows[id.value := Claimed(rows[id.value], now, lease, token)];
      }
    }

    /** UPDATE of the rows whose leases expired first, at most `limit` of them: both halves
        of the protocol's reap, one straight after the other. */
    method RequeueExpiredRunning(limit: int, now: Time) returns (n: nat, ghost ids: set<JobId>)
      modifies this
      ensures n == |ids| && (limit <= 0 ==> ids == {} && rows == old(rows))
      ensures limit > 0 ==>
        && ReapSelectOk(Alone(old(rows), now), ids, limit)
        && rows == Step(Step(Alone(old(rows), now), ReapSelect(0, ids, limit)), ReapUpdate(0)).rows
    {
      hide Expired, ReapedRow, ReapSelectOk, Step;
      n, ids := 0, {};
      if limit <= 0 { return; }
      ghost var table := rows;
      assert rows == Reaped(table, {}, now);
      while n < limit
        invariant n == |ids| <= limit && ids <= table.Keys && rows == Reaped(table, ids, now)
        invariant forall id :: id in ids ==> Expired(table[id], now)
        invariant forall id, other :: id in ids && other in table && other !in ids && Expired(table[other], now) ==>
          LeaseEnd(table[id]) <= LeaseEnd(table[other])
      {
        var next := OldestExpired(now);
        if next.None? {
          assert forall id :: id in table && id !in ids ==> rows[id] == table[id];
          break;
        }
        var id := next.value;
        ReapedIsNotExpired(table, ids, now, id);
        assert forall other :: other in table && other !in ids ==> rows[other] == table[other];
        rows := rows[id := ReapedRow(rows[id], rows[id], now)];
        ids := ids + {id};
        n := n + 1;
      }
      ReapTogether(table, ids, now, limit);
    }

    method OldestExpired(now: Time) returns (oldest: Option<JobId>)
      ensures oldest.None? ==> forall id :: id in rows ==> !Expired(rows[id], now)
      ensures oldest.Some? ==>
        && oldest.value in rows && Expired(rows[oldest.value], now)
        && forall id :: id in rows && Expired(rows[id], now) ==> LeaseEnd(rows[oldest.value]) <= LeaseEnd(rows[id])
    {
      oldest := None;
      var todo := rows.Keys;
      while todo != {}
        invariant todo <= rows.Keys
        invariant oldest.Some? ==> oldest.value in rows && Expired(rows[oldest.value], now)
        invariant forall id :: id in rows && id !in todo && Expired(rows[id], now) ==>
          oldest.Some? && LeaseEnd(rows[oldest.value]) <= LeaseEnd(rows[id])
        decreases |todo|
      {
        var id :| id in todo;
        todo := todo - {id};
        if Expired(rows[id], now) && (oldest.None? || LeaseEnd(rows[id]) < LeaseEnd(rows[oldest.value])) {
          oldest := Some(id);
        }
      }
    }

    /** DELETE of the oldest finished rows, at most `limit` of them. */
    method DeleteFinished(state: JobState, before: Time, limit: int) returns (n: Option<nat>, ghost gone: set<JobId>)
      modifies this
      ensures n.None? <==> !Terminal(state)
      ensures rows == old(rows) - gone
      ensures n.None? || limit <= 0 ==> gone == {}
      ensures n.Some? ==> n.value == |gone|
      ensures n.Some? && limit > 0 ==> PruneOk(Alone(old(rows), before), gone, state, before, limit)
      ensures n.Some? && n.value < limit ==> forall id :: id in rows ==> !Prunable(rows[id], state, before)
      ensures forall id :: id in gone ==> id in old(rows) && Prunable(old(rows)[id], state, before)
    {
      gone := {};
      if !Terminal(state) { return None, {}; }
      if limit <= 0 {
        assert rows - {} == rows;
        return Some(0), {};
      }
      var deleted := 0;
      ghost var table := rows;
      while deleted < limit
        invariant deleted == |gone| <= limit
        invariant rows == table - gone && gone <= table.Keys
        invariant forall id :: id in gone ==> Prunable(table[id], state, before)
        invariant forall id, other :: id in gone && other in rows && Prunable(rows[other], state, before) ==>
          table[id].completedAt.value <= rows[other].completedAt.value
      {
        var next := OldestFinished(state, before);
        if next.None? { break; }
        rows := rows - {next.value};
        gone := gone + {next.value};
        deleted := deleted + 1;
      }
      assert forall other :: other in table && other !in gone ==> other in rows && rows[other] == table[other];
      return Some(deleted), gone;
    }

    method OldestFinished(state: JobState, before: Time) returns (oldest: Option<JobId>)
      ensures oldest.None? ==> forall id :: id in rows ==> !Prunable(rows[id], state, before)
      ensures oldest.Some? ==>
        && oldest.value in rows && Prunable(rows[oldest.value], state, before)
        && forall id :: id in rows && Prunable(rows[id], state, before) ==>
             rows[oldest.value].completedAt.value <= rows[id].completedAt.value
    {
      oldest := None;
      var todo := rows.Keys;
      while todo != {}
        invariant todo <= rows.Keys
        invariant oldest.Some? ==> oldest.value in rows && Prunable(rows[oldest.value], state, before)
        invariant forall id :: id in rows && id !in todo && Prunable(rows[id], state, before) ==>
          oldest.Some? && rows[oldest.value].completedAt.value <= rows[id].completedAt.value
        decreases |todo|
      {
        var id :| id in todo;
        todo := todo - {id};
        if Prunable(rows[id], state, before)
           && (oldest.None? || rows[id].completedAt.value < rows[oldest.value].completedAt.value) {
          oldest := Some(id);
        }
      }
    }
  }

  // ---------- the retention sweep ----------

  const MAX_SWEEP_BATCHES := 20

  /** How the sweep of one state ended. */
  datatype SweepEnd = Clean | Full | DeleteFailed | Cancelled | NotDue

  datatype Retention = Retention(completed: Time, dead: Time, interval: Time, batchSize: int)

  class Reconciler {
    const store: PostgresStore
    const cfg: Retention
    var lastSweep: Option<Time>

    constructor (store: PostgresStore, cfg: Retention)
      ensures this.store == store && lastSweep == None
      ensures this.cfg.interval > 0 && this.cfg.batchSize > 0
      ensures this.cfg.completed == cfg.completed && this.cfg.dead == cfg.dead
      ensures this.cfg.interval == if cfg.interval > 0 then cfg.interval else 3_600 * SECOND
      ensures this.cfg.batchSize == if cfg.batchSize > 0 then cfg.batchSize else 1000
    {
      this.store := store;
      this.cfg := cfg.(
        interval := if cfg.interval <= 0 then 60 * 60 * SECOND else cfg.interval,
        batchSize := if cfg.batchSize <= 0 then 1000 else cfg.batchSize);
      this.lastSweep := None;
    }

    /** The row is past the age configured for its state. */
    predicate PastRetention(r: Row, now: Time) {
      || (cfg.completed > 0 && Prunable(r, COMPLETED, now - cfg.completed))
      || (cfg.dead > 0 && Prunable(r, DEAD, now - cfg.dead))
    }

    predicate SweepDue(now: Time)
      reads this
    {
      (cfg.completed > 0 || cfg.dead > 0) && (lastSweep.Some? ==> now - lastSweep.value >= cfg.interval)
    }

    /** A sweep that is due deletes only rows past retention, and for each state all of
        them unless it says why not; a sweep that is not due does nothing. */
    method SweepRetention(now: Time) returns (completed: SweepEnd, dead: SweepEnd)
      requires cfg.batchSize > 0
      modifies this, store
      ensures SubTable(store.rows, old(store.rows))
      ensures forall id :: id in old(store.rows) && id !in store.rows ==> PastRetention(old(store.rows)[id], now)
      ensures old(SweepDue(now)) <==>
        (cfg.completed > 0 || cfg.dead > 0) && (old(lastSweep).Some? ==> now - old(lastSweep).value >= cfg.interval)
      ensures !old(SweepDue(now)) ==> store.rows == old(store.rows) && lastSweep == old(lastSweep)
      ensures old(SweepDue(now)) ==>
        && lastSweep == Some(now)
        && SweptClean(store.rows, COMPLETED, cfg.completed, now, completed)
        && SweptClean(store.rows, DEAD, cfg.dead, now, dead)
      ensures completed == Full || dead == Full ==>
        |old(store.rows)| - |store.rows| >= 20 * cfg.batchSize
    {
      hide Prunable;
      completed, dead := NotDue, NotDue;
      if cfg.completed <= 0 && cfg.dead <= 0 { return; }
      if lastSweep.Some? && now - lastSweep.value < cfg.interval { return; }
      lastSweep := Some(now);
      completed := SweepState(COMPLETED, cfg.completed, now);
      if completed == Cancelled { return Cancelled, Cancelled; }
      dead := SweepState(DEAD, cfg.dead, now);
    }

    /** Up to 20 batches for one state, unless the context is cancelled before one of them
        or a delete fails, before or after it ran. */
    method SweepState(state: JobState, age: Time, now: Time) returns (end: SweepEnd)
      requires cfg.batchSize > 0 && Terminal(state)
      modifies store
      ensures OnlyPruned(old(store.rows), store.rows, state, now - age)
      ensures |store.rows| <= |old(store.rows)| && (age <= 0 ==> store.rows == old(store.rows))
      ensures SweptClean(store.rows, state, age, now, end)
      ensures end == Full ==> |old(store.rows)| - |store.rows| == 20 * cfg.batchSize
    {
      hide Prunable, PruneOk, OnlyPruned, Alone, NotPastAge;
      PruneNothing(store.rows, state, now - age);
      if age <= 0 { return Clean; }
      ghost var whole := store.rows;
      var deleted := 0;
      for i := 0 to MAX_SWEEP_BATCHES
        invariant OnlyPruned(whole, store.rows, state, now - age)
        invariant |whole| - |store.rows| == deleted == i * cfg.batchSize
      {
        var cancelled: bool, failed: bool, ran: bool := *, *, *;
        if cancelled { return Cancelled; }
        if failed && !ran { return DeleteFailed; }
        ghost var was := store.rows;
        var n, gone := store.DeleteFinished(state, now - age, cfg.batchSize);
        assert OnlyPruned(whole, store.rows, state, now - age) && |store.rows| == |was| - n.value by {
          PruneMore(whole, was, gone, state, now - age);
          WithoutSize(was, gone);
        }
        if failed { return DeleteFailed; }
        deleted := deleted + n.value;
        if n.value < cfg.batchSize {
          NonePastAge(store.rows, state, age, now);
          return Clean;
        }
        assert (i + 1) * cfg.batchSize == i * cfg.batchSize + cfg.batchSize;
      }
      return Full;
    }
  }

  /** A sweep of one state that ended clean has left nothing past its age. */
  predicate SweptClean(t: Table, state: JobState, age: Time, now: Time, end: SweepEnd) {
    end != NotDue && (end == Clean && age > 0 ==> NotPastAge(t, state, age, now))
  }

  predicate NotPastAge(t: Table, state: JobState, age: Time, now: Time) {
    forall id :: id in t && t[id].state == state && t[id].completedAt.Some? ==> t[id].completedAt.value >= now - age
  }

  lemma NonePastAge(t: Table, state: JobState, age: Time, now: Time)
    requires Terminal(state) && forall id :: id in t ==> !Prunable(t[id], state, now - age)
    ensures NotPastAge(t, state, age, now)
  {
  }

  predicate SubTable(t: Table, whole: Table) {
    forall id :: id in t ==> id in whole && t[id] == whole[id]
  }

  /** Of the whole table only rows prunable by this criterion are missing. */
  predicate OnlyPruned(whole: Table, t: Table, state: JobState, before: Time) {
    && SubTable(t, whole)
    && forall id :: id in whole && id !in t ==> Prunable(whole[id], state, before)
  }

  lemma PruneNothing(t: Table, state: JobState, before: Time)
    ensures OnlyPruned(t, t, state, before)
  {
  }

  lemma PruneMore(whole: Table, t: Table, gone: set<JobId>, state: JobState, before: Time)
    requires OnlyPruned(whole, t, state, before)
    requires forall id :: id in gone ==> id in t && Prunable(t[id], state, before)
    ensures OnlyPruned(whole, t - gone, state, before)
  {
    hide Prunable;
  }

  lemma WithoutSize(t: Table, gone: set<JobId>)
    requires gone <= t.Keys
    ensures |t - gone| == |t| - |gone|
  {
    assert (t - gone).Keys == t.Keys - gone;
    assert t.Keys == (t.Keys - gone) + gone;
  }
}
