/** What each statement on the jobs table writes, column by column. */
module Statements {
  import opened Wrappers
  import opened Jobs
  import opened LeaseProtocol
  import opened LeaseInvariant
  import opened ClaimOrder
  import LeaseMoves
  import Backoff

  /** A single-row statement can act: the row is there and nobody has it locked. */
  predicate Free(s: Sys, id: JobId) { id in s.rows && !Locked(s, id) }

  /** The fence, in columns. */
  predicate Holds(s: Sys, id: JobId, token: Token) {
    Free(s, id) && s.rows[id].state == RUNNING && s.rows[id].leaseToken == Some(token)
  }

  lemma RenewWrites(s: Sys, id: JobId, token: Token, lease: Time)
    ensures Step(s, Renew(id, token, lease)).rows ==
      if Holds(s, id, token) then s.rows[id := s.rows[id].(leaseExpiresAt := Some(s.clock + lease))] else s.rows
  {
    hide Locked;
  }

  lemma CompleteWrites(s: Sys, id: JobId, token: Token)
    ensures Step(s, Complete(id, token)).rows ==
      if Holds(s, id, token)
      then s.rows[id := s.rows[id].(state := COMPLETED, completedAt := Some(s.clock),
                                    startedAt := None, leaseExpiresAt := None, leaseToken := None)]
      else s.rows
  {
    hide Locked;
  }

  /** The attempt is given back, and the job is not due before retryAfter has passed. */
  lemma ReleaseWrites(s: Sys, id: JobId, token: Token, reason: string, retryAfter: Time)
    requires Inv(s)
    ensures Step(s, Release(id, token, reason, retryAfter)).rows ==
      if Holds(s, id, token)
      then s.rows[id := s.rows[id].(state := PENDING, attempt := s.rows[id].attempt - 1, lastError := reason,
                                    scheduledAt := Some(s.clock + retryAfter),
                                    startedAt := None, leaseExpiresAt := None, leaseToken := None)]
      else s.rows
  {
    hide Locked, RowsOk, TokensOk, OpenOk, FailsOk, KafkaOk;
    if id in s.rows { RowAt(s, id); }
  }

  /** A failure is retried at the time decided, or ends the job. */
  lemma FailWrites(s: Sys, c: Call)
    requires c in s.fails && s.fails[c].decision.Some?
    ensures var f := s.fails[c];
      Step(s, FailWrite(c)).rows ==
      if !Holds(s, f.id, f.token) then s.rows
      else if f.decision.value.nextRun.Some?
      then s.rows[f.id := s.rows[f.id].(state := PENDING, lastError := f.errMsg, scheduledAt := f.decision.value.nextRun,
                                        startedAt := None, leaseExpiresAt := None, leaseToken := None)]
      else s.rows[f.id := s.rows[f.id].(state := DEAD, lastError := f.errMsg, completedAt := Some(s.clock),
                                        startedAt := None, leaseExpiresAt := None, leaseToken := None)]
  {
    hide Locked;
  }

  /** A cancelled job is dead, keeps its attempts, its error and its schedule, and no
      tenant but its own can cancel it. */
  lemma CancelWrites(s: Sys, tenant: string, id: JobId)
    ensures Step(s, Cancel(tenant, id)).rows ==
      if Free(s, id) && (tenant == "" || s.rows[id].tenant == tenant) && s.rows[id].state in {PENDING, RUNNING, FAILED}
      then s.rows[id := s.rows[id].(state := DEAD, completedAt := Some(s.clock),
                                    startedAt := None, leaseExpiresAt := None, leaseToken := None)]
      else s.rows
  {
    hide Locked;
  }

  /** A requeued job starts again with its whole budget, due at once. */
  lemma RequeueWrites(s: Sys, tenant: string, id: JobId)
    ensures Step(s, Requeue(tenant, id)).rows ==
      if Free(s, id) && (tenant == "" || s.rows[id].tenant == tenant) && s.rows[id].state == DEAD
      then s.rows[id := s.rows[id].(state := PENDING, attempt := 0, scheduledAt := Some(s.clock), completedAt := None,
                                    startedAt := None, leaseExpiresAt := None, leaseToken := None)]
      else s.rows
  {
    hide Locked;
  }

  /** An expired row is dead if and only if its attempts are used up, and otherwise due at
      once; every other row stays. */
  lemma ReapWrites(s: Sys, q: Session, id: JobId)
    requires Inv(s) && q in s.open && s.open[q].ReapSel? && id in s.rows
    ensures id in Step(s, ReapUpdate(q)).rows
    ensures var r, r', at := s.rows[id], Step(s, ReapUpdate(q)).rows[id], s.open[q].at;
      if id !in s.open[q].seen then r' == r
      else
        && r.state == RUNNING && r.leaseExpiresAt.Some? && r.leaseExpiresAt.value <= at <= s.clock
        && r' == if r.attempt >= r.maxRetries
                 then r.(state := DEAD, completedAt := Some(at), lastError := "job lease expired before completion",
                         startedAt := None, leaseExpiresAt := None, leaseToken := None)
                 else r.(state := PENDING, scheduledAt := Some(at), lastError := "job lease expired before completion",
                         startedAt := None, leaseExpiresAt := None, leaseToken := None)
  {
    hide RowsOk, TokensOk, FailsOk, KafkaOk, Claimable;
    assert SelectionOk(s, s.open[q]);
  }

  predicate LeaseOver(s: Sys, id: JobId) {
    && Free(s, id) && s.rows[id].state == RUNNING
    && s.rows[id].leaseExpiresAt.Some? && s.rows[id].leaseExpiresAt.value <= s.clock
  }

  /** A reap gets exactly free rows whose lease is over, at most `limit`, all of them if they
      are fewer, and otherwise those whose leases ended first. */
  lemma ReapSelectGetsIff(s: Sys, q: Session, ids: set<JobId>, limit: nat)
    requires q !in s.open
    ensures q in Step(s, ReapSelect(q, ids, limit)).open <==>
      && |ids| <= limit && (forall id :: id in ids ==> LeaseOver(s, id))
      && forall other :: LeaseOver(s, other) && other !in ids ==>
           && |ids| == limit
           && forall id :: id in ids ==> s.rows[id].leaseExpiresAt.value <= s.rows[other].leaseExpiresAt.value
  {
    hide Locked;
  }

  /** A claim spends an attempt and starts a lease at the time of its select. */
  lemma ClaimWrites(s: Sys, q: Session, token: Token)
    requires ClaimLands(s, q, token) && s.open[q].id in s.rows
    ensures var sel := s.open[q];
      Step(s, ClaimUpdate(q, token)).rows
      == s.rows[sel.id := s.rows[sel.id].(state := RUNNING, attempt := s.rows[sel.id].attempt + 1, startedAt := Some(sel.at),
                                          leaseExpiresAt := Some(sel.at + sel.lease), leaseToken := Some(token))]
  {
    hide FreshToken;
  }

  /** A Kafka claim copies the message's attempt, error and schedule over the row's. */
  lemma KafkaClaimWrites(s: Sys, c: Call, token: Token, lease: Time)
    requires Inv(s) && c in s.deliveries && FreshToken(s, token)
    ensures var d := s.deliveries[c];
      Step(s, KafkaClaim(c, token, lease)).rows ==
      if Free(s, d.id) && s.rows[d.id].state == PENDING
      then s.rows[d.id := s.rows[d.id].(state := RUNNING, attempt := d.msg.attempt + 1, lastError := d.msg.lastError,
                                        scheduledAt := d.msg.scheduledAt, startedAt := Some(d.at),
                                        leaseExpiresAt := Some(d.at + lease), leaseToken := Some(token), completedAt := None)]
      else s.rows
  {
    hide Locked, RowsOk, TokensOk, OpenOk, FailsOk, KafkaOk, FreshToken;
    var d := s.deliveries[c];
    LeaseMoves.KafkaRow(s, c, token, d.id);
    if d.id in s.rows { PendingHasNoToken(s, d.id); }
  }

  lemma PendingHasNoToken(s: Sys, id: JobId)
    requires Inv(s) && id in s.rows
    ensures s.rows[id].state == PENDING ==> s.rows[id].leaseToken.None?
  {
    hide TokensOk, OpenOk, FailsOk, KafkaOk;
    RowAt(s, id);
  }

  /** A new job: what was asked for, or the defaults. */
  lemma CreateWrites(s: Sys, id: JobId, req: Request)
    ensures var rows := Step(s, Create(id, req)).rows;
      || rows == s.rows
      || (id !in s.rows && id in rows && var r := rows[id];
          && rows == s.rows[id := r]
          && r.tenant == (if req.tenant != "" then req.tenant else "default")
          && r.queue == (if req.queue != "" then req.queue else "default")
          && r.key == (if req.key != "" then Some(req.key) else None)
          && r.name == req.name && r.priority == req.priority
          && r.maxRetries == (if req.maxRetries > 0 then req.maxRetries
                              else if s.engine.maxAttempts > 0 then s.engine.maxAttempts else 5)
          && r.scheduledAt == (if req.scheduledAt.Some? then req.scheduledAt else Some(s.clock))
          && r.createdAt <= s.clock < r.createdAt + 1_000 && r.createdAt % 1_000 == 0
          && r.state == PENDING && r.attempt == 0 && r.lastError == ""
          && r.startedAt.None? && r.leaseExpiresAt.None? && r.leaseToken.None? && r.completedAt.None?)
  {
    hide KeyTaken;
  }

  /** It is refused exactly when the id or the tenant's key is taken. */
  lemma CreateRefusedIff(s: Sys, id: JobId, req: Request)
    ensures Step(s, Create(id, req)).rows == s.rows <==>
      id in s.rows || (req.key != "" && KeyUsed(s, if req.tenant != "" then req.tenant else "default", req.key))
  {
  }

  predicate KeyUsed(s: Sys, tenant: string, key: string) {
    exists id :: id in s.rows && s.rows[id].tenant == tenant && s.rows[id].key == Some(key)
  }

  /** Retention deletes finished rows of one state, completed more than the age before the
      sweep, oldest first and at most `limit`. */
  lemma PruneWrites(s: Sys, ids: set<JobId>, state: JobState, age: Time, sweep: Time, limit: nat, id: JobId)
    requires Step(s, Prune(ids, state, age, sweep, limit)).rows != s.rows
    ensures Step(s, Prune(ids, state, age, sweep, limit)).rows == s.rows - ids && |ids| <= limit
    ensures sweep <= s.clock && (state == COMPLETED || state == DEAD)
    ensures id in ids ==> id in s.rows && Old(s.rows[id], state, sweep - age)
    ensures id in s.rows && id !in ids && Old(s.rows[id], state, sweep - age) ==>
      && |ids| == limit
      && forall gone :: gone in ids && gone in s.rows && s.rows[gone].completedAt.Some? ==>
           s.rows[gone].completedAt.value <= s.rows[id].completedAt.value
  {
    hide Locked;
    assert ids == {} ==> s.rows - ids == s.rows;
  }

  /** Finished in this state before the given time. */
  predicate Old(r: Row, state: JobState, before: Time) {
    r.state == state && r.completedAt.Some? && r.completedAt.value < before
  }

  /** The transitions UpdateJob allows, by where they lead. */
  lemma TransitionsByTarget(from: JobState, to: JobState)
    ensures to == RUNNING ==> (CanTransition(from, to) <==> from == PENDING)
    ensures to == COMPLETED || to == FAILED ==> (CanTransition(from, to) <==> from == RUNNING)
    ensures to == PENDING ==> (CanTransition(from, to) <==> from == FAILED)
    ensures to == DEAD ==> (CanTransition(from, to) <==> from != COMPLETED && from != DEAD)
  {
  }

  // ---------- which job is claimed ----------

  /** Due and accepted by the filter, in columns. */
  predicate Ready(r: Row, filter: ClaimFilter, now: Time) {
    && r.state == PENDING && (r.scheduledAt.None? || r.scheduledAt.value <= now)
    && (filter.tenant == "" || r.tenant == filter.tenant)
    && (filter.queues == [] || r.queue in filter.queues)
    && (filter.names == [] || r.name in filter.names)
  }

  /** A select gets exactly a free and ready job that no other such job comes before. */
  lemma SelectGetsIff(s: Sys, q: Session, id: JobId, filter: ClaimFilter, lease: Time)
    requires q !in s.open
    ensures q in Step(s, ClaimSelect(q, id, filter, lease)).open <==>
      && Free(s, id) && Ready(s.rows[id], filter, s.clock)
      && forall other :: Free(s, other) && Ready(s.rows[other], filter, s.clock) ==> NotAhead(s.rows[other], s.rows[id])
  {
    hide Locked;
    forall other ensures Free(s, other) && Ready(s.rows[other], filter, s.clock) <==>
      Writable(s, other) && Claimable(s.rows[other], filter, s.clock) {}
  }

  /** By priority first, then by time, jobs without a time last: a does not come before b. */
  predicate NotAhead(a: Row, b: Row) {
    && a.priority <= b.priority
    && (a.priority == b.priority && a.scheduledAt.Some? ==>
          b.scheduledAt.Some? && b.scheduledAt.value <= a.scheduledAt.value)
  }

  /** Every claim that lands took, as of its select, a free and ready job, and no free and
      ready job had a higher priority, or the same priority and an earlier time; a job
      without a time comes after all that have one. */
  lemma ClaimTakesBest(e: Backoff.Engine, ops: seq<Op>, i: nat, q: Session, token: Token) returns (k: nat)
    requires i < |ops| && ops[i] == ClaimUpdate(q, token) && ClaimLands(At(e, ops, i), q, token)
    ensures k < i && ops[k].ClaimSelect? && ops[k].session == q
    ensures var s, id, filter := At(e, ops, k), ops[k].id, ops[k].filter;
      && id == At(e, ops, i).open[q].id && Free(s, id) && Ready(s.rows[id], filter, s.clock)
      && forall other :: Free(s, other) && Ready(s.rows[other], filter, s.clock) ==> NotAhead(s.rows[other], s.rows[id])
  {
    hide Run, Step, Locked, FreshToken;
    k := ClaimIsAtomic(e, ops, i, q, token);
  }
}
