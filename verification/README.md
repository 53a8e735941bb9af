# Conduit: a verified model

Conduit is a durable job queue in which one Postgres table decides every job's fate.
This project models its core in Dafny and proves what that core is relied on for:

- **The lease and fencing protocol** (`Jobs`, `LeaseProtocol`, `LeaseInvariant`,
  `LeaseMoves`, then `Fencing`, `Lifecycle`, `Retention`, `Attempts`, `FailCalls`,
  `ClaimOrder`, `LeaseRenewal`, `ReleaseDelay`; `Statements` says in plain columns what each
  statement writes, and `OneJobRuns` holds the runs used as counterexamples).
  Any number of workers, API callers, Kafka consumers and reconcilers interleave eighteen
  kinds of step on one table. A run is any sequence of steps; a step whose guard fails
  changes nothing, so nothing is assumed about the interleaving. Every theorem is about
  every run. `JobStore` is the same store as code that updates the table
  in place, each method tied to the protocol step it performs.
- **The cron engine and the replicated scheduler** (`Calendar`, `CalendarLaws`, `CronParser`,
  `CronText`, `CronSearch`, `LeapDays`, `Scheduler`, `ScheduleTimes`, `ScheduleKeys`). The
  field-skipping search refines a scan of every minute of the proleptic Gregorian calendar,
  whose weekdays are Zeller's; replicas that share no leader fire each instant once, and
  only instants that the cron expression accepts.
- **Enqueueing and listing** (`Enqueue`, `Base64`, `Pagination`, `Listings`, `ListingRuns`).
- **Mutual exclusion and signalling** (`Redlock`, `RedlockLimits`, `RedlockClient`,
  `AdvisoryLock`, `AdvisoryClient`, `Breaker`, `LongPoll`, `Wakers`, `ReconcilerWake`).

`dafny verify dfyconfig.toml` checks everything.

## Modelling decisions

- A single SQL statement is one atomic step. `ClaimNextJob` and `RequeueExpiredRunning`
  lock rows before they write, so each is two steps, a select that skips locked rows and
  an update that unlocks; both write the time at which the statement started. Any other
  statement that waits for a row lock is taken to start when it gets it. `Enqueue`, `Fail`
  and `UpdateJob` are several statements and stay several steps.
- Lease tokens, Redlock values and job ids are random in the program. The model takes
  them as fresh: a token is minted by the update that writes it and was never seen before.
- The lease protocol has one clock. The scheduler's replicas may disagree about the time.
- A Kafka message is a copy of the job as it was enqueued, and Kafka may deliver it any
  number of times, at any time.
- Callers may enqueue under any idempotency key, the scheduler's prefix included.
- Backoff is computed over reals. Times are integers of nanoseconds, without wrap-around;
  `created_at`, which listings sort and encode by, is stored at microsecond precision.
- A Redis command takes effect at once or not at all, and its reply may be lost either
  way. A node's clock runs fast by at most the drift factor and its TTL is kept to within two
  milliseconds, so a key lives at least its TTL, less the drift factor's share of it, less
  two milliseconds; that the program's drift allowance covers this is proved. The source
  reads the clock twice after the SET NX loop, to measure the validity left and to
  stamp the expiry; the model lets time pass in between.
- `advisoryKey` is an arbitrary function, so every statement about the advisory lock
  holds whatever collides.

## Where the code and its promises differ

- `Next` is documented to give up after four years. It gives up after 1460 days, one day
  short of four years that contain a 29 February: `CronSearch.LeapDayMissed`. For a
  leap-day schedule `LeapDays.LeapDayAnswer` gives the answer from every instant.
- The Kafka claim writes the message's `attempt` back to the row. The column then falls
  short of the claims made, exactly when such a claim found the row tried before:
  `Attempts.Conservation`, with a run in `Attempts.KafkaOvercounts`.
- A reaped row carries the time of the reap's select, so retention may delete it before it
  has been finished for its whole age. It never does exactly when the reap does not pause
  between its halves: `Retention.AgedIffNoGap`.
- A worker that keeps to its renewal timer keeps its lease in every run exactly when the
  lease is longer than one second: `LeaseRenewal.TimerEnoughIff`.
- The scheduler's keys are reserved by convention only. A caller that uses one makes the
  fire adopt that caller's job and skip its own: `ScheduleKeys.FireAdoptsJob`, with the
  exact conditions in `ScheduleKeys.OwnJobIff` and `ScheduleKeys.NoStrayJobIff`.
- With a pause between the two clock reads, two Redlock claims on one resource can
  overlap. They never do exactly when there is no pause: `RedlockLimits.ClaimsApartIffNoLag`.
  A configured quorum that is no majority excludes nothing: `RedlockLimits.ExcludesIffMajority`.
- A half-open breaker with `HalfOpenRequests` below `SuccessThreshold`, as the server
  configures it, can refuse every request for ever: `Breaker.RecoveryIff`,
  `Breaker.ServerSettingsStick`.
- An advisory lock guards nothing once the server has killed its session, although the
  process still believes it holds it: `AdvisoryLock.GuardsIffLive`.
- Retention frees an idempotency key, after which the same key makes a second job:
  `Enqueue.PruningFreesKey`. Two calls return one row exactly when nothing between them
  pruned it: `Enqueue.SameRowIff`.
- The job that `Fail` returns for a dead job lacks the `completed_at` that the row has:
  the last clause of `FailCalls.FailLinearizable`.

## Model

| member | source | states |
|---|---|---|
| `LeaseInvariant.StepKeeps` | internal/store/store.go:176-648 | every one of the eighteen protocol steps keeps the invariant: row shape, one row per token, locked rows unchanged under their selection, in-flight Fail reads still true under their token |
| `LeaseInvariant.RunInv` | internal/store/store.go:176-648 | the invariant holds in every reachable state |
| `LeaseMoves.StepRow` | internal/store/store.go:176-648 | whatever a step does to a row is one of nine named changes, each spelled out column by column in the Statements rows below, a retention delete, or a creation |
| `Statements.RenewWrites` | internal/store/store.go:334-354 | a renew moves the lease expiry of a free RUNNING row under its token to now plus the lease, and does nothing otherwise |
| `Statements.CompleteWrites` | internal/store/store.go:561-610 | a complete leaves the row COMPLETED now, without lease, and all else as it was |
| `Statements.ReleaseWrites` | internal/store/store.go:528-553 | a release leaves the row PENDING, due retryAfter from now, with the attempt given back but never below zero |
| `Statements.FailWrites` | internal/store/store.go:612-648 | the write of a decided Fail leaves the row PENDING and due when decided, or DEAD now |
| `Statements.CancelWrites` | internal/store/store.go:249-274 | a cancel takes a free, unfinished row of the tenant to DEAD now, and nothing else |
| `Statements.RequeueWrites` | internal/store/store.go:409-439 | a requeue takes a free DEAD row of the tenant to PENDING, due now, attempt 0, and nothing else |
| `Statements.ReapWrites` | internal/store/store.go:356-398 | a reaped row is DEAD iff attempt >= max_retries and otherwise PENDING and due at once; rows not selected are unchanged |
| `Statements.ReapSelectGetsIff` | internal/store/store.go:356-398 | a reap gets exactly free RUNNING rows whose lease is over, at most limit, those that ended first, and all if they are fewer |
| `Statements.ClaimWrites` | internal/store/store.go:307-313 | a claim spends one attempt and starts the lease at its select, under the new token |
| `Statements.SelectGetsIff` | internal/store/store.go:278-306 | a claim's select gets exactly a free PENDING row that is due and wanted, with no such row of higher priority, nor of equal priority and earlier scheduled_at, nulls last |
| `Statements.ClaimTakesBest` | internal/store/store.go:278-332 | in every run, no row free and ready at the select of a claim that lands was ahead of the one claimed |
| `Statements.KafkaClaimWrites` | cmd/server/main.go:606-624 | a Kafka claim lands iff the row is free, PENDING and without token, and writes the message's attempt plus one |
| `Statements.CreateWrites` | internal/service/job_service.go:38-105 | a created row column by column: a request without a budget gets the engine's, and without an engine budget the default |
| `Statements.CreateRefusedIff` | internal/store/store.go:72-131 | a create is refused iff the id exists or the tenant has the key already |
| `Statements.PruneWrites` | internal/store/store.go:449-473 | a prune deletes a row only if finished in the state for longer than the age, oldest first, and leaves one only when the limit was reached |
| `Statements.TransitionsByTarget` | internal/store/store.go:852-866 | for each state, exactly the states it can be entered from |
| `Fencing.TokenOrigin` | internal/store/store.go:278-332 | a token gets onto a row only by the claim that has just minted it |
| `Fencing.EndKind` | internal/store/store.go:176-648 | a token leaves its row only by complete, fail, release, reap or cancel |
| `Fencing.NeverReturns` | internal/store/store.go:176-648 | over any run, a minted token that is off every row never comes back |
| `Fencing.AtMostOneEnding` | internal/store/store.go:176-648 | in every run, on both transports, each token has at most one claim-ending write, and none while it is held |
| `Fencing.OneRowPerToken` | internal/store/store.go:278-332 | a token is on one and the same row whenever it is on any |
| `Fencing.StaleTokenPowerless` | internal/store/store.go:334-648 | after a token has ended, any later renew, complete, fail or release that presents it leaves the whole table unchanged |
| `Lifecycle.RowInvariant` | internal/store/store.go:72-648 | RUNNING, token, lease expiry and started_at coincide; completed_at exactly in COMPLETED or DEAD; FAILED never occurs; attempts within budget |
| `Lifecycle.StateMoves` | internal/store/store.go:176-648 | which states follow which: COMPLETED is never left, DEAD only by requeue, and every change CanTransition forbids is a requeue of a dead job or a release, fail or reap of a running one |
| `Lifecycle.FinishedIsFinal` | internal/store/store.go:176-648 | a finished row keeps every column until it is pruned or, if dead, requeued |
| `Lifecycle.NoLostWork` | internal/reconciler/reconciler.go:235-276 | a row disappears only in a retention sweep; one step had finished it, nothing changed it since, and the time since, plus that step's exact slack, exceeds the retention age |
| `Retention.AgedIffNoGap` | internal/store/store.go:356-398 | in all runs whose reaps pause for at most a gap, deleted rows had been finished for their whole age, iff the gap is zero |
| `Attempts.AttemptStep` | internal/store/store.go:307-313 | attempt moves by the claims and releases of the step, and by less exactly for a Kafka claim that finds the row tried; zero for a creation or requeue |
| `Attempts.Conservation` | internal/store/store.go:307-313 | in every run on both transports attempt <= claims minus releases since the last reset, with equality iff every Kafka claim since then found attempt 0 |
| `Attempts.PostgresConservation` | internal/store/store.go:531-543 | so in every run of the Postgres transport |
| `Attempts.BudgetBoundsClaims` | internal/service/job_service.go:68-76 | claims not given back never exceed max_retries, a PENDING job has budget left, a RUNNING one has used some |
| `Attempts.ClampNeverFires` | internal/store/store.go:531-543 | GREATEST(attempt - 1, 0) never clamps in a reachable state |
| `Attempts.KafkaClaimCounts` | cmd/server/main.go:606-624 | the Kafka claim leaves attempt 1; it adds one if and only if the row had attempt 0 |
| `Attempts.KafkaOvercounts` | cmd/server/main.go:606-624 | a concrete run, a late message after a reap, with attempt 1 below the claims made |
| `FailCalls.ReadOrigin` | internal/service/job_service.go:164-201 | a Fail call in flight carries the row as it was at its own read |
| `FailCalls.DecisionOrigin` | internal/service/job_service.go:170-176 | a decided Fail call carries the clock of its own decision step, and the delay that step's draw gives for the attempt read |
| `FailCalls.FailLinearizable` | internal/service/job_service.go:164-210 | if the fenced write lands, attempt and budget are still those read; DEAD iff permanent or attempt >= max_retries; otherwise PENDING and due exactly a jittered, capped, grown delay after the clock of the call's own decision; the returned job equals the row but for completed_at |
| `ClaimOrder.DistinctSelections` | internal/store/store.go:278-332 | open selections of different sessions lock disjoint rows |
| `ClaimOrder.ClaimIsAtomic` | internal/store/store.go:278-332 | a claim that lands acts as of its select: the row was due, free, accepted by the filter and preceded by no free row in claim order, and is unchanged since |
| `ClaimOrder.ClaimTakesFreeRow` | internal/store/store.go:278-332 | a claim finds the row pending and without a token |
| `LeaseRenewal.LastGrant` | internal/store/store.go:334-354 | every lease expiry on a row is its last grant plus the granted lease |
| `LeaseRenewal.ReaperNeverEarly` | internal/store/store.go:356-398 | the reaper takes a row only at or after its last grant plus the granted lease |
| `LeaseRenewal.RenewedLeaseIsKept` | cmd/server/main.go:663-705 | a holder whose heartbeats, by their clocks and leases, each come before the time the last one bought is up keeps its token until it reports or is cancelled, whatever else runs |
| `LeaseRenewal.HolderStep` | internal/store/store.go:334-398 | while the lease has not run out the row is neither locked nor reaped: a renew with the token lands and moves the expiry, and nothing else does |
| `LeaseRenewal.TimerKeepsLease` | cmd/server/main.go:663-705 | heartbeats at the timer's interval, late by any delay that still fits the lease, keep the token |
| `LeaseRenewal.TimerEnoughIff` | cmd/server/main.go:663-705 | keeping to the timer keeps the token in every run if and only if the lease is longer than one second |
| `ReleaseDelay.NotClaimedEarly` | internal/store/store.go:512-553 | in every run, after a release that landed at clock t no claim of the job lands whose select came before t + retryAfter, unless the job was requeued, claimed from Kafka or created anew in between |
| `ReleaseDelay.ReadyFromThenOn` | internal/store/store.go:512-553 | while the released row is unchanged, it can be had by a claim without a filter iff t + retryAfter has come |
| `Jobs.EnqueuedRow` | internal/service/job_service.go:38-105 | what the request gives is kept, and the rest defaults: a budget of at least one, a tenant, a queue, a scheduled time, no empty key; created_at at microseconds |
| `Jobs.ClampLease` | internal/service/job_service.go:212-217 | a requested lease is honoured when positive and within the configured one, and any other gets the configured one |
| `JobStore.PostgresStore.UpdateJob` | internal/store/store.go:176-242 | not-found, transition and fence errors exactly when they apply, and every column after a write; with a Kafka worker's copy, the protocol's delivery and claim |
| `JobStore.PostgresStore.CancelJob` | internal/store/store.go:249-274 | the protocol's cancel step, with the error telling a missing job from a finished one |
| `JobStore.PostgresStore.ClaimNextJob` | internal/store/store.go:278-332 | nothing iff no unlocked row is claimable; else the best of them, through both halves of the protocol's claim |
| `JobStore.PostgresStore.SelectDue` | internal/store/store.go:278-332 | an unlocked claimable row that no such row comes before, or none if there is none |
| `JobStore.PostgresStore.RenewLease` | internal/store/store.go:334-354 | the protocol's renew step iff the fence holds, else no change |
| `JobStore.PostgresStore.RequeueExpiredRunning` | internal/store/store.go:356-398 | up to limit rows whose leases ended first, and the table after both halves of the protocol's reap |
| `JobStore.PostgresStore.RequeueDeadJob` | internal/store/store.go:409-439 | the protocol's requeue step, and the error that applies |
| `JobStore.PostgresStore.DeleteFinished` | internal/store/store.go:449-473 | deletes the oldest finished rows, at most limit; fewer only when none is left |
| `JobStore.PostgresStore.ReleaseClaim` | internal/store/store.go:528-553 | the protocol's release step iff the fence holds, whose delay ReleaseDelay.NotClaimedEarly is about |
| `JobStore.PostgresStore.CompleteClaimedJob` | internal/store/store.go:561-610 | the protocol's complete step iff the fence holds, returning the stored row |
| `JobStore.PostgresStore.FailClaimedJob` | internal/store/store.go:612-648 | the protocol's fenced write of a decided Fail call, and the error that applies |
| `JobStore.Reconciler.SweepRetention` | internal/reconciler/reconciler.go:235-276 | deletes only rows past their state's retention, and all of them for each state unless 20 full batches went, a delete failed or the context was cancelled; not due, it does nothing |
| `JobStore.Reconciler.SweepState` | internal/reconciler/reconciler.go:235-276 | one state's batches: only prunable rows go, and a clean end means none is left |
| `Backoff.NewEngine` | internal/retry/backoff.go:29-49 | the defaults and clamps by value; positive delays in order, a multiplier above one, jitter within bounds |
| `Backoff.Delay` | internal/retry/backoff.go:52-77 | the multiplying loop with its early stop answers the base delay grown once per attempt, stretched by the jitter draw, never above MaxDelay, in whole nanoseconds |
| `Backoff.DelayLaw` | internal/retry/backoff.go:52-77 | for every attempt and draw the delay is BaseDelay at attempt 0 or below, multiplied by the multiplier for each further attempt until MaxDelay, then jittered and capped |
| `Backoff.ServerDelays` | cmd/server/main.go:272-278 | with the server's settings and a draw of zero the delays are 1, 2, 4, 8, 16 and then 30 seconds |
| `Backoff.DelayBounds` | internal/retry/backoff.go:52-77 | between BaseDelay and MaxDelay, and never shorter for a later attempt with the same jitter; Backoff.DelayLaw is the exact growth |
| `Enqueue.AtMostOneRow` | migrations/006_tenants.sql:11-13 | in every interleaving, each (tenant, key) has at most one row |
| `Enqueue.IdempotentEnqueue` | internal/service/job_service.go:38-105 | all successful calls for a key whose row is not pruned return the one row that holds it |
| `Enqueue.SameRowIff` | internal/service/job_service.go:38-105 | if a call returned row x and a later one returned for the same tenant and key, it returned x too iff nothing in between pruned x |
| `Enqueue.InsertsAfterMiss` | internal/service/job_service.go:38-105 | a call goes on to insert only after its own lookup, at which no row of the tenant had its key |
| `Enqueue.KeylessInserts` | internal/service/job_service.go:38-105 | without a key, a call that returns has inserted the job it was given |
| `Enqueue.FailureCause` | internal/service/job_service.go:78-105 | with new ids, a call fails only if the row its insert collided with was pruned before its second lookup |
| `Enqueue.PruningFreesKey` | internal/store/store.go:449-473 | enqueue, prune, enqueue with one key gives two ids |
| `Enqueue.OthersKeepKeys` | internal/store/store.go:176-648 | no protocol step but create and prune changes what enqueueing sees |
| `Enqueue.CreateIsInsert` | internal/store/store.go:72-131 | creating a job in the lease protocol is the insert of this one: same condition, same keys |
| `Scheduler.KeyInjective` | internal/scheduler/scheduler.go:147-203 | for whole minutes the idempotency key determines schedule and instant, colons in ids included |
| `Scheduler.StepKeeps` | internal/scheduler/scheduler.go:147-203 | every step of every replica keeps the fleet's invariant; ScheduleTimes.RunTimes adds which instants its rows and fires carry |
| `Scheduler.NextRunIncreases` | internal/store/schedules.go:187-202 | next_run_at changes only by a winning compare-and-swap, and only upwards; ScheduleTimes.AdvanceIsNextMatch says where to |
| `ScheduleTimes.HistoryMatches` | internal/scheduler/scheduler.go:147-203 | in every run, every next_run_at a schedule has had is an instant its cron accepts |
| `ScheduleTimes.FirstInstant` | internal/store/schedules.go:54-111 | the first is the least match after the clock of the schedule's creation |
| `ScheduleTimes.FireOrigin` | internal/store/schedules.go:149-185 | every fire in flight began with a read of its row, due by that replica's clock |
| `ScheduleTimes.ReadStartsIff` | internal/store/schedules.go:149-185 | a read starts a fire iff the row is there, due by the replica's clock, and has a next match |
| `ScheduleTimes.FireEnds` | internal/scheduler/scheduler.go:147-203 | in every run a fire goes on until it has tried to advance, unless its replica stops or its new job's id is in use: losing the insert to another replica does not end it |
| `ScheduleTimes.AdvanceIsNextMatch` | internal/scheduler/scheduler.go:147-223 | a winning advance leaves an instant the replica's clock had reached for the least match after that clock |
| `ScheduleTimes.KeyText` | internal/scheduler/scheduler.go:147-203 | the key is sched:, the id, a colon, and the seconds since 1970-01-01 in decimal |
| `Scheduler.OneWinner` | internal/store/schedules.go:187-202 | in every run exactly one fire wins each instant a schedule leaves, and none wins any other |
| `Scheduler.ExactlyOneJob` | internal/scheduler/scheduler.go:147-203 | every instant a schedule was advanced off has exactly one job |
| `ScheduleKeys.NoStrayJobIff` | internal/scheduler/scheduler.go:34-37 | all jobs under keys with the prefix were fired for the one slot their key names iff no caller's enqueue under such a key has landed |
| `ScheduleKeys.OwnJobIff` | internal/scheduler/scheduler.go:147-203 | the job of an instant a schedule has held is the schedule's own iff no caller's enqueue under that tenant and key has landed |
| `ScheduleKeys.FireAdoptsJob` | internal/scheduler/scheduler.go:34-37 | a concrete run: a caller takes the key first, the fire adopts that job, advances, and inserts nothing |
| `CronParser.MarkPart` | internal/scheduler/scheduler.go:267-308 | accepts a comma part iff well formed, and sets exactly the bits it denotes on top of those set |
| `CronParser.ParseField` | internal/scheduler/scheduler.go:267-308 | accepts iff every part is accepted; then a bit is set iff some part denotes the value |
| `CronParser.Parse` | internal/scheduler/scheduler.go:228-263 | accepts iff there are five accepted fields, and the tables mean exactly those fields |
| `CronParser.FieldNonEmpty` | internal/scheduler/scheduler.go:267-308 | every accepted field denotes at least one value |
| `CronParser.AcceptedTablesNonEmpty` | internal/scheduler/scheduler.go:228-308 | hence all five tables of an accepted expression are non-empty |
| `CronText.StarField` | internal/scheduler/scheduler.go:267-308 | a star is accepted and denotes every value |
| `CronText.NumberField` | internal/scheduler/scheduler.go:267-308 | a number is accepted iff in range, and denotes itself alone |
| `CronText.RangeField` | internal/scheduler/scheduler.go:267-308 | a range is accepted iff its ends are in range and in order, and denotes what lies between |
| `CronText.StepField` | internal/scheduler/scheduler.go:267-308 | a step is accepted iff positive, and denotes the least value and every n-th after it |
| `CronText.ListField` | internal/scheduler/scheduler.go:267-308 | a comma list is accepted iff both sides are, and denotes what either does |
| `CronText.NextOfText` | internal/scheduler/scheduler.go:228-345 | for any accepted five-field text, the answer of Next is a civil date and time that every written field denotes |
| `CronText.NextOfTextIsLeast` | internal/scheduler/scheduler.go:228-345 | and no earlier one after the start does |
| `CronText.MondayAtNine` | internal/scheduler/scheduler.go:228-345 | 0 9 * * 1 from midnight of Monday 16 November 2026 answers nine o'clock of that day |
| `Calendar.DateUnique` | internal/scheduler/scheduler.go:321-345 | the civil date computed from a valid date's day number is that date, by the proleptic Gregorian rules |
| `CalendarLaws.WeekdayIsZeller` | internal/scheduler/scheduler.go:330-333 | for every date, the weekday counted from the day number is the one of Zeller's congruence |
| `CalendarLaws.DaysCount` | internal/scheduler/scheduler.go:321-345 | day numbers count civil days one by one from 0001-01-01 |
| `CalendarLaws.MonthLengths` | internal/scheduler/scheduler.go:326-333 | the length of every month of every year |
| `CalendarLaws.FieldsAt` | internal/scheduler/scheduler.go:326-341 | the date, hour, minute and weekday read off a minute of a civil date are those of that date |
| `CalendarLaws.MatchesIffAccepted` | internal/scheduler/scheduler.go:326-341 | the search accepts a minute iff the five tables accept its civil date and time, day of month and weekday both |
| `CalendarLaws.NextIsAccepted` | internal/scheduler/scheduler.go:321-345 | an answer of Next is a civil date and time that all five tables accept |
| `CalendarLaws.NextSkipsNothing` | internal/scheduler/scheduler.go:321-345 | no civil date and time between the start and the answer is accepted, and none within 1460 days if the answer is zero |
| `CalendarLaws.MondaysOnly` | internal/scheduler/scheduler.go:321-345 | a schedule for Mondays alone fires only on Mondays |
| `CronSearch.MonthSkip` | internal/scheduler/scheduler.go:326-329 | jumping to the first of the next month passes over no match |
| `CronSearch.DaySkip` | internal/scheduler/scheduler.go:330-333 | jumping to the next midnight passes over no match |
| `CronSearch.HourSkip` | internal/scheduler/scheduler.go:334-337 | jumping to the next hour passes over no match |
| `CronSearch.Next` | internal/scheduler/scheduler.go:321-345 | the skipping search terminates and returns what the minute-by-minute scan returns, which CalendarLaws.NextIsAccepted and NextSkipsNothing describe by civil dates |
| `CronSearch.NextMeaning` | internal/scheduler/scheduler.go:321-345 | that is the least matching whole minute strictly after from and before from + 1460 days, and zero exactly when there is none; CalendarLaws.MatchesIffAccepted says what matching is |
| `CronSearch.FullDaysOccur` | internal/scheduler/scheduler.go:228-345 | non-empty tables with every day of the month have a match within the horizon of any instant |
| `CronSearch.NeverZero` | internal/scheduler/scheduler.go:228-345 | so Next never answers zero for such an accepted expression |
| `CronSearch.LeapDayMissed` | internal/scheduler/scheduler.go:319-345 | searched from midnight of any 29 February, a leap-day schedule finds nothing, although it matches 1461 days later whenever that year is a leap year too |
| `LeapDays.LeapDayAnswer` | internal/scheduler/scheduler.go:319-345 | from every instant a leap-day schedule answers its next midnight, or zero iff that is 1460 days or more ahead |
| `CronSearch.NextAfter` | internal/scheduler/scheduler.go:212-223 | the loop over missed runs terminates with its specification's result |
| `CronSearch.NextAfterMeaning` | internal/scheduler/scheduler.go:212-223 | a non-zero result is the least match after both from and now, and skipped counts the matches in (from, now] |
| `Base64.RoundTrip` | internal/store/store.go:824-842 | decoding the unpadded base64url encoding gives the bytes back |
| `Base64.CanonicalIff` | internal/store/store.go:828-842 | an accepted string is the encoding of what it decodes to iff it has no line breaks and no stray low bits |
| `Pagination.CursorRoundTrip` | internal/store/store.go:824-842 | the cursor, through UnixMicro and back, loses nothing of a stored time, whatever the id holds |
| `Pagination.ListJobs` | internal/store/store.go:654-727 | a page is the next stretch of eligible rows in order, of the size asked for within 1 to 500, else 500 or 50; a bad cursor is an error; a next cursor iff rows remain |
| `Listings.FirstPage` | internal/store/store.go:654-727 | a first page holds only rows of the tenant, state, queue and name asked for, newest first, ties by the greater id, and omits none newer than its last |
| `Listings.NextPage` | internal/store/store.go:654-727 | so does a later page, among the rows older than its cursor, whether or not the cursor's row is still there |
| `Listings.CursorText` | internal/store/store.go:824-826 | the cursor is the base64url of the row's created_at in microseconds, a bar, and the id |
| `Listings.Vectors` | internal/store/store.go:824-842 | the encoding gives the test vectors of section 10 of RFC 4648, unpadded |
| `Pagination.PagesDescend` | internal/store/store.go:654-727 | everything on a later page lies strictly after the end of every earlier one |
| `Pagination.NoRowTwice` | internal/store/store.go:654-727 | no row is returned twice while rows come, go and change between pages |
| `Pagination.EveryRowShown` | internal/store/store.go:654-727 | a finished walk shows every row present and matching throughout |
| `Pagination.FollowCursor` | internal/store/store.go:654-727 | passing next_cursor back makes such a walk, through the encoding |
| `ListingRuns.CreatedKept` | internal/store/store.go:72-648 | over any run of the lease protocol a job's created_at never changes |
| `ListingRuns.CreatedAtMicros` | internal/store/store.go:72-131 | in every run created_at is at microsecond precision, so cursors carry it exactly |
| `ListingRuns.ExactlyOnce` | internal/store/store.go:654-727 | in every run of the queue, a job present and matching at every fetch appears at exactly one place of the whole walk |
| `Redlock.NewManager` | internal/lock/redlock.go:35-52 | the default quorum is the least majority, the other defaults are 10 s, 3 attempts, 200 ms and 0.01, and positive settings are kept |
| `Redlock.DriftCoversNode` | internal/lock/redlock.go:81-83 | the drift allowance covers, and by no whole nanosecond exceeds, what a node's clock drift and TTL rounding can take off a key's life |
| `Redlock.LockTimes` | internal/lock/redlock.go:71-91 | in every run a held lock's start, measurement and stamp are the clocks of three steps of its own call in that order, and its expiry falls short of stamp plus TTL by the time measured, the drift factor's share of the TTL and two milliseconds, to a nanosecond |
| `Redlock.StepKeeps` | internal/lock/redlock.go:56-124 | every step of every client keeps the invariant, the exclusion of guarded windows under a majority included |
| `Redlock.MutualExclusion` | internal/lock/redlock.go:56-100 | in every run under a majority quorum, with nodes that keep keys as their clock drift and rounding allow, the times two unreleased locks on one resource claim are disjoint up to the lag of their stamps |
| `Redlock.KeyGivenBackByOwner` | internal/lock/redlock.go:103-124 | an unexpired key vanishes or changes only when the one call whose value it holds gives it back |
| `RedlockLimits.ExcludesIffMajority` | internal/lock/redlock.go:35-100 | all runs exclude iff the quorum is a majority or drift and rounding can eat the whole TTL |
| `RedlockLimits.SplitQuorums` | internal/lock/redlock.go:56-100 | for every quorum that is no majority, a run in which two calls hold one resource at once |
| `RedlockLimits.ClaimsApartIffNoLag` | internal/lock/redlock.go:81-91 | under a majority, claimed windows are disjoint in all runs iff no time passes between measuring and stamping |
| `RedlockClient.Manager.SetAll` | internal/lock/redlock.go:71-79 | the SET NX loop, with the other clients at work between its commands, is a stretch of protocol steps, and acquired counts the nodes won |
| `RedlockClient.Manager.DeleteAll` | internal/lock/redlock.go:93-96 | so is the delete loop; if every node answered, none holds the caller's value at the end, whatever the others did |
| `RedlockClient.Manager.Attempt` | internal/lock/redlock.go:62-97 | one attempt ends holding, stamped by its own clock with an expiry short by exactly the drift allowance and the time measured, or given back and ready to retry |
| `RedlockClient.Manager.AcquireLock` | internal/lock/redlock.go:56-100 | a lock is returned iff the protocol ends holding, with an expiry short of stamp plus TTL by time measured, drift and two milliseconds; then a quorum of nodes keep the caller's value to the end of the claim less its lag; without one, all attempts were made, with the delay before each but the first, or the context was cancelled |
| `RedlockClient.Manager.Release` | internal/lock/redlock.go:115-124 | the protocol's release on every node; none holds the caller's value afterwards if no node failed |
| `AdvisoryLock.StepKeeps` | internal/lock/postgres.go:64-168 | every call, failure, late lock, late unlock and session end keeps the bookkeeping invariant |
| `AdvisoryLock.AcquireOkIff` | internal/lock/postgres.go:64-91 | Acquire succeeds iff the process does not hold the resource, has a live session, hears back, and no other session has the key; exactly then the resource becomes held |
| `AdvisoryLock.ReleaseOkIff` | internal/lock/postgres.go:93-120 | Release fails iff it had to ask and got no answer; the resource is never held afterwards |
| `AdvisoryLock.Bookkeeping` | internal/lock/postgres.go:64-168 | in every run a live process's session holds each key exactly as often as held resources hash to it |
| `AdvisoryLock.HeldApart` | internal/lock/postgres.go:64-168 | two processes with live sessions never hold resources of one key, killed sessions elsewhere or not |
| `AdvisoryLock.AlwaysLive` | internal/lock/postgres.go:141-168 | unless the server kills a session in use, every process stays live |
| `AdvisoryLock.MutualExclusion` | internal/lock/postgres.go:64-168 | so without kills two processes' held sets never share a hashed key |
| `AdvisoryLock.KilledGuardsNothing` | internal/lock/postgres.go:64-91 | once its session was killed and no session has the key, another process is granted what a process still believes it holds |
| `AdvisoryLock.KilledSessionShared` | internal/lock/postgres.go:64-91 | and a run reaches that for every resource |
| `AdvisoryLock.GuardsIffLive` | internal/lock/postgres.go:64-168 | some continuation without kills grants a held resource's key to another live process iff the holder's session was killed |
| `AdvisoryClient.Advisory.Acquire` | internal/lock/postgres.go:64-91 | in place, the protocol's acquire for every outcome of the dial and the query, for which Bookkeeping and HeldApart are proved |
| `AdvisoryClient.Advisory.Release` | internal/lock/postgres.go:93-120 | in place, the protocol's release for every outcome |
| `AdvisoryClient.Advisory.OpenSession` | internal/lock/postgres.go:141-151 | reuses the session, or opens one, or reports that it could not |
| `AdvisoryClient.Advisory.Close` | internal/lock/postgres.go:124-128 | gives up the session and everything held on it |
| `AdvisoryClient.Advisory.Discard` | internal/lock/postgres.go:160-168 | forgets session and held set together |
| `Breaker.Normalised` | internal/circuitbreaker/circuitbreaker.go:32-46 | positive settings are kept, and the defaults are 5, 2, one minute and 1 |
| `Breaker.CircuitBreaker.Allow` | internal/circuitbreaker/circuitbreaker.go:48-67 | in place, the Allow step of the runs below, for which OpenRefuses and RecoveryIff are proved |
| `Breaker.CircuitBreaker.RecordSuccess` | internal/circuitbreaker/circuitbreaker.go:69-84 | in place, the success step of those runs, which ClosedStretch counts between |
| `Breaker.CircuitBreaker.RecordFailure` | internal/circuitbreaker/circuitbreaker.go:86-103 | in place, the failure step of those runs, which OpensOnlyAfterFailures is about |
| `Breaker.ClosedStretch` | internal/circuitbreaker/circuitbreaker.go:69-103 | a closed breaker's count is the number of failures in the longest success-free closed stretch up to now |
| `Breaker.OpensOnlyAfterFailures` | internal/circuitbreaker/circuitbreaker.go:86-103 | Open is entered only by a failure, half-open or as the last of exactly FailureThreshold in one such stretch |
| `Breaker.ThresholdOpens` | internal/circuitbreaker/circuitbreaker.go:86-103 | and never fails to be: no closed stretch without a success holds that many failures |
| `Breaker.OpenRefuses` | internal/circuitbreaker/circuitbreaker.go:48-67 | from opening until the timeout has passed, every Allow is refused and nothing changes |
| `Breaker.RecoverableIffNotStuck` | internal/circuitbreaker/circuitbreaker.go:48-103 | a reachable state has a way back to closed iff it is not half-open with its quota used up and nothing running |
| `Breaker.RecoveryIff` | internal/circuitbreaker/circuitbreaker.go:48-103 | every reachable state recovers by waiting, Allow and RecordSuccess iff HalfOpenRequests >= SuccessThreshold |
| `Breaker.ServerSettingsStick` | cmd/server/main.go:254-259 | under the server's own settings some run leaves a breaker refusing for ever |
| `Wakers.Waker.C` | internal/queue/waker.go:19-23 | hands out a channel that is not closed |
| `Wakers.Waker.Wake` | internal/queue/waker.go:25-30 | closes a channel never closed before and installs a new one |
| `LongPoll.NoDoubleClose` | internal/queue/waker.go:25-30 | in every run Wake's channel is open when it is closed |
| `LongPoll.BlockedQuietly` | internal/api/worker.go:95-124 | a claimer blocked in its sleep took its channel before its last query, which found nothing, and no Wake has come since |
| `LongPoll.NoLostWakeup` | internal/api/worker.go:95-124 | no claimer is left blocked while a job it wants has stayed ready through a Wake |
| `LongPoll.WakeUnblocksAll` | internal/queue/waker.go:25-30 | one Wake unblocks every sleeper |
| `ReconcilerWake.WakePendingOrFollowed` | internal/reconciler/reconciler.go:117-153 | every Wake is still buffered or followed by the start of a pass |
| `ReconcilerWake.PendingIsTaken` | internal/reconciler/reconciler.go:139-151 | between passes a buffered wake-up can be taken, and taking it starts a pass |
| `ReconcilerWake.NoPhantomWake` | internal/reconciler/reconciler.go:117-153 | passes the buffer starts, plus the buffered one, never outnumber the Wakes |

## Left out

- Gin handlers, middleware, authentication, key storage and error envelopes: request plumbing; only the wait loop of ClaimJob is modelled.
- The Kafka, Redis, pgx and LISTEN/NOTIFY clients: represented by arbitrary delivery, lost replies and atomic commands.
- Postgres below the statement: snapshots, rechecks after a lock wait, deadlocks, and the time a single-row statement spends waiting for a lock between taking its timestamp and writing it.
- A Redis command that takes effect after its caller has moved on, and a node that loses its keys in a restart.
- Payload, metadata, timeout and updated_at columns, and the JSON of any of them.
- Wrap-around of 64-bit times and durations, and floating-point rounding of backoff and drift.
- Text encodings: strings are compared by code, where the database may use a collation, and Go's treatment of invalid UTF-8 is not modelled.
- Local time zones: the cron search works on UTC instants, as the scheduler calls it.
- The dispatch loop's fire budget and any liveness of the scheduler: a due schedule that cannot fire stays at the head.
- Eventual completion and fairness: every theorem is about what has happened so far in a run.
- The webhook and SQL executors, the worker pool, migrations, configuration, logging, metrics and the backlog sample.
- taskBreakers: a lookup of one breaker per task name; each is a breaker of its own.
- The FNV hash behind advisoryKey: the theorems hold for every hash.
- Fires, Enqueue calls and the ClaimJob loop are given as interleaved steps only, not also as straight-line code: their statements are what interleaves.
- JobStore.PostgresStore.ClaimNextJob: the token must be non-empty, which the generator guarantees; what other statements do between its halves is in ClaimOrder.ClaimIsAtomic.
- JobStore.PostgresStore.FailClaimedJob: its caller's read and decision are in FailCalls.FailLinearizable.
- RedlockClient.Manager.AcquireLock: requires the protocol's invariant of the state it starts in, which every reachable state has.
- Pagination.ListJobs: requires ids made of bytes and created_at in whole microseconds that fit 64 bits, which every stored row has.
- Scheduler.ExactlyOneJob: jobs under keys with the scheduler's prefix are taken not to be pruned; Enqueue.SameRowIff says what pruning does to a key.
- Enqueue.IdempotentEnqueue: for a key whose row is not pruned; Enqueue.SameRowIff is the exact condition.
- Microsecond rounding of columns other than created_at.
