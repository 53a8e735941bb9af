/** Firing schedules from any number of replicas with no leader.

    A fire reads a due row, enqueues a job under a key made of the schedule and the
    instant (lookup, insert, second lookup), and then advances the row if its
    next_run_at is still what was read. Fires interleave freely, clocks may disagree,
    and any fire may stop at any point. Callers may enqueue under any key, those that
    start with the scheduler's prefix included. Jobs under such keys are not pruned. */
module Scheduler {
  import opened Wrappers
  import opened Text
  import opened Durations
  import opened Calendar
  import opened CronParser
  import CronSearch
  import E = Enqueue

  type JobId = E.JobId
  type KeyTable = E.KeyTable
  type SchedId = string
  type Fire = nat

  const PREFIX := "sched:"
  /** Seconds from 0001-01-01 to 1970-01-01. */
  const UNIX_EPOCH := 62_135_596_800

  function Unix(t: Instant): int { t / SECOND - UNIX_EPOCH }

  function Key(id: SchedId, t: Instant): string { PREFIX + id + ":" + FormatInt(Unix(t)) }

  datatype Schedule = Schedule(tenant: string, cron: Cron, nextRunAt: Instant, lastJob: Option<JobId>)

  /** One replica firing one schedule: what it read, its clock, its computed next. */
  datatype Firing = Firing(id: SchedId, seen: Schedule, now: Instant, next: Instant, stage: Stage)

  datatype Stage = Reading | Inserting(newId: JobId) | Rereading | Advancing(job: JobId)

  datatype Fleet = Fleet(
    jobs: KeyTable,
    scheds: map<SchedId, Schedule>,
    fires: map<Fire, Firing>,
    history: map<SchedId, seq<Instant>>,   // every next_run_at a schedule has had, in order
    tenants: map<SchedId, string>,
    crons: map<SchedId, Cron>,
    origin: map<JobId, Slot>)              // what each job inserted by a fire was inserted for

  datatype Slot = Slot(id: SchedId, at: Instant)

  datatype Op =
    | CreateSchedule(id: SchedId, tenant: string, cron: Cron, now: Instant)
    | DeleteSchedule(id: SchedId)
    | Read(fire: Fire, id: SchedId, now: Instant)
    | Lookup(fire: Fire, newId: JobId, hit: Option<JobId>)
    | Insert(fire: Fire)
    | SecondLookup(fire: Fire, hit: Option<JobId>)
    | Advance(fire: Fire)
    | Crash(fire: Fire)
    | OtherInsert(job: JobId, row: E.Keyed)
    | OtherPrune(gone: set<JobId>)

  predicate ScheduleKey(key: Option<string>) { key.Some? && PREFIX <= key.value }

  function KeyOf(f: Firing): Option<string> { Some(Key(f.id, f.seen.nextRunAt)) }

  function CreateStep(s: Fleet, id: SchedId, tenant: string, cron: Cron, now: Instant): Fleet {
    var next := CronSearch.NextSpec(cron, now);
    if id in s.history || next == ZERO_TIME then s
    else s.(scheds := s.scheds[id := Schedule(tenant, cron, next, None)],
            history := s.history[id := [next]], tenants := s.tenants[id := tenant], crons := s.crons[id := cron])
  }

  /** A row that is due by the replica's clock starts a fire, unless its cron has no next match. */
  function ReadStep(s: Fleet, f: Fire, id: SchedId, now: Instant): Fleet {
    if f in s.fires || id !in s.scheds || s.scheds[id].nextRunAt > now then s
    else
      var row := s.scheds[id];
      var next := CronSearch.NextAfterSpec(row.cron, row.nextRunAt, now).0;
      if next == ZERO_TIME then s
      else s.(fires := s.fires[f := Firing(id, row, now, next, Reading)])
  }

  function LookupStep(s: Fleet, f: Fire, newId: JobId, hit: Option<JobId>): Fleet {
    if f !in s.fires || !s.fires[f].stage.Reading? || !E.Found(s.jobs, s.fires[f].seen.tenant, KeyOf(s.fires[f]), hit) then s
    else s.(fires := s.fires[f := s.fires[f].(stage := if hit.Some? then Advancing(hit.value) else Inserting(newId))])
  }

  function Inserted(s: Fleet, f: Fire, job: JobId): Fleet
    requires f in s.fires
  {
    var fire := s.fires[f];
    s.(jobs := s.jobs[job := E.Keyed(fire.seen.tenant, KeyOf(fire))],
       fires := s.fires[f := fire.(stage := Advancing(job))],
       origin := s.origin[job := Slot(fire.id, fire.seen.nextRunAt)])
  }

  function InsertStep(s: Fleet, f: Fire): Fleet {
    if f !in s.fires || !s.fires[f].stage.Inserting? then s
    else
      var fire := s.fires[f];
      var job := fire.stage.newId;
      if E.Taken(s.jobs, fire.seen.tenant, KeyOf(fire)) then s.(fires := s.fires[f := fire.(stage := Rereading)])
      else if job in s.jobs then s.(fires := s.fires - {f})
      else Inserted(s, f, job)
  }

  function SecondLookupStep(s: Fleet, f: Fire, hit: Option<JobId>): Fleet {
    if f !in s.fires || !s.fires[f].stage.Rereading? || !E.Found(s.jobs, s.fires[f].seen.tenant, KeyOf(s.fires[f]), hit) then s
    else if hit.Some? then s.(fires := s.fires[f := s.fires[f].(stage := Advancing(hit.value))])
    else s.(fires := s.fires - {f})
  }

  function AdvanceStep(s: Fleet, f: Fire): Fleet {
    if f !in s.fires || !s.fires[f].stage.Advancing? then s
    else
      var fire := s.fires[f];
      if Wins(s, f) then
        s.(scheds := s.scheds[fire.id := s.scheds[fire.id].(nextRunAt := fire.next, lastJob := Some(fire.stage.job))],
           history := s.history[fire.id := (if fire.id in s.history then s.history[fire.id] else []) + [fire.next]],
           fires := s.fires - {f})
      else s.(fires := s.fires - {f})
  }

  function OtherInsertStep(s: Fleet, job: JobId, row: E.Keyed): Fleet {
    if job in s.jobs || E.Taken(s.jobs, row.tenant, row.key) then s else s.(jobs := s.jobs[job := row])
  }

  function OtherPruneStep(s: Fleet, gone: set<JobId>): Fleet {
    if exists job :: job in gone && job in s.jobs && ScheduleKey(s.jobs[job].key) then s
    else s.(jobs := s.jobs - gone)
  }

  function Step(s: Fleet, op: Op): Fleet {
    match op
    case CreateSchedule(id, tenant, cron, now) => CreateStep(s, id, tenant, cron, now)
    case DeleteSchedule(id) => s.(scheds := s.scheds - {id})
    case Read(f, id, now) => ReadStep(s, f, id, now)
    case Lookup(f, newId, hit) => LookupStep(s, f, newId, hit)
    case Insert(f) => InsertStep(s, f)
    case SecondLookup(f, hit) => SecondLookupStep(s, f, hit)
    case Advance(f) => AdvanceStep(s, f)
    case Crash(f) => s.(fires := s.fires - {f})
    case OtherInsert(job, row) => OtherInsertStep(s, job, row)
    case OtherPrune(gone) => OtherPruneStep(s, gone)
  }

  /** The conditional UPDATE matches: next_run_at is still the observed value. */
  predicate Wins(s: Fleet, f: Fire) {
    && f in s.fires && s.fires[f].stage.Advancing?
    && s.fires[f].id in s.scheds && s.scheds[s.fires[f].id].nextRunAt == s.fires[f].seen.nextRunAt
  }

  function Run(ops: seq<Op>): Fleet {
    if ops == [] then Fleet(map[], map[], map[], map[], map[], map[], map[]) else Step(Run(ops[..|ops| - 1]), ops[|ops| - 1])
  }

  // ---------- the key names one schedule and one minute ----------

  lemma LastColon(a: string, b: string, m: string, n: string)
    requires ':' !in m && ':' !in n && a + ":" + m == b + ":" + n
    ensures a == b && m == n
  {
    var s := a + ":" + m;
    assert forall i :: |a| < i < |s| ==> s[i] in m;
    assert s == b + ":" + n && forall i :: |b| < i < |s| ==> s[i] in n;
    assert s[|a|] == ':' && s[|b|] == ':';
    assert s[..|a|] == a && s[|a| + 1..] == m;
    assert s[..|b|] == b && s[|b| + 1..] == n;
  }

  lemma KeyInjective(id: SchedId, other: SchedId, t: Instant, u: Instant)
    requires t % NANOS_PER_MINUTE == 0 && u % NANOS_PER_MINUTE == 0
    requires Key(id, t) == Key(other, u)
    ensures id == other && t == u
  {
    hide FormatInt, Unix;
    var a, b := PREFIX + id, PREFIX + other;
    LastColon(a, b, FormatInt(Unix(t)), FormatInt(Unix(u)));
    assert a[|PREFIX|..] == id && b[|PREFIX|..] == other;
    FormatIntInjective(Unix(t), Unix(u));
    MinuteOfUnix(t);
    MinuteOfUnix(u);
  }

  /** A whole minute is recovered from its Unix seconds. */
  lemma MinuteOfUnix(t: Instant)
    requires t % NANOS_PER_MINUTE == 0
    ensures t == (Unix(t) + UNIX_EPOCH) * SECOND
  {
  }

  lemma KeyHasPrefix(id: SchedId, t: Instant)
    ensures ScheduleKey(Some(Key(id, t)))
  {
  }

  // ---------- the invariant ----------

  predicate Aligned(t: Instant) { t % NANOS_PER_MINUTE == 0 }

  predicate Increasing(h: seq<Instant>) {
    forall i, j :: 0 <= i < j < |h| ==> h[i] < h[j]
  }

  predicate HistoryOk(h: seq<Instant>) {
    |h| >= 1 && Increasing(h) && forall t :: t in h ==> Aligned(t)
  }

  function Last(h: seq<Instant>): Instant
    requires |h| >= 1
  {
    h[|h| - 1]
  }

  /** The instants the schedule has been advanced off. */
  function Past(h: seq<Instant>): seq<Instant> { if h == [] then [] else h[..|h| - 1] }

  /** The schedule with this id once had t as its next_run_at. */
  predicate Held(s: Fleet, id: SchedId, t: Instant) { id in s.history && t in s.history[id] }

  predicate HasJob(s: Fleet, tenant: string, id: SchedId, t: Instant) {
    E.Taken(s.jobs, tenant, Some(Key(id, t)))
  }

  predicate FireOk(s: Fleet, f: Firing) {
    && Held(s, f.id, f.seen.nextRunAt) && f.id in s.tenants && f.seen.tenant == s.tenants[f.id]
    && f.next > f.seen.nextRunAt && Aligned(f.next)
    && (f.stage.Advancing? ==> E.Holds(s.jobs, f.stage.job, f.seen.tenant, KeyOf(f)))
    && (f.stage.Rereading? ==> HasJob(s, f.seen.tenant, f.id, f.seen.nextRunAt))
  }

  predicate RowOk(s: Fleet, id: SchedId, row: Schedule) {
    && id in s.history && |s.history[id]| >= 1 && row.nextRunAt == Last(s.history[id])
    && id in s.tenants && row.tenant == s.tenants[id]
  }

  /** A job that a fire inserted is there, under the key of an instant its schedule has had. */
  predicate JobOk(s: Fleet, job: JobId, slot: Slot) {
    && Held(s, slot.id, slot.at) && slot.id in s.tenants
    && E.Holds(s.jobs, job, s.tenants[slot.id], Some(Key(slot.id, slot.at)))
  }

  ghost predicate HistoriesOk(s: Fleet) {
    && (forall id :: id in s.history ==> HistoryOk(s.history[id]))
    && s.tenants.Keys == s.history.Keys
  }
  ghost predicate FiresOk(s: Fleet) {
    forall f :: f in s.fires ==> FireOk(s, s.fires[f])
  }
  ghost predicate RowsOk(s: Fleet) {
    forall id :: id in s.scheds ==> RowOk(s, id, s.scheds[id])
  }
  ghost predicate JobsOk(s: Fleet) {
    E.UniqueKeys(s.jobs) && forall job :: job in s.origin ==> JobOk(s, job, s.origin[job])
  }
  /** Every instant a schedule was advanced off has its job. */
  ghost predicate PastOk(s: Fleet) {
    forall id, t :: id in s.history && id in s.tenants && t in Past(s.history[id]) ==> HasJob(s, s.tenants[id], id, t)
  }

  ghost predicate Inv(s: Fleet) {
    HistoriesOk(s) && FiresOk(s) && RowsOk(s) && JobsOk(s) && PastOk(s)
  }

  // ---------- steps on the jobs table ----------

  /** The jobs table only gains rows, or loses rows without a schedule key. */
  ghost predicate KeepsScheduleJobs(jobs: KeyTable, jobs': KeyTable) {
    forall j :: j in jobs && ScheduleKey(jobs[j].key) ==> j in jobs' && jobs'[j] == jobs[j]
  }

  lemma JobsFrame(s: Fleet, jobs: KeyTable)
    requires Inv(s) && KeepsScheduleJobs(s.jobs, jobs)
    requires E.UniqueKeys(jobs)
    ensures Inv(s.(jobs := jobs))
  {
    hide Key, ScheduleKey, HistoryOk, Aligned;
    var s' := s.(jobs := jobs);
    forall f | f in s'.fires ensures FireOk(s', s'.fires[f]) {
      assert FireOk(s, s.fires[f]);
      JobStays(s, s', s.fires[f].seen.tenant, s.fires[f].id, s.fires[f].seen.nextRunAt);
    }
    forall id, t | id in s'.history && id in s'.tenants && t in Past(s'.history[id])
      ensures HasJob(s', s'.tenants[id], id, t)
    {
      assert HasJob(s, s.tenants[id], id, t);
      JobStays(s, s', s.tenants[id], id, t);
    }
    forall job | job in s'.origin ensures JobOk(s', job, s'.origin[job]) {
      var slot := s.origin[job];
      assert JobOk(s, job, slot);
      JobStays(s, s', s.tenants[slot.id], slot.id, slot.at);
    }
  }

  lemma JobStays(s: Fleet, s': Fleet, tenant: string, id: SchedId, t: Instant)
    requires KeepsScheduleJobs(s.jobs, s'.jobs)
    ensures forall j :: E.Holds(s.jobs, j, tenant, Some(Key(id, t))) ==> E.Holds(s'.jobs, j, tenant, Some(Key(id, t)))
    ensures HasJob(s, tenant, id, t) ==> HasJob(s', tenant, id, t)
  {
    KeyHasPrefix(id, t);
    hide Key, ScheduleKey;
    if HasJob(s, tenant, id, t) {
      var j :| j in s.jobs && E.Holds(s.jobs, j, tenant, Some(Key(id, t)));
      assert E.Holds(s'.jobs, j, tenant, Some(Key(id, t)));
    }
  }

  /** Adding a row under a key nobody holds keeps the keys unique. */
  lemma AddKeepsUnique(jobs: KeyTable, job: JobId, row: E.Keyed)
    requires E.UniqueKeys(jobs) && job !in jobs && !E.Taken(jobs, row.tenant, row.key)
    ensures E.UniqueKeys(jobs[job := row])
  {
    forall j | j in jobs && jobs[j] == row && row.key.Some? ensures E.Taken(jobs, row.tenant, row.key) {
      assert E.Holds(jobs, j, row.tenant, row.key);
    }
  }

  // ---------- steps on the fires ----------

  lemma FireFrame(s: Fleet, fires: map<Fire, Firing>)
    requires Inv(s) && forall f :: f in fires ==> FireOk(s, fires[f])
    ensures Inv(s.(fires := fires))
  {
    hide Key, HistoryOk, Aligned;
    var s' := s.(fires := fires);
    forall f | f in fires ensures FireOk(s', fires[f]) {
      assert FireOk(s, fires[f]);
    }
    forall id, t | id in s'.history && id in s'.tenants && t in Past(s'.history[id])
      ensures HasJob(s', s'.tenants[id], id, t)
    {
      assert HasJob(s, s.tenants[id], id, t);
    }
    forall job | job in s'.origin ensures JobOk(s', job, s'.origin[job]) {
      assert JobOk(s, job, s.origin[job]);
    }
  }

  // ---------- steps on the schedules ----------

  /** Histories only grow, so what was held stays held. */
  lemma Extends(s: Fleet, s': Fleet)
    requires Inv(s) && s'.jobs == s.jobs && s'.fires == s.fires && s'.origin == s.origin
    requires forall id :: id in s.history ==> id in s'.history && s.history[id] <= s'.history[id]
    requires forall id :: id in s.tenants ==> id in s'.tenants && s'.tenants[id] == s.tenants[id]
    ensures FiresOk(s') && JobsOk(s')
  {
    hide Key, HistoryOk, Aligned;
    forall id, t | Held(s, id, t) ensures Held(s', id, t) {}
    forall f | f in s'.fires ensures FireOk(s', s'.fires[f]) {
      assert FireOk(s, s.fires[f]);
    }
    forall job | job in s'.origin ensures JobOk(s', job, s'.origin[job]) {
      assert JobOk(s, job, s.origin[job]);
    }
  }

  lemma CreateKeeps(s: Fleet, id: SchedId, tenant: string, cron: Cron, next: Instant)
    requires Inv(s) && id !in s.history && Aligned(next)
    ensures Inv(s.(scheds := s.scheds[id := Schedule(tenant, cron, next, None)],
                   history := s.history[id := [next]], tenants := s.tenants[id := tenant], crons := s.crons[id := cron]))
  {
    assert HistoryOk([next]) && Past([next]) == [] && Last([next]) == next;
    hide Key, FireOk, JobOk, Aligned, HasJob, HistoryOk, Past, Last;
    var s' := s.(scheds := s.scheds[id := Schedule(tenant, cron, next, None)],
                 history := s.history[id := [next]], tenants := s.tenants[id := tenant], crons := s.crons[id := cron]);
    Extends(s, s');
    forall other, t | other in s'.history && other in s'.tenants && t in Past(s'.history[other])
      ensures HasJob(s', s'.tenants[other], other, t)
    {
      SameJobs(s, s', s'.tenants[other], other, t);
      assert other != id;
    }
  }

  lemma DeleteKeeps(s: Fleet, id: SchedId)
    requires Inv(s)
    ensures Inv(s.(scheds := s.scheds - {id}))
  {
    hide Key, FireOk, JobOk, HistoryOk;
    var s' := s.(scheds := s.scheds - {id});
    Extends(s, s');
    forall other, t | other in s'.history && other in s'.tenants && t in Past(s'.history[other])
      ensures HasJob(s', s'.tenants[other], other, t)
    {
      assert HasJob(s, s.tenants[other], other, t);
    }
  }

  lemma ReadKeeps(s: Fleet, f: Fire, id: SchedId, now: Instant, next: Instant)
    requires Inv(s) && id in s.scheds && next > s.scheds[id].nextRunAt && Aligned(next)
    ensures Inv(s.(fires := s.fires[f := Firing(id, s.scheds[id], now, next, Reading)]))
  {
    hide Key, HistoryOk, Aligned;
    assert RowOk(s, id, s.scheds[id]);
    FireFrame(s, s.fires[f := Firing(id, s.scheds[id], now, next, Reading)]);
  }

  /** A fire moves to a stage that its key already justifies. */
  lemma StageKeeps(s: Fleet, f: Fire, stage: Stage)
    requires Inv(s) && f in s.fires
    requires stage.Advancing? ==> E.Holds(s.jobs, stage.job, s.fires[f].seen.tenant, KeyOf(s.fires[f]))
    requires stage.Rereading? ==> E.Taken(s.jobs, s.fires[f].seen.tenant, KeyOf(s.fires[f]))
    ensures Inv(s.(fires := s.fires[f := s.fires[f].(stage := stage)]))
  {
    hide Key, HistoryOk, Aligned;
    assert FireOk(s, s.fires[f]);
    FireFrame(s, s.fires[f := s.fires[f].(stage := stage)]);
  }

  lemma DropKeeps(s: Fleet, f: Fire)
    requires Inv(s)
    ensures Inv(s.(fires := s.fires - {f}))
  {
    hide FireOk;
    FireFrame(s, s.fires - {f});
  }

  lemma InsertKeeps(s: Fleet, f: Fire, job: JobId)
    requires Inv(s) && f in s.fires && job !in s.jobs
    requires !E.Taken(s.jobs, s.fires[f].seen.tenant, KeyOf(s.fires[f]))
    ensures Inv(s.(jobs := s.jobs[job := E.Keyed(s.fires[f].seen.tenant, KeyOf(s.fires[f]))],
                   fires := s.fires[f := s.fires[f].(stage := Advancing(job))],
                   origin := s.origin[job := Slot(s.fires[f].id, s.fires[f].seen.nextRunAt)]))
  {
    hide Key, HistoryOk, Aligned;
    var fire := s.fires[f];
    var row := E.Keyed(fire.seen.tenant, KeyOf(fire));
    assert FireOk(s, fire);
    AddKeepsUnique(s.jobs, job, row);
    JobsFrame(s, s.jobs[job := row]);
    var s1 := s.(jobs := s.jobs[job := row]);
    StageKeeps(s1, f, Advancing(job));
    OriginFrame(s1.(fires := s1.fires[f := fire.(stage := Advancing(job))]), job, Slot(fire.id, fire.seen.nextRunAt));
  }

  lemma OriginFrame(s: Fleet, job: JobId, slot: Slot)
    requires Inv(s) && JobOk(s, job, slot)
    ensures Inv(s.(origin := s.origin[job := slot]))
  {
    hide Key, HistoryOk, Aligned, ScheduleKey;
    var s' := s.(origin := s.origin[job := slot]);
    forall f | f in s'.fires ensures FireOk(s', s'.fires[f]) { assert FireOk(s, s.fires[f]); }
    forall j | j in s'.origin ensures JobOk(s', j, s'.origin[j]) {
      assert j != job ==> JobOk(s, j, s.origin[j]);
    }
    forall id, t | id in s'.history && id in s'.tenants && t in Past(s'.history[id])
      ensures HasJob(s', s'.tenants[id], id, t)
    {
      assert HasJob(s, s.tenants[id], id, t);
    }
  }

  lemma AppendInstant(h: seq<Instant>, next: Instant)
    requires HistoryOk(h) && next > Last(h) && Aligned(next)
    ensures HistoryOk(h + [next]) && Past(h + [next]) == h && Last(h + [next]) == next
    ensures forall t :: t in h ==> t == Last(h) || t in Past(h)
  {
    hide Aligned;
  }

  /** Moving a schedule on keeps the invariant once the instant it leaves has a job. */
  lemma MoveKeeps(s: Fleet, id: SchedId, next: Instant, job: JobId)
    requires Inv(s) && id in s.scheds && Aligned(next) && next > s.scheds[id].nextRunAt
    requires HasJob(s, s.scheds[id].tenant, id, s.scheds[id].nextRunAt)
    ensures id in s.history
    ensures Inv(s.(scheds := s.scheds[id := s.scheds[id].(nextRunAt := next, lastJob := Some(job))],
                   history := s.history[id := s.history[id] + [next]]))
  {
    hide JobOk, FireOk, Aligned, HasJob, Key, PastOk;
    assert RowOk(s, id, s.scheds[id]);
    var h := s.history[id];
    AppendInstant(h, next);
    hide HistoryOk, Past, Last;
    var s' := s.(scheds := s.scheds[id := s.scheds[id].(nextRunAt := next, lastJob := Some(job))],
                 history := s.history[id := h + [next]]);
    Extends(s, s');
    MovePast(s, s', id, next);
  }

  lemma MovePast(s: Fleet, s': Fleet, id: SchedId, next: Instant)
    requires PastOk(s) && id in s.history && HistoryOk(s.history[id]) && id in s.tenants
    requires s'.history == s.history[id := s.history[id] + [next]] && s'.tenants == s.tenants && s'.jobs == s.jobs
    requires HasJob(s, s.tenants[id], id, Last(s.history[id]))
    ensures PastOk(s')
  {
    assert |s.history[id]| >= 1;
    hide HasJob, Key, HistoryOk;
    assert Past(s.history[id] + [next]) == s.history[id];
    LastOrPast(s.history[id]);
    forall other, t | other in s'.history && other in s'.tenants && t in Past(s'.history[other])
      ensures HasJob(s', s'.tenants[other], other, t)
    {
      SameJobs(s, s', s.tenants[other], other, t);
      if t in Past(s.history[other]) { PastHasJob(s, other, t); }
    }
  }

  lemma LastOrPast(h: seq<Instant>)
    requires |h| >= 1
    ensures forall t :: t in h ==> t == Last(h) || t in Past(h)
  {
    assert h == Past(h) + [Last(h)];
  }

  lemma PastHasJob(s: Fleet, id: SchedId, t: Instant)
    requires PastOk(s) && id in s.history && id in s.tenants && t in Past(s.history[id])
    ensures HasJob(s, s.tenants[id], id, t)
  {
  }

  lemma SameJobs(s: Fleet, s': Fleet, tenant: string, id: SchedId, t: Instant)
    requires s'.jobs == s.jobs
    ensures HasJob(s', tenant, id, t) == HasJob(s, tenant, id, t)
  {
  }

  lemma AdvanceKeeps(s: Fleet, f: Fire)
    requires Inv(s) && Wins(s, f)
    ensures Inv(Step(s, Advance(f)))
  {
    hide Key, JobOk, Aligned, CronSearch.NextSpec, CronSearch.NextAfterSpec, PastOk, JobsOk, HistoriesOk;
    var fire := s.fires[f];
    assert RowOk(s, fire.id, s.scheds[fire.id]) && FireOk(s, fire);
    MoveKeeps(s, fire.id, fire.next, fire.stage.job);
    DropKeeps(s.(scheds := s.scheds[fire.id := s.scheds[fire.id].(nextRunAt := fire.next, lastJob := Some(fire.stage.job))],
                 history := s.history[fire.id := s.history[fire.id] + [fire.next]]), f);
  }

  lemma OtherInsertKeeps(s: Fleet, job: JobId, row: E.Keyed)
    requires Inv(s) && job !in s.jobs && !E.Taken(s.jobs, row.tenant, row.key)
    ensures Inv(s.(jobs := s.jobs[job := row]))
  {
    hide Key, ScheduleKey, HistoryOk, FireOk;
    AddKeepsUnique(s.jobs, job, row);
    JobsFrame(s, s.jobs[job := row]);
  }

  lemma StepKeeps(s: Fleet, op: Op)
    requires Inv(s)
    ensures Inv(Step(s, op))
  {
    hide HistoriesOk, FiresOk, RowsOk, JobsOk, PastOk, Key, ScheduleKey, E.Found, E.Taken, E.Holds;
    hide CronSearch.NextSpec, CronSearch.NextAfterSpec;
    match op {
      case CreateSchedule(id, tenant, cron, now) =>
        var next := CronSearch.NextSpec(cron, now);
        if id !in s.history && next != ZERO_TIME {
          assert Aligned(next) by { NextAligned(cron, now); }
          CreateKeeps(s, id, tenant, cron, next);
        }
      case DeleteSchedule(id) => DeleteKeeps(s, id);
      case Read(f, id, now) =>
        if f !in s.fires && id in s.scheds {
          NextAfterAligned(s.scheds[id].cron, s.scheds[id].nextRunAt, now);
          var next := CronSearch.NextAfterSpec(s.scheds[id].cron, s.scheds[id].nextRunAt, now).0;
          if next != ZERO_TIME { ReadKeeps(s, f, id, now, next); }
        }
      case Lookup(f, newId, hit) => LookupKeeps(s, f, newId, hit);
      case Insert(f) =>
        if f in s.fires && s.fires[f].stage.Inserting? {
          var job := s.fires[f].stage.newId;
          if E.Taken(s.jobs, s.fires[f].seen.tenant, KeyOf(s.fires[f])) { StageKeeps(s, f, Rereading); }
          else if job in s.jobs { DropKeeps(s, f); }
          else { InsertKeeps(s, f, job); }
        }
      case SecondLookup(f, hit) => SecondLookupKeeps(s, f, hit);
      case Advance(f) => if Wins(s, f) { AdvanceKeeps(s, f); } else { DropKeeps(s, f); }
      case Crash(f) => DropKeeps(s, f);
      case OtherInsert(job, row) =>
        if job !in s.jobs && !E.Taken(s.jobs, row.tenant, row.key) { OtherInsertKeeps(s, job, row); }
      case OtherPrune(gone) => OtherPruneKeeps(s, gone);
    }
  }

  lemma LookupKeeps(s: Fleet, f: Fire, newId: JobId, hit: Option<JobId>)
    requires Inv(s)
    ensures Inv(Step(s, Lookup(f, newId, hit)))
  {
    hide HistoriesOk, FiresOk, RowsOk, JobsOk, PastOk, Key, CronSearch.NextSpec, CronSearch.NextAfterSpec;
    if f in s.fires && E.Found(s.jobs, s.fires[f].seen.tenant, KeyOf(s.fires[f]), hit) {
      StageKeeps(s, f, if hit.Some? then Advancing(hit.value) else Inserting(newId));
    }
  }

  lemma SecondLookupKeeps(s: Fleet, f: Fire, hit: Option<JobId>)
    requires Inv(s)
    ensures Inv(Step(s, SecondLookup(f, hit)))
  {
    hide HistoriesOk, FiresOk, RowsOk, JobsOk, PastOk, Key, CronSearch.NextSpec, CronSearch.NextAfterSpec;
    DropKeeps(s, f);
    if f in s.fires && hit.Some? && E.Found(s.jobs, s.fires[f].seen.tenant, KeyOf(s.fires[f]), hit) {
      StageKeeps(s, f, Advancing(hit.value));
    }
  }

  lemma OtherPruneKeeps(s: Fleet, gone: set<JobId>)
    requires Inv(s)
    ensures Inv(Step(s, OtherPrune(gone)))
  {
    hide Key, ScheduleKey, HistoryOk, FireOk, CronSearch.NextSpec, CronSearch.NextAfterSpec;
    if !exists job :: job in gone && job in s.jobs && ScheduleKey(s.jobs[job].key) {
      JobsFrame(s, s.jobs - gone);
    }
  }

  lemma NextAligned(c: Cron, from: Instant)
    ensures CronSearch.NextSpec(c, from) != ZERO_TIME ==> Aligned(CronSearch.NextSpec(c, from))
  {
    hide CronSearch.NextSpec, CronSearch.Matches;
  }

  lemma NextAfterAligned(c: Cron, from: Instant, now: Instant)
    ensures var next := CronSearch.NextAfterSpec(c, from, now).0;
      next != ZERO_TIME ==> Aligned(next) && next > from
  {
    hide CronSearch.NextAfterSpec, CronSearch.Matches;
    CronSearch.NextAfterMeaning(c, from, now);
  }

  lemma {:induction false} RunInv(ops: seq<Op>)
    ensures Inv(Run(ops))
  {
    hide Step, Key, ScheduleKey;
    if ops != [] {
      RunInv(ops[..|ops| - 1]);
      StepKeeps(Run(ops[..|ops| - 1]), ops[|ops| - 1]);
    }
  }

  // ---------- whole runs ----------

  /** The step is the conditional update that moves schedule id off instant t. */
  ghost predicate WinsOff(s: Fleet, op: Op, id: SchedId, t: Instant) {
    op.Advance? && Wins(s, op.fire) && s.fires[op.fire].id == id && s.scheds[id].nextRunAt == t
  }

  /** A schedule's history grows only by a winning advance off its last instant, and
      always to a later one. */
  lemma HistoryStep(s: Fleet, op: Op, id: SchedId)
    requires Inv(s) && id in s.history
    ensures id in Step(s, op).history && |s.history[id]| >= 1
    ensures var h, h' := s.history[id], Step(s, op).history[id];
      if WinsOff(s, op, id, Last(h)) then h' == h + [Last(h')] && Last(h') > Last(h) else h' == h
    ensures forall t :: WinsOff(s, op, id, t) ==> t == Last(s.history[id])
  {
    hide Step, PastOk, JobsOk, Aligned;
    HistoryShapes(s, op);
    if op.Advance? && Wins(s, op.fire) {
      var fire := s.fires[op.fire];
      assert RowOk(s, fire.id, s.scheds[fire.id]) && FireOk(s, fire);
    }
  }

  /** The two steps that write histories. */
  lemma HistoryShapes(s: Fleet, op: Op)
    ensures !op.CreateSchedule? && !(op.Advance? && Wins(s, op.fire)) ==> Step(s, op).history == s.history
    ensures op.CreateSchedule? ==>
      || Step(s, op).history == s.history
      || (op.id !in s.history && exists next :: Step(s, op).history == s.history[op.id := [next]])
    ensures op.Advance? && Wins(s, op.fire) ==>
      var fire := s.fires[op.fire];
      Step(s, op).history
      == s.history[fire.id := (if fire.id in s.history then s.history[fire.id] else []) + [fire.next]]
  {
    hide CreateStep, ReadStep, LookupStep, InsertStep, SecondLookupStep, AdvanceStep, OtherInsertStep, OtherPruneStep;
    hide KeyOf, Wins, CronSearch.NextSpec;
    FireShape(s, op);
    match op {
      case CreateSchedule(id, tenant, cron, now) => CreateShape(s, id, tenant, cron, now);
      case Advance(f) => AdvanceShape(s, f);
      case OtherInsert(job, row) => OtherInsertShape(s, job, row);
      case OtherPrune(gone) => OtherPruneShape(s, gone);
      case _ =>
    }
  }

  lemma CreateShape(s: Fleet, id: SchedId, tenant: string, cron: Cron, now: Instant)
    ensures var s' := CreateStep(s, id, tenant, cron, now);
      var next := CronSearch.NextSpec(cron, now);
      && s'.jobs == s.jobs && s'.origin == s.origin && s'.fires == s.fires
      && if id in s.history || next == ZERO_TIME then s' == s
         else s'.scheds == s.scheds[id := Schedule(tenant, cron, next, None)] && s'.history == s.history[id := [next]]
              && s'.tenants == s.tenants[id := tenant] && s'.crons == s.crons[id := cron]
  {
    hide CronSearch.NextSpec;
  }

  /** A fire that wins moves its schedule on; every advance ends its fire. */
  lemma AdvanceShape(s: Fleet, f: Fire)
    ensures var s' := AdvanceStep(s, f);
      && s'.jobs == s.jobs && s'.origin == s.origin && s'.tenants == s.tenants && s'.crons == s.crons
      && (s'.fires == s.fires || s'.fires == s.fires - {f})
      && if Wins(s, f) then
           var fire := s.fires[f];
           && s'.scheds == s.scheds[fire.id := s.scheds[fire.id].(nextRunAt := fire.next, lastJob := Some(fire.stage.job))]
           && s'.history == s.history[fire.id := (if fire.id in s.history then s.history[fire.id] else []) + [fire.next]]
         else s'.scheds == s.scheds && s'.history == s.history
  {
    if Wins(s, f) {
      var fire := s.fires[f];
      var row := s.scheds[fire.id].(nextRunAt := fire.next, lastJob := Some(fire.stage.job));
      var h := (if fire.id in s.history then s.history[fire.id] else []) + [fire.next];
      assert AdvanceStep(s, f) == s.(scheds := s.scheds[fire.id := row], history := s.history[fire.id := h], fires := s.fires - {f});
    }
  }

  /** The steps of a fire before its advance touch no schedule. */
  lemma FireShape(s: Fleet, op: Op)
    ensures op.Read? || op.Lookup? || op.Insert? || op.SecondLookup? || op.Crash? ==>
      var s' := Step(s, op);
      s'.scheds == s.scheds && s'.history == s.history && s'.tenants == s.tenants && s'.crons == s.crons
    ensures op.Read? || op.Lookup? || op.SecondLookup? || op.Crash? ==>
      Step(s, op).jobs == s.jobs && Step(s, op).origin == s.origin
  {
    hide CreateStep, ReadStep, LookupStep, InsertStep, SecondLookupStep, AdvanceStep, OtherInsertStep, OtherPruneStep;
    match op {
      case Read(f, id, now) => ReadShape(s, f, id, now);
      case Lookup(f, newId, hit) => LookupShape(s, f, newId, hit);
      case Insert(f) => InsertShape(s, f);
      case SecondLookup(f, hit) => SecondLookupShape(s, f, hit);
      case _ =>
    }
  }

  predicate OnlyFires(s: Fleet, s': Fleet) { s' == s.(fires := s'.fires) }

  lemma ReadShape(s: Fleet, f: Fire, id: SchedId, now: Instant)
    ensures OnlyFires(s, ReadStep(s, f, id, now))
  {
    hide CronSearch.NextAfterSpec;
  }

  lemma LookupShape(s: Fleet, f: Fire, newId: JobId, hit: Option<JobId>)
    ensures OnlyFires(s, LookupStep(s, f, newId, hit))
  {
    hide E.Found, KeyOf;
  }

  lemma InsertShape(s: Fleet, f: Fire)
    ensures InsertStep(s, f) == s.(fires := InsertStep(s, f).fires, jobs := InsertStep(s, f).jobs, origin := InsertStep(s, f).origin)
  {
    hide E.Taken, KeyOf, Inserted;
    if f in s.fires && s.fires[f].stage.Inserting? { InsertedShape(s, f, s.fires[f].stage.newId); }
  }

  lemma InsertedShape(s: Fleet, f: Fire, job: JobId)
    requires f in s.fires
    ensures var r := Inserted(s, f, job);
      && r == s.(fires := r.fires, jobs := r.jobs, origin := r.origin)
      && r.fires == s.fires[f := s.fires[f].(stage := Advancing(job))]
  {
    hide KeyOf;
  }

  lemma SecondLookupShape(s: Fleet, f: Fire, hit: Option<JobId>)
    ensures OnlyFires(s, SecondLookupStep(s, f, hit))
  {
    hide E.Found, KeyOf;
  }

  lemma OtherInsertShape(s: Fleet, job: JobId, row: E.Keyed)
    ensures OtherInsertStep(s, job, row) == s.(jobs := OtherInsertStep(s, job, row).jobs)
  {
    hide E.Taken;
  }

  lemma OtherPruneShape(s: Fleet, gone: set<JobId>)
    ensures OtherPruneStep(s, gone) == s.(jobs := OtherPruneStep(s, gone).jobs)
  {
    hide ScheduleKey;
  }

  /** next_run_at strictly increases: a row changes only by winning an advance. */
  lemma NextRunIncreases(s: Fleet, op: Op, id: SchedId)
    requires Inv(s) && id in s.scheds && id in Step(s, op).scheds
    ensures var was, now := s.scheds[id].nextRunAt, Step(s, op).scheds[id].nextRunAt;
      (WinsOff(s, op, id, was) && now > was) || (!WinsOff(s, op, id, was) && now == was)
  {
    hide Step, WinsOff, HistoriesOk, FiresOk, JobsOk, PastOk;
    StepKeeps(s, op);
    assert RowOk(s, id, s.scheds[id]) && RowOk(Step(s, op), id, Step(s, op).scheds[id]);
    HistoryStep(s, op, id);
  }

  /** How many steps of the run won the advance of id off t. */
  ghost function WinCount(ops: seq<Op>, id: SchedId, t: Instant): nat {
    if ops == [] then 0
    else
      var before := ops[..|ops| - 1];
      WinCount(before, id, t) + if WinsOff(Run(before), ops[|ops| - 1], id, t) then 1 else 0
  }

  /** Exactly one fire wins each instant the schedule leaves, and none wins any other. */
  lemma {:induction false} OneWinner(ops: seq<Op>, id: SchedId, t: Instant)
    ensures WinCount(ops, id, t) ==
      if id in Run(ops).history && t in Past(Run(ops).history[id]) then 1 else 0
  {
    hide Step, WinsOff, HistoryOk;
    if ops != [] {
      var before, op := ops[..|ops| - 1], ops[|ops| - 1];
      var s := Run(before);
      OneWinner(before, id, t);
      RunInv(before);
      if id in s.history {
        HistoryStep(s, op, id);
        HistoryShape(s, id);
      } else {
        NewHistory(s, op, id, t);
      }
    }
  }

  lemma HistoryShape(s: Fleet, id: SchedId)
    requires Inv(s) && id in s.history
    ensures var h := s.history[id];
      && h == Past(h) + [Last(h)] && Last(h) !in Past(h)
      && forall t :: Past(h + [t]) == h
  {
  }

  lemma NewHistory(s: Fleet, op: Op, id: SchedId, t: Instant)
    requires Inv(s) && id !in s.history
    ensures !WinsOff(s, op, id, t)
    ensures id in Step(s, op).history ==> Past(Step(s, op).history[id]) == []
  {
    hide Step, PastOk, JobsOk, Aligned;
    HistoryShapes(s, op);
    if op.Advance? && Wins(s, op.fire) { assert RowOk(s, s.fires[op.fire].id, s.scheds[s.fires[op.fire].id]); }
  }

  /** Every instant a schedule has left has exactly one job. */
  lemma ExactlyOneJob(ops: seq<Op>, id: SchedId, t: Instant)
    ensures id in Run(ops).history && t in Past(Run(ops).history[id]) ==>
      id in Run(ops).tenants && OneJob(Run(ops).jobs, Run(ops).tenants[id], Some(Key(id, t)))
  {
    hide Step, Run, Key, ScheduleKey, HistoryOk, FireOk, JobOk;
    RunInv(ops);
    var s := Run(ops);
    if id in s.history && t in Past(s.history[id]) {
      assert HasJob(s, s.tenants[id], id, t);
      var job :| job in s.jobs && E.Holds(s.jobs, job, s.tenants[id], Some(Key(id, t)));
    }
  }

  /** One row and no other holds the key. */
  ghost predicate OneJob(jobs: KeyTable, tenant: string, key: Option<string>) {
    exists job :: E.Holds(jobs, job, tenant, key) && forall other :: E.Holds(jobs, other, tenant, key) ==> other == job
  }
}
