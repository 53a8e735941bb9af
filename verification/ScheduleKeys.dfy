/** Whose jobs the scheduler's keys name. Callers share the key space with the scheduler,
    so a job under a schedule's key may be a caller's. */
module ScheduleKeys {
  import opened Wrappers
  import opened Calendar
  import opened CronParser
  import CronSearch
  import E = Enqueue
  import opened Scheduler

  /** Every job whose row is among `rows` was inserted by a fire. */
  ghost predicate AllFired(s: Fleet, rows: iset<E.Keyed>) {
    forall job :: job in s.jobs && s.jobs[job] in rows ==> job in s.origin
  }

  /** The step is a caller's enqueue that lands on a row among `rows`. */
  ghost predicate Intrudes(s: Fleet, op: Op, rows: iset<E.Keyed>) {
    op.OtherInsert? && op.row in rows && op.job !in s.jobs && !E.Taken(s.jobs, op.row.tenant, op.row.key)
  }

  ghost predicate Undisturbed(ops: seq<Op>, rows: iset<E.Keyed>) {
    forall k :: 0 <= k < |ops| ==> !Intrudes(Run(ops[..k]), ops[k], rows)
  }

  ghost predicate AllScheduleKeys(rows: iset<E.Keyed>) { forall row :: row in rows ==> ScheduleKey(row.key) }

  /** How one step changes the jobs and their origins. */
  lemma JobsStep(s: Fleet, op: Op, job: JobId)
    requires Inv(s)
    ensures job in s.origin ==> job in s.jobs && job in Step(s, op).origin
    ensures job in s.jobs && ScheduleKey(s.jobs[job].key) ==> job in Step(s, op).jobs && Step(s, op).jobs[job] == s.jobs[job]
    ensures job in Step(s, op).jobs && job !in s.jobs ==>
      || job in Step(s, op).origin
      || (op.OtherInsert? && op.job == job && op.row == Step(s, op).jobs[job] && !E.Taken(s.jobs, op.row.tenant, op.row.key))
    ensures job in Step(s, op).jobs && job in s.jobs ==> Step(s, op).jobs[job] == s.jobs[job]
    ensures job in Step(s, op).origin && job !in s.origin ==> job !in s.jobs && !op.OtherInsert?
    ensures op.OtherInsert? && op.job == job && job !in s.jobs && !E.Taken(s.jobs, op.row.tenant, op.row.key) ==>
      job in Step(s, op).jobs && Step(s, op).jobs[job] == op.row
  {
    hide Step, Key, ScheduleKey, E.Taken, HistoriesOk, FiresOk, RowsOk, PastOk, E.UniqueKeys;
    JobsShapes(s, op);
    assert job in s.origin ==> JobOk(s, job, s.origin[job]);
  }

  /** The three steps that write the jobs table. */
  lemma JobsShapes(s: Fleet, op: Op)
    ensures var s' := Step(s, op);
      || (s'.jobs == s.jobs && s'.origin == s.origin
          && !(op.OtherInsert? && op.job !in s.jobs && !E.Taken(s.jobs, op.row.tenant, op.row.key)))
      || (op.Insert? && exists job, row, slot :: InsertedAs(s, s', job, row, slot))
      || (op.OtherInsert? && op.job !in s.jobs && !E.Taken(s.jobs, op.row.tenant, op.row.key)
          && s'.jobs == s.jobs[op.job := op.row] && s'.origin == s.origin)
      || (op.OtherPrune? && s'.jobs == s.jobs - op.gone && s'.origin == s.origin
          && forall job :: job in op.gone && job in s.jobs ==> !ScheduleKey(s.jobs[job].key))
  {
    hide Key, ScheduleKey, E.Taken, InsertedAs;
    hide CreateStep, ReadStep, LookupStep, InsertStep, SecondLookupStep, AdvanceStep, OtherInsertStep, OtherPruneStep;
    match op {
      case Insert(f) => InsertJobs(s, f);
      case OtherInsert(_, _) => OthersShape(s, op);
      case OtherPrune(_) => OthersShape(s, op);
      case CreateSchedule(id, tenant, cron, now) => CreateShape(s, id, tenant, cron, now);
      case DeleteSchedule(_) =>
      case Advance(f) => AdvanceShape(s, f);
      case _ => FireShape(s, op);
    }
  }

  lemma OthersShape(s: Fleet, op: Op)
    requires op.OtherInsert? || op.OtherPrune?
    ensures Step(s, op).origin == s.origin
    ensures op.OtherInsert? ==>
      var lands := op.job !in s.jobs && !E.Taken(s.jobs, op.row.tenant, op.row.key);
      Step(s, op).jobs == if lands then s.jobs[op.job := op.row] else s.jobs
    ensures op.OtherPrune? ==>
      || Step(s, op).jobs == s.jobs
      || (Step(s, op).jobs == s.jobs - op.gone
          && forall job :: job in op.gone && job in s.jobs ==> !ScheduleKey(s.jobs[job].key))
  {
    hide ScheduleKey, E.Taken;
  }

  lemma InsertJobs(s: Fleet, f: Fire)
    ensures var s' := Step(s, Insert(f));
      || (s'.jobs == s.jobs && s'.origin == s.origin)
      || exists job, row, slot :: InsertedAs(s, s', job, row, slot)
  {
    hide Key, E.Taken;
    if f in s.fires && s.fires[f].stage.Inserting? {
      var fire := s.fires[f];
      var job := fire.stage.newId;
      assert job !in s.jobs && !E.Taken(s.jobs, fire.seen.tenant, KeyOf(fire)) ==>
        InsertedAs(s, Step(s, Insert(f)), job, E.Keyed(fire.seen.tenant, KeyOf(fire)), Slot(fire.id, fire.seen.nextRunAt));
    }
  }

  predicate InsertedAs(s: Fleet, s': Fleet, job: JobId, row: E.Keyed, slot: Slot) {
    job !in s.jobs && s'.jobs == s.jobs[job := row] && s'.origin == s.origin[job := slot]
  }

  lemma FiredStep(s: Fleet, op: Op, rows: iset<E.Keyed>)
    requires Inv(s) && AllScheduleKeys(rows)
    ensures AllFired(Step(s, op), rows) <==> AllFired(s, rows) && !Intrudes(s, op, rows)
  {
    hide Step, Inv, ScheduleKey, E.Taken;
    forall job { JobsStep(s, op, job); }
    if op.OtherInsert? { JobsStep(s, op, op.job); }
  }

  lemma {:induction false} FiredIff(ops: seq<Op>, rows: iset<E.Keyed>)
    requires AllScheduleKeys(rows)
    ensures AllFired(Run(ops), rows) <==> Undisturbed(ops, rows)
  {
    hide Step, Inv, AllScheduleKeys, Intrudes;
    if ops != [] {
      var n := |ops| - 1;
      var before := ops[..n];
      FiredIff(before, rows);
      RunInv(before);
      FiredStep(Run(before), ops[n], rows);
      assert forall k :: 0 <= k < n ==> before[..k] == ops[..k];
      assert Undisturbed(ops, rows) <==> Undisturbed(before, rows) && !Intrudes(Run(before), ops[n], rows);
    }
  }

  // ---------- every schedule key ----------

  ghost function ScheduleRows(): iset<E.Keyed> { iset row: E.Keyed | ScheduleKey(row.key) }

  /** The job was inserted by a fire of a schedule, under its tenant and the key of an
      instant it has had as its next_run_at; and the key names no other. */
  ghost predicate FiredFor(s: Fleet, job: JobId, slot: Slot) {
    && job in s.origin && s.origin[job] == slot && JobOk(s, job, slot)
    && forall id, t :: Held(s, id, t) && s.jobs[job].key == Some(Key(id, t)) ==> slot == Slot(id, t)
  }

  lemma OriginIsSlot(ops: seq<Op>, job: JobId)
    ensures job in Run(ops).origin ==> FiredFor(Run(ops), job, Run(ops).origin[job])
  {
    hide Step, Run, Key, FireOk, ScheduleKey;
    RunInv(ops);
    var s := Run(ops);
    if job in s.origin {
      var slot := s.origin[job];
      assert JobOk(s, job, slot);
      forall id, t | Held(s, id, t) && s.jobs[job].key == Some(Key(id, t)) ensures slot == Slot(id, t) {
        assert HistoryOk(s.history[id]) && HistoryOk(s.history[slot.id]);
        KeyInjective(slot.id, id, slot.at, t);
      }
    }
  }

  /** In every run, all jobs under keys with the scheduler's prefix were fired for a slot
      of a schedule if and only if no caller's enqueue under such a key has landed. */
  lemma NoStrayJobIff(ops: seq<Op>)
    ensures (forall job :: job in Run(ops).jobs && ScheduleKey(Run(ops).jobs[job].key) ==>
              exists slot :: FiredFor(Run(ops), job, slot))
      <==> Undisturbed(ops, ScheduleRows())
  {
    hide Run, ScheduleKey, Undisturbed, FiredFor;
    FiredIff(ops, ScheduleRows());
    var s := Run(ops);
    forall job | job in s.origin ensures FiredFor(s, job, s.origin[job]) { OriginIsSlot(ops, job); }
    assert forall job, slot :: FiredFor(s, job, slot) ==> job in s.origin by { FiredIsOrigin(s); }
  }

  lemma FiredIsOrigin(s: Fleet)
    ensures forall job, slot :: FiredFor(s, job, slot) ==> job in s.origin
  {
  }

  // ---------- one schedule and one instant ----------

  ghost function SlotRows(tenant: string, id: SchedId, t: Instant): iset<E.Keyed> {
    iset{E.Keyed(tenant, Some(Key(id, t)))}
  }

  /** Whatever job the slot's key has was fired for it. */
  ghost predicate OwnJobs(s: Fleet, id: SchedId, t: Instant)
    requires id in s.tenants
  {
    forall job :: E.Holds(s.jobs, job, s.tenants[id], Some(Key(id, t))) ==> FiredFor(s, job, Slot(id, t))
  }

  /** The job of an instant that a schedule has held is the schedule's own if and only if
      no caller's enqueue under that tenant and key has landed. */
  lemma OwnJobIff(ops: seq<Op>, id: SchedId, t: Instant)
    ensures var s := Run(ops);
      Held(s, id, t) ==>
        && id in s.tenants
        && (OwnJobs(s, id, t) <==> Undisturbed(ops, SlotRows(s.tenants[id], id, t)))
  {
    hide Run, Key, ScheduleKey, Undisturbed, Inv;
    var s := Run(ops);
    HeldHasTenant(ops, id, t);
    if !Held(s, id, t) { return; }
    var rows := SlotRows(s.tenants[id], id, t);
    KeyHasPrefix(id, t);
    FiredIff(ops, rows);
    forall job | job in s.jobs && s.jobs[job] in rows
      ensures E.Holds(s.jobs, job, s.tenants[id], Some(Key(id, t)))
      ensures job in s.origin <==> FiredFor(s, job, Slot(id, t))
    {
      if job in s.origin { OriginIsSlot(ops, job); }
    }
    assert forall job :: E.Holds(s.jobs, job, s.tenants[id], Some(Key(id, t))) ==> job in s.jobs && s.jobs[job] in rows;
  }

  lemma HeldHasTenant(ops: seq<Op>, id: SchedId, t: Instant)
    ensures Held(Run(ops), id, t) ==> id in Run(ops).tenants
  {
    hide Run, FiresOk, RowsOk, JobsOk, PastOk;
    RunInv(ops);
  }

  // ---------- a fire that adopts a caller's job ----------

  function Always(n: nat): seq<bool> { seq(n, _ => true) }

  const EVERY_MINUTE: Cron := Cron(Always(60), Always(24), Always(31), Always(12), Always(7))

  lemma NextMinute(k: nat)
    ensures CronSearch.NextSpec(EVERY_MINUTE, k * NANOS_PER_MINUTE) == (k + 1) * NANOS_PER_MINUTE
  {
    hide CronSearch.NextSpec, CronSearch.Matches;
    var from, t := k * NANOS_PER_MINUTE, (k + 1) * NANOS_PER_MINUTE;
    CronSearch.NextMeaning(EVERY_MINUTE, from);
    assert CronSearch.MatchAt(EVERY_MINUTE, t) by { MinuteMatches(k + 1); }
    var r := CronSearch.NextSpec(EVERY_MINUTE, from);
    assert r != ZERO_TIME && r <= t;
  }

  lemma MinuteMatches(k: int)
    ensures CronSearch.Matches(EVERY_MINUTE, k)
  {
    hide CivilDate;
  }

  /** A caller enqueues under the key of a schedule's first instant before it comes. */
  function AdoptingRun(): seq<Op> {
    [CreateSchedule("s", "t", EVERY_MINUTE, 0),
     OtherInsert("x", E.Keyed("t", Some(Key("s", NANOS_PER_MINUTE)))),
     Read(0, "s", NANOS_PER_MINUTE), Lookup(0, "y", Some("x")), Advance(0)]
  }

  /** The fire takes the caller's job for its own, advances the schedule, and inserts
      nothing: the run of that instant is skipped. */
  lemma FireAdoptsJob()
    ensures var s := Run(AdoptingRun());
      && s.jobs == map["x" := E.Keyed("t", Some(Key("s", NANOS_PER_MINUTE)))] && s.origin == map[]
      && s.scheds == map["s" := Schedule("t", EVERY_MINUTE, 2 * NANOS_PER_MINUTE, Some("x"))]
  {
    hide Step, Key, Always;
    var ops := AdoptingRun();
    RunStep(ops, 0);
    RunStep(ops, 1);
    RunStep(ops, 2);
    RunStep(ops, 3);
    RunStep(ops, 4);
    assert ops[..0] == [] && ops[..5] == ops;
    AdoptCreate();
    AdoptInsert();
    AdoptRead();
    AdoptLookup();
    AdoptAdvance();
  }

  lemma RunStep(ops: seq<Op>, k: nat)
    requires k < |ops|
    ensures Run(ops[..k + 1]) == Step(Run(ops[..k]), ops[k])
  {
    hide Step;
    assert ops[..k + 1][..k] == ops[..k];
  }

  function AdoptState(jobs: KeyTable, fires: map<Fire, Firing>): Fleet {
    Fleet(jobs, map["s" := Schedule("t", EVERY_MINUTE, NANOS_PER_MINUTE, None)], fires,
          map["s" := [NANOS_PER_MINUTE]], map["s" := "t"], map["s" := EVERY_MINUTE], map[])
  }

  function CallersJob(): KeyTable { map["x" := E.Keyed("t", Some(Key("s", NANOS_PER_MINUTE)))] }

  function AdoptingFire(stage: Stage): map<Fire, Firing> {
    map[0 := Firing("s", Schedule("t", EVERY_MINUTE, NANOS_PER_MINUTE, None), NANOS_PER_MINUTE, 2 * NANOS_PER_MINUTE, stage)]
  }

  lemma AdoptCreate()
    ensures Step(Run([]), CreateSchedule("s", "t", EVERY_MINUTE, 0)) == AdoptState(map[], map[])
  {
    hide Always, CronSearch.NextSpec;
    NextMinute(0);
  }

  lemma AdoptInsert()
    ensures Step(AdoptState(map[], map[]), OtherInsert("x", E.Keyed("t", Some(Key("s", NANOS_PER_MINUTE)))))
         == AdoptState(CallersJob(), map[])
  {
    hide Always, Key;
  }

  lemma AdoptRead()
    ensures Step(AdoptState(CallersJob(), map[]), Read(0, "s", NANOS_PER_MINUTE)) == AdoptState(CallersJob(), AdoptingFire(Reading))
  {
    hide Always, Key, CronSearch.NextSpec;
    NextMinute(1);
    assert CronSearch.NextAfterSpec(EVERY_MINUTE, NANOS_PER_MINUTE, NANOS_PER_MINUTE).0 == 2 * NANOS_PER_MINUTE;
  }

  lemma AdoptLookup()
    ensures Step(AdoptState(CallersJob(), AdoptingFire(Reading)), Lookup(0, "y", Some("x")))
         == AdoptState(CallersJob(), AdoptingFire(Advancing("x")))
  {
    hide Always, Key;
  }

  lemma AdoptAdvance()
    ensures var s := Step(AdoptState(CallersJob(), AdoptingFire(Advancing("x"))), Advance(0));
      && s.jobs == CallersJob() && s.origin == map[]
      && s.scheds == map["s" := Schedule("t", EVERY_MINUTE, 2 * NANOS_PER_MINUTE, Some("x"))]
  {
    hide Always, Key;
    assert Wins(AdoptState(CallersJob(), AdoptingFire(Advancing("x"))), 0);
  }
}
