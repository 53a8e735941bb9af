/** When schedules fire: every instant a schedule has had is one its cron accepts, and an
    advance goes to the next such instant after the replica's own clock. */
module ScheduleTimes {
  import opened Wrappers
  import opened Calendar
  import opened CronParser
  import CronSearch
  import E = Enqueue
  import opened Scheduler
  import opened Text

  /** The least instant after `after` that the cron accepts. */
  ghost predicate NextMatch(cron: Cron, after: Instant, t: Instant) {
    after < t && CronSearch.MatchAt(cron, t) && CronSearch.NoMatchBetween(cron, after, t)
  }

  ghost predicate HistoryTimes(s: Fleet) {
    forall id :: id in s.history ==>
      id in s.crons && forall t :: t in s.history[id] ==> CronSearch.MatchAt(s.crons[id], t)
  }

  ghost predicate RowTimes(s: Fleet) {
    forall id :: id in s.scheds ==> id in s.history && id in s.crons && s.scheds[id].cron == s.crons[id]
  }

  ghost predicate FireTime(s: Fleet, f: Firing) {
    && f.id in s.history && f.id in s.crons && f.seen.cron == s.crons[f.id]
    && f.seen.nextRunAt <= f.now && NextMatch(f.seen.cron, f.now, f.next)
  }

  ghost predicate TimesOk(s: Fleet) {
    HistoryTimes(s) && RowTimes(s) && forall f :: f in s.fires ==> FireTime(s, s.fires[f])
  }

  // ---------- every step keeps it ----------

  lemma CreateTimes(s: Fleet, op: Op)
    requires TimesOk(s) && op.CreateSchedule?
    ensures TimesOk(Step(s, op))
  {
    hide CreateStep, CronSearch.NextSpec, CronSearch.MatchAt;
    CreateShape(s, op.id, op.tenant, op.cron, op.now);
    CronSearch.NextMeaning(op.cron, op.now);
    hide NextMatch;
    var s' := Step(s, op);
    forall f | f in s'.fires ensures FireTime(s', s'.fires[f]) { assert FireTime(s, s.fires[f]); }
  }

  lemma ReadTimes(s: Fleet, op: Op)
    requires TimesOk(s) && op.Read?
    ensures TimesOk(Step(s, op))
  {
    hide CronSearch.NextAfterSpec, CronSearch.MatchAt;
    if op.id in s.scheds { CronSearch.NextAfterMeaning(s.scheds[op.id].cron, s.scheds[op.id].nextRunAt, op.now); }
    var s' := Step(s, op);
    forall f | f in s'.fires ensures FireTime(s', s'.fires[f]) {
      assert f in s.fires ==> FireTime(s, s.fires[f]);
    }
  }

  lemma AdvanceTimes(s: Fleet, op: Op)
    requires TimesOk(s) && op.Advance?
    ensures TimesOk(Step(s, op))
  {
    hide AdvanceStep, CronSearch.MatchAt, CronSearch.NoMatchBetween;
    AdvanceShape(s, op.fire);
    var s' := Step(s, op);
    if op.fire in s.fires { assert FireTime(s, s.fires[op.fire]); }
    forall f | f in s'.fires ensures FireTime(s', s'.fires[f]) { assert FireTime(s, s.fires[f]); }
  }

  lemma OtherTimes(s: Fleet, op: Op)
    requires TimesOk(s) && !op.CreateSchedule? && !op.Read? && !op.Advance?
    ensures TimesOk(Step(s, op))
  {
    hide Step, NextMatch, CronSearch.MatchAt;
    OtherShape(s, op);
    var s' := Step(s, op);
    forall f | f in s'.fires ensures FireTime(s', s'.fires[f]) {
      FireStep(s, op, f);
      assert FireTime(s, s.fires[f]);
    }
  }

  /** No other step touches a history, or a schedule but to delete it. */
  lemma OtherShape(s: Fleet, op: Op)
    requires !op.CreateSchedule? && !op.Read? && !op.Advance?
    ensures var s' := Step(s, op);
      && s'.history == s.history && s'.crons == s.crons
      && forall id :: id in s'.scheds ==> id in s.scheds && s'.scheds[id] == s.scheds[id]
  {
    hide LookupStep, InsertStep, SecondLookupStep, OtherInsertStep, OtherPruneStep;
    FireShape(s, op);
    if op.OtherInsert? { OtherInsertShape(s, op.job, op.row); }
    if op.OtherPrune? { OtherPruneShape(s, op.gone); }
  }

  lemma {:induction false} RunTimes(ops: seq<Op>)
    ensures TimesOk(Run(ops))
  {
    hide Step, TimesOk;
    if ops == [] {
      EmptyTimes();
    } else {
      var s, op := Run(ops[..|ops| - 1]), ops[|ops| - 1];
      RunTimes(ops[..|ops| - 1]);
      match op {
        case CreateSchedule(_, _, _, _) => CreateTimes(s, op);
        case Read(_, _, _) => ReadTimes(s, op);
        case Advance(_) => AdvanceTimes(s, op);
        case _ => OtherTimes(s, op);
      }
    }
  }

  lemma EmptyTimes()
    ensures TimesOk(Run([]))
  {
  }

  // ---------- whole runs ----------

  lemma RunStep(ops: seq<Op>, k: nat)
    requires k < |ops|
    ensures Run(ops[..k + 1]) == Step(Run(ops[..k]), ops[k])
  {
    hide Step;
    assert ops[..k + 1][..k] == ops[..k];
  }

  /** Every next_run_at a schedule has ever had is an instant its cron accepts. */
  lemma HistoryMatches(ops: seq<Op>, id: SchedId, t: Instant)
    ensures id in Run(ops).history && t in Run(ops).history[id] ==>
      id in Run(ops).crons && CronSearch.MatchAt(Run(ops).crons[id], t)
  {
    hide Run, CronSearch.MatchAt;
    RunTimes(ops);
  }

  /** A schedule's cron and first instant come from its creation: the first match after
      the creator's clock. */
  lemma {:induction false} FirstInstant(ops: seq<Op>, id: SchedId) returns (k: nat)
    requires id in Run(ops).history
    ensures k < |ops| && ops[k].CreateSchedule? && ops[k].id == id
    ensures var h := Run(ops).history[id];
      && id in Run(ops).crons && Run(ops).crons[id] == ops[k].cron
      && |h| >= 1 && NextMatch(ops[k].cron, ops[k].now, h[0])
  {
    hide Step, NextMatch, Inv;
    var n := |ops| - 1;
    var s := Run(ops[..n]);
    RunInv(ops[..n]);
    if id in s.history {
      k := FirstInstant(ops[..n], id);
      HistoryStep(s, ops[n], id);
      CronStays(s, ops[n], id);
    } else {
      CreatedHistory(s, ops[n], id);
      k := n;
    }
  }

  lemma CronStays(s: Fleet, op: Op, id: SchedId)
    requires id in s.history && id in s.crons
    ensures id in Step(s, op).crons && Step(s, op).crons[id] == s.crons[id]
  {
    hide CreateStep, ReadStep, LookupStep, InsertStep, SecondLookupStep, AdvanceStep, OtherInsertStep, OtherPruneStep;
    FireShape(s, op);
    match op {
      case CreateSchedule(other, tenant, cron, now) => CreateShape(s, other, tenant, cron, now);
      case Advance(f) => AdvanceShape(s, f);
      case OtherInsert(job, row) => OtherInsertShape(s, job, row);
      case OtherPrune(gone) => OtherPruneShape(s, gone);
      case _ =>
    }
  }

  lemma CreatedHistory(s: Fleet, op: Op, id: SchedId)
    requires Inv(s) && id !in s.history && id in Step(s, op).history
    ensures op.CreateSchedule? && op.id == id
    ensures var s' := Step(s, op);
      id in s'.crons && s'.crons[id] == op.cron && |s'.history[id]| == 1 && NextMatch(op.cron, op.now, s'.history[id][0])
  {
    hide CreateStep, CronSearch.NextSpec, CronSearch.MatchAt, CronSearch.NoMatchBetween;
    HistoryShapes(s, op);
    assert op.Advance? && Wins(s, op.fire) ==> s.fires[op.fire].id in s.history by {
      if op.Advance? && Wins(s, op.fire) { RowHasHistory(s, s.fires[op.fire].id); }
    }
    if op.CreateSchedule? {
      CreateShape(s, op.id, op.tenant, op.cron, op.now);
      CronSearch.NextMeaning(op.cron, op.now);
    }
  }

  /** A fire under way began with a read of the row it carries, at its own clock, when the
      row was due by that clock. */
  lemma {:induction false} FireOrigin(ops: seq<Op>, f: Fire) returns (i: nat)
    requires f in Run(ops).fires
    ensures var fire := Run(ops).fires[f];
      && i < |ops| && ops[i] == Read(f, fire.id, fire.now)
      && fire.id in Run(ops[..i]).scheds && Run(ops[..i]).scheds[fire.id] == fire.seen && fire.seen.nextRunAt <= fire.now
  {
    hide Step;
    var n := |ops| - 1;
    var s := Run(ops[..n]);
    FireStep(s, ops[n], f);
    if f in s.fires {
      i := FireOrigin(ops[..n], f);
      assert ops[..n][..i] == ops[..i];
    } else {
      i := n;
    }
  }

  lemma FireStep(s: Fleet, op: Op, f: Fire)
    requires f in Step(s, op).fires
    ensures var fire := Step(s, op).fires[f];
      if f in s.fires then s.fires[f].(stage := fire.stage) == fire
      else op == Read(f, fire.id, fire.now) && fire.id in s.scheds && s.scheds[fire.id] == fire.seen && fire.seen.nextRunAt <= fire.now
  {
    hide CreateStep, AdvanceStep, OtherInsertStep, OtherPruneStep, LookupStep, InsertStep, SecondLookupStep;
    hide CronSearch.NextAfterSpec;
    match op {
      case CreateSchedule(id, tenant, cron, now) => CreateShape(s, id, tenant, cron, now);
      case Advance(g) => AdvanceShape(s, g);
      case OtherInsert(job, row) => OtherInsertShape(s, job, row);
      case OtherPrune(gone) => OtherPruneShape(s, gone);
      case Lookup(g, newId, hit) => LookupStage(s, g, newId, hit, f);
      case Insert(g) => InsertStage(s, g, f);
      case SecondLookup(g, hit) => SecondLookupStage(s, g, hit, f);
      case _ =>
    }
  }

  /** The stages of a fire change nothing else about it. */
  predicate SameButStage(s: Fleet, s': Fleet, f: Fire) {
    f in s'.fires ==> f in s.fires && s.fires[f].(stage := s'.fires[f].stage) == s'.fires[f]
  }

  lemma LookupStage(s: Fleet, g: Fire, newId: JobId, hit: Option<JobId>, f: Fire)
    ensures SameButStage(s, LookupStep(s, g, newId, hit), f)
  {
    hide KeyOf, E.Found;
  }

  lemma InsertStage(s: Fleet, g: Fire, f: Fire)
    ensures SameButStage(s, InsertStep(s, g), f)
  {
    hide KeyOf, E.Taken, Inserted;
    if g in s.fires && s.fires[g].stage.Inserting? { InsertedShape(s, g, s.fires[g].stage.newId); }
  }

  lemma SecondLookupStage(s: Fleet, g: Fire, hit: Option<JobId>, f: Fire)
    ensures SameButStage(s, SecondLookupStep(s, g, hit), f)
  {
    hide KeyOf, E.Found;
  }

  /** A read starts a fire exactly when the row is there, is due by the replica's clock,
      and has a next match. */
  lemma ReadStartsIff(s: Fleet, f: Fire, id: SchedId, now: Instant)
    requires f !in s.fires
    ensures f in Step(s, Read(f, id, now)).fires <==>
      && id in s.scheds && s.scheds[id].nextRunAt <= now
      && CronSearch.NextAfterSpec(s.scheds[id].cron, s.scheds[id].nextRunAt, now).0 != ZERO_TIME
  {
    hide CronSearch.NextAfterSpec, CreateStep, LookupStep, InsertStep, SecondLookupStep, AdvanceStep;
  }

  /** In every run a fire goes on until it has tried to advance, its replica stops, or the
      id of its new job is in use: losing the insert to another replica does not end it. */
  lemma FireEnds(ops: seq<Op>, f: Fire)
    requires ops != [] && f in Run(ops[..|ops| - 1]).fires && f !in Run(ops).fires
    ensures EndsBy(Run(ops[..|ops| - 1]), ops[|ops| - 1], f)
  {
    hide Step, Inv, EndsBy;
    RunInv(ops[..|ops| - 1]);
    EndStep(Run(ops[..|ops| - 1]), ops[|ops| - 1], f);
  }

  predicate EndsBy(s: Fleet, op: Op, f: Fire)
    requires f in s.fires
  {
    || (op == Advance(f) && s.fires[f].stage.Advancing?)
    || op == Crash(f)
    || (op == Insert(f) && s.fires[f].stage.Inserting? && s.fires[f].stage.newId in s.jobs)
  }

  lemma EndStep(s: Fleet, op: Op, f: Fire)
    requires Inv(s) && f in s.fires && f !in Step(s, op).fires
    ensures EndsBy(s, op, f)
  {
    hide CreateStep, ReadStep, AdvanceStep, OtherInsertStep, OtherPruneStep, LookupStep, InsertStep, SecondLookupStep, Inv;
    match op {
      case CreateSchedule(id, tenant, cron, now) => CreateShape(s, id, tenant, cron, now);
      case Read(g, id, now) => ReadEnds(s, g, id, now, f);
      case Advance(g) => AdvanceEnds(s, g, f);
      case OtherInsert(job, row) => OtherInsertShape(s, job, row);
      case OtherPrune(gone) => OtherPruneShape(s, gone);
      case Lookup(g, newId, hit) => LookupEnds(s, g, newId, hit, f);
      case Insert(g) => InsertEnds(s, g, f);
      case SecondLookup(g, hit) => SecondLookupEnds(s, g, hit, f);
      case _ =>
    }
  }

  lemma ReadEnds(s: Fleet, g: Fire, id: SchedId, now: Instant, f: Fire)
    requires f in s.fires
    ensures f in ReadStep(s, g, id, now).fires
  {
    hide CronSearch.NextAfterSpec;
  }

  lemma AdvanceEnds(s: Fleet, g: Fire, f: Fire)
    requires f in s.fires && f !in AdvanceStep(s, g).fires
    ensures g == f && s.fires[f].stage.Advancing?
  {
    hide Wins;
  }

  lemma LookupEnds(s: Fleet, g: Fire, newId: JobId, hit: Option<JobId>, f: Fire)
    requires f in s.fires
    ensures f in LookupStep(s, g, newId, hit).fires
  {
    hide KeyOf, E.Found;
  }

  lemma InsertEnds(s: Fleet, g: Fire, f: Fire)
    requires f in s.fires && f !in InsertStep(s, g).fires
    ensures g == f && s.fires[f].stage.Inserting? && s.fires[f].stage.newId in s.jobs
  {
    hide InsertStep;
    InsertFires(s, g);
  }

  /** An insert keeps every fire, but for its own when the id of the new job is in use. */
  lemma InsertFires(s: Fleet, g: Fire)
    ensures s.fires.Keys - {g} <= InsertStep(s, g).fires.Keys
    ensures g in s.fires && g !in InsertStep(s, g).fires ==>
      s.fires[g].stage.Inserting? && s.fires[g].stage.newId in s.jobs
  {
    hide KeyOf, E.Taken, Inserted;
    if g in s.fires && s.fires[g].stage.Inserting? { InsertedShape(s, g, s.fires[g].stage.newId); }
  }

  lemma SecondLookupEnds(s: Fleet, g: Fire, hit: Option<JobId>, f: Fire)
    requires Inv(s) && f in s.fires
    ensures f in SecondLookupStep(s, g, hit).fires
  {
    hide Key, HistoriesOk, RowsOk, JobsOk, PastOk, Held;
    assert FireOk(s, s.fires[f]);
  }

  lemma RowHasHistory(s: Fleet, id: SchedId)
    requires Inv(s) && id in s.scheds
    ensures id in s.history
  {
    assert RowOk(s, id, s.scheds[id]);
  }

  /** Each win moves next_run_at from an instant that the replica's clock had reached to
      the first match after that clock: late runs are skipped, none is invented. */
  lemma AdvanceIsNextMatch(ops: seq<Op>, j: nat, id: SchedId, left: Instant) returns (i: nat)
    requires j < |ops| && WinsOff(Run(ops[..j]), ops[j], id, left)
    ensures i < j && ops[i].Read? && ops[i].fire == ops[j].fire && ops[i].id == id
    ensures id in Run(ops[..i]).scheds && Run(ops[..i]).scheds[id].nextRunAt == left <= ops[i].now
    ensures id in Run(ops[..j]).crons && id in Run(ops[..j + 1]).scheds
    ensures NextMatch(Run(ops[..j]).crons[id], ops[i].now, Run(ops[..j + 1]).scheds[id].nextRunAt)
  {
    hide Run, NextMatch;
    var s, f := Run(ops[..j]), ops[j].fire;
    RunTimes(ops[..j]);
    assert FireTime(s, s.fires[f]);
    i := FireOrigin(ops[..j], f);
    assert ops[..j][..i] == ops[..i];
    RunStep(ops, j);
  }

  /** The schedule's zero of time is midnight of 1 January 1970, and its key names the second
      counted from there. */
  lemma KeyText(id: SchedId, second: int)
    ensures Key(id, (DayNumber(Date(1970, 1, 1)) * 86_400 + second) * 1_000_000_000) == "sched:" + id + ":" + FormatInt(second)
  {
    hide FormatInt;
    assert DayNumber(Date(1970, 1, 1)) * 86_400 == UNIX_EPOCH;
  }
}
