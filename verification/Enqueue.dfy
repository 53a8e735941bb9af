/** JobService.Enqueue as three separate statements: look the key up, insert, and on
    a unique violation look it up again. Any number of calls interleave. */
module Enqueue {
  import opened Wrappers
  import Jobs
  import LeaseProtocol
  import LeaseInvariant
  import LeaseMoves

  type JobId = Jobs.JobId
  type Call = nat

  /** The columns of a job that enqueueing looks at; no other statement writes them. */
  datatype Keyed = Keyed(tenant: string, key: Option<string>)

  type KeyTable = map<JobId, Keyed>

  datatype Phase =
    | Missed(tenant: string, key: Option<string>, id: JobId)   // looked up, found nothing
    | Collided(tenant: string, key: Option<string>)            // insert hit the unique index
    | Returned(tenant: string, key: Option<string>, id: JobId)
    | Failed(tenant: string, key: Option<string>)

  datatype Sys = Sys(jobs: KeyTable, calls: map<Call, Phase>)

  datatype Op =
    | Lookup(call: Call, tenant: string, key: Option<string>, id: JobId, hit: Option<JobId>)
    | Insert(call: Call)
    | SecondLookup(call: Call, hit: Option<JobId>)
    | Prune(gone: set<JobId>)

  /** The row holding the key within the tenant. */
  predicate Holds(jobs: KeyTable, id: JobId, tenant: string, key: Option<string>) {
    key.Some? && id in jobs && jobs[id] == Keyed(tenant, key)
  }

  predicate Taken(jobs: KeyTable, tenant: string, key: Option<string>) {
    key.Some? && exists id :: id in jobs && Holds(jobs, id, tenant, key)
  }

  /** GetJobByIdempotencyKey: some row with the key, or none if there is none. */
  predicate Found(jobs: KeyTable, tenant: string, key: Option<string>, hit: Option<JobId>) {
    if hit.Some? then Holds(jobs, hit.value, tenant, key) else !Taken(jobs, tenant, key)
  }

  function Step(s: Sys, op: Op): Sys {
    match op
    case Lookup(c, tenant, key, id, hit) =>
      if c in s.calls || !Found(s.jobs, tenant, key, hit) then s
      else if hit.Some? then s.(calls := s.calls[c := Returned(tenant, key, hit.value)])
      else s.(calls := s.calls[c := Missed(tenant, key, id)])
    case Insert(c) =>
      if c !in s.calls || !s.calls[c].Missed? then s
      else
        var Missed(tenant, key, id) := s.calls[c];
        if Taken(s.jobs, tenant, key) then s.(calls := s.calls[c := Collided(tenant, key)])
        else if id in s.jobs then s.(calls := s.calls[c := Failed(tenant, key)])
        else Sys(s.jobs[id := Keyed(tenant, key)], s.calls[c := Returned(tenant, key, id)])
    case SecondLookup(c, hit) =>
      if c !in s.calls || !s.calls[c].Collided? || !Found(s.jobs, s.calls[c].tenant, s.calls[c].key, hit) then s
      else
        var Collided(tenant, key) := s.calls[c];
        s.(calls := s.calls[c := if hit.Some? then Returned(tenant, key, hit.value) else Failed(tenant, key)])
    case Prune(gone) => s.(jobs := s.jobs - gone)
  }

  function Run(ops: seq<Op>): Sys {
    if ops == [] then Sys(map[], map[]) else Step(Run(ops[..|ops| - 1]), ops[|ops| - 1])
  }

  // ---------- the invariant ----------

  ghost predicate UniqueKeys(jobs: KeyTable) {
    forall a, b :: a in jobs && b in jobs && jobs[a] == jobs[b] && jobs[a].key.Some? ==> a == b
  }

  /** Every finished or collided call for the key points at the row holding it. */
  ghost predicate CallsAgree(s: Sys, tenant: string, key: Option<string>) {
    forall c :: c in s.calls && s.calls[c].tenant == tenant && s.calls[c].key == key ==>
      && (s.calls[c].Returned? ==> Holds(s.jobs, s.calls[c].id, tenant, key))
      && (s.calls[c].Collided? ==> Taken(s.jobs, tenant, key))
  }

  lemma StepUnique(s: Sys, op: Op)
    requires UniqueKeys(s.jobs)
    ensures UniqueKeys(Step(s, op).jobs)
  {
    if op.Insert? && op.call in s.calls && s.calls[op.call].Missed? {
      var Missed(tenant, key, id) := s.calls[op.call];
      forall a | a in s.jobs && s.jobs[a] == Keyed(tenant, key) && key.Some?
        ensures Taken(s.jobs, tenant, key)
      {
        assert Holds(s.jobs, a, tenant, key);
      }
    }
  }

  /** In every run, pruning included, each (tenant, key) has at most one row. */
  lemma {:induction false} AtMostOneRow(ops: seq<Op>)
    ensures UniqueKeys(Run(ops).jobs)
  {
    if ops != [] {
      AtMostOneRow(ops[..|ops| - 1]);
      StepUnique(Run(ops[..|ops| - 1]), ops[|ops| - 1]);
    }
  }

  /** The step prunes no row that holds the key. */
  ghost predicate SparesKey(s: Sys, op: Op, tenant: string, key: Option<string>) {
    op.Prune? ==> forall id :: id in op.gone ==> !Holds(s.jobs, id, tenant, key)
  }

  lemma StepAgrees(s: Sys, op: Op, tenant: string, key: Option<string>)
    requires key.Some? && CallsAgree(s, tenant, key) && SparesKey(s, op, tenant, key)
    ensures CallsAgree(Step(s, op), tenant, key)
  {
    var s' := Step(s, op);
    forall id | Holds(s.jobs, id, tenant, key) ensures Holds(s'.jobs, id, tenant, key) {}
    if Taken(s.jobs, tenant, key) {
      var id :| id in s.jobs && Holds(s.jobs, id, tenant, key);
      assert Holds(s'.jobs, id, tenant, key);
    }
  }

  ghost predicate KeySpared(ops: seq<Op>, tenant: string, key: Option<string>) {
    forall i :: 0 <= i < |ops| ==> SparesKey(Run(ops[..i]), ops[i], tenant, key)
  }

  lemma {:induction false} RunAgrees(ops: seq<Op>, tenant: string, key: Option<string>)
    requires key.Some? && KeySpared(ops, tenant, key)
    ensures CallsAgree(Run(ops), tenant, key)
  {
    if ops != [] {
      var n := |ops| - 1;
      assert SparesKey(Run(ops[..n]), ops[n], tenant, key);
      forall i | 0 <= i < n ensures SparesKey(Run(ops[..n][..i]), ops[..n][i], tenant, key) {
        assert ops[..n][..i] == ops[..i];
      }
      RunAgrees(ops[..n], tenant, key);
      StepAgrees(Run(ops[..n]), ops[n], tenant, key);
    }
  }

  /** As long as the key's row is not pruned, all successful calls for the key, in
      any interleaving, return the one row that holds it. */
  lemma IdempotentEnqueue(ops: seq<Op>, tenant: string, key: Option<string>, a: Call, b: Call)
    requires key.Some? && KeySpared(ops, tenant, key)
    requires a in Run(ops).calls && Run(ops).calls[a].Returned?
    requires b in Run(ops).calls && Run(ops).calls[b].Returned?
    requires Run(ops).calls[a].tenant == Run(ops).calls[b].tenant == tenant
    requires Run(ops).calls[a].key == Run(ops).calls[b].key == key
    ensures Run(ops).calls[a].id == Run(ops).calls[b].id
    ensures Holds(Run(ops).jobs, Run(ops).calls[a].id, tenant, key)
  {
    RunAgrees(ops, tenant, key);
    AtMostOneRow(ops);
  }

  // ---------- exactly when two calls agree ----------

  /** New ids are random UUIDs: no two calls bring the same. */
  predicate UniqueIds(ops: seq<Op>) {
    forall a, b :: 0 <= a < b < |ops| && ops[a].Lookup? && ops[b].Lookup? ==> ops[a].id != ops[b].id
  }

  function Issued(ops: seq<Op>): set<JobId> { set k | 0 <= k < |ops| && ops[k].Lookup? :: ops[k].id }

  predicate Brings(s: Sys, c: Call, x: JobId) { c in s.calls && s.calls[c].Missed? && s.calls[c].id == x }

  ghost predicate Pending(s: Sys, x: JobId) { exists c :: Brings(s, c, x) }

  /** Rows and pending inserts carry issued ids, and no id is both, or pending twice. */
  ghost predicate IdsOk(s: Sys, issued: set<JobId>) {
    && (forall x :: x in s.jobs || Pending(s, x) ==> x in issued)
    && (forall x :: x in s.jobs ==> !Pending(s, x))
    && (forall c, d, x :: Brings(s, c, x) && Brings(s, d, x) ==> c == d)
  }

  lemma StepIds(s: Sys, op: Op, issued: set<JobId>, issued': set<JobId>)
    requires IdsOk(s, issued) && issued <= issued' && (op.Lookup? ==> op.id !in issued && op.id in issued')
    ensures IdsOk(Step(s, op), issued')
  {
    var s' := Step(s, op);
    forall x | Pending(s', x) && !(op.Lookup? && op.id == x) ensures Pending(s, x) {
      var c :| Brings(s', c, x);
      assert Brings(s, c, x);
    }
    if op.Insert? && op.call in s.calls && s.calls[op.call].Missed? { assert Brings(s, op.call, s.calls[op.call].id); }
    forall c, x | Brings(s', c, x) && !(op.Lookup? && op.call == c && op.id == x) ensures Brings(s, c, x) {}
  }

  lemma {:induction false} RunIds(ops: seq<Op>)
    requires UniqueIds(ops)
    ensures IdsOk(Run(ops), Issued(ops))
  {
    hide Step, IdsOk;
    if ops == [] {
      EmptyIds();
    } else {
      var n := |ops| - 1;
      RunIds(ops[..n]);
      StepIds(Run(ops[..n]), ops[n], Issued(ops[..n]), Issued(ops));
    }
  }

  lemma EmptyIds()
    ensures IdsOk(Run([]), Issued([]))
  {
  }

  /** The id was used, and neither a row nor a call has it any more. */
  ghost predicate Spent(ops: seq<Op>, k: nat, x: JobId)
    requires k <= |ops|
  {
    x in Issued(ops[..k]) && x !in Run(ops[..k]).jobs && !Pending(Run(ops[..k]), x)
  }

  lemma RunStep(ops: seq<Op>, k: nat)
    requires k < |ops|
    ensures Run(ops[..k + 1]) == Step(Run(ops[..k]), ops[k])
  {
    assert ops[..k + 1][..k] == ops[..k];
  }

  /** A spent id never comes back. */
  lemma {:induction false} SpentForGood(ops: seq<Op>, k: nat, j: nat, x: JobId)
    requires UniqueIds(ops) && k <= j <= |ops| && Spent(ops, k, x)
    ensures Spent(ops, j, x)
    decreases j
  {
    if k < j {
      SpentForGood(ops, k, j - 1, x);
      RunStep(ops, j - 1);
      SpentStep(Run(ops[..j - 1]), ops[j - 1], x, Issued(ops[..j - 1]));
    }
  }

  lemma SpentStep(s: Sys, op: Op, x: JobId, issued: set<JobId>)
    requires x in issued && x !in s.jobs && !Pending(s, x) && (op.Lookup? ==> op.id !in issued)
    ensures x !in Step(s, op).jobs && !Pending(Step(s, op), x)
  {
    assert op.Insert? && op.call in s.calls && s.calls[op.call].Missed? ==> Brings(s, op.call, s.calls[op.call].id);
    forall c | Brings(Step(s, op), c, x) ensures Brings(s, c, x) {}
  }

  /** Call c returns id x for the key at step i. */
  ghost predicate ReturnsAt(ops: seq<Op>, i: nat, c: Call, tenant: string, key: Option<string>, x: JobId) {
    && i < |ops| && c in Run(ops[..i + 1]).calls && Run(ops[..i + 1]).calls[c] == Returned(tenant, key, x)
    && (c in Run(ops[..i]).calls ==> !Run(ops[..i]).calls[c].Returned?)
  }

  lemma ReturnHolds(ops: seq<Op>, i: nat, c: Call, tenant: string, key: Option<string>, x: JobId)
    requires key.Some? && ReturnsAt(ops, i, c, tenant, key, x)
    ensures Holds(Run(ops[..i + 1]).jobs, x, tenant, key) && !ops[i].Prune?
  {
    RunStep(ops, i);
  }

  ghost predicate NotPruned(ops: seq<Op>, from: nat, to: nat, x: JobId) {
    forall k :: from <= k < to && k < |ops| && ops[k].Prune? ==> x !in ops[k].gone
  }

  lemma {:induction false} StaysUnlessPruned(ops: seq<Op>, i: nat, j: nat, tenant: string, key: Option<string>, x: JobId)
    requires i <= j <= |ops| && Holds(Run(ops[..i]).jobs, x, tenant, key) && NotPruned(ops, i, j, x)
    ensures Holds(Run(ops[..j]).jobs, x, tenant, key)
    decreases j
  {
    if i < j {
      StaysUnlessPruned(ops, i, j - 1, tenant, key, x);
      RunStep(ops, j - 1);
    }
  }

  /** A row that was there and is pruned is gone for good. */
  lemma PrunedForGood(ops: seq<Op>, k: nat, j: nat, x: JobId)
    requires UniqueIds(ops) && k < j <= |ops| && x in Run(ops[..k]).jobs && ops[k].Prune? && x in ops[k].gone
    ensures x !in Run(ops[..j]).jobs
  {
    RunIds(ops[..k]);
    RunStep(ops, k);
    PruneSpends(Run(ops[..k]), ops[k], x);
    hide Run, Step;
    assert x in Issued(ops[..k + 1]) by { assert Issued(ops[..k]) <= Issued(ops[..k + 1]); }
    SpentForGood(ops, k + 1, j, x);
  }

  lemma PruneSpends(s: Sys, op: Op, x: JobId)
    requires op.Prune? && x in op.gone && !Pending(s, x)
    ensures x !in Step(s, op).jobs && !Pending(Step(s, op), x)
  {
    forall c | Brings(Step(s, op), c, x) ensures Brings(s, c, x) {}
  }

  /** The first prune of x after step i, if there is one before step j. */
  lemma {:induction false} FirstPrune(ops: seq<Op>, i: nat, j: nat, x: JobId) returns (k: nat)
    requires i <= j <= |ops| && !NotPruned(ops, i, j, x)
    ensures i <= k < j && ops[k].Prune? && x in ops[k].gone && NotPruned(ops, i, k, x)
    decreases j
  {
    if NotPruned(ops, i, j - 1, x) { k := j - 1; } else { k := FirstPrune(ops, i, j - 1, x); }
  }

  /** If one call returned row x and a later one returned for the same tenant and key, the
      later one returned x too if and only if nothing in between pruned x. */
  lemma SameRowIff(ops: seq<Op>, i: nat, j: nat, a: Call, b: Call, tenant: string, key: Option<string>, x: JobId, y: JobId)
    requires UniqueIds(ops) && key.Some? && i < j
    requires ReturnsAt(ops, i, a, tenant, key, x) && ReturnsAt(ops, j, b, tenant, key, y)
    ensures y == x <==> NotPruned(ops, i + 1, j, x)
  {
    hide Run, ReturnsAt, UniqueIds, UniqueKeys;
    assert j < |ops| by { ReturnInRange(ops, j, b, tenant, key, y); }
    ReturnHolds(ops, i, a, tenant, key, x);
    ReturnHolds(ops, j, b, tenant, key, y);
    if NotPruned(ops, i + 1, j, x) {
      StaysUnlessPruned(ops, i + 1, j + 1, tenant, key, x);
      OneHolder(ops[..j + 1], tenant, key, x, y);
    } else {
      var k := FirstPrune(ops, i + 1, j, x);
      StaysUnlessPruned(ops, i + 1, k, tenant, key, x);
      PrunedForGood(ops, k, j + 1, x);
    }
  }

  lemma ReturnInRange(ops: seq<Op>, i: nat, c: Call, tenant: string, key: Option<string>, x: JobId)
    requires ReturnsAt(ops, i, c, tenant, key, x)
    ensures i < |ops|
  {
  }

  lemma OneHolder(ops: seq<Op>, tenant: string, key: Option<string>, x: JobId, y: JobId)
    requires Holds(Run(ops).jobs, x, tenant, key) && Holds(Run(ops).jobs, y, tenant, key)
    ensures x == y
  {
    AtMostOneRow(ops);
  }

  // ---------- when a call inserts, and when it fails ----------

  /** What a step does to one call. */
  lemma CallStep(s: Sys, op: Op, c: Call)
    requires c in Step(s, op).calls && !(c in s.calls && s.calls[c] == Step(s, op).calls[c])
    ensures !op.Prune? && op.call == c
    ensures var p := Step(s, op).calls[c];
      && (p.Missed? ==>
            op == Lookup(c, p.tenant, p.key, p.id, None) && (p.key.Some? ==> Keyed(p.tenant, p.key) !in s.jobs.Values))
      && (p.Collided? ==> op == Insert(c) && Taken(s.jobs, p.tenant, p.key))
      && (p.Failed? ==>
            && c in s.calls && s.calls[c].tenant == p.tenant && s.calls[c].key == p.key
            && if op.Insert? then s.calls[c].Missed? && s.calls[c].id in s.jobs
               else s.calls[c].Collided? && op == SecondLookup(c, None) && !Taken(s.jobs, p.tenant, p.key))
      && (p.Returned? && p.key.None? ==> c in s.calls && s.calls[c] == Missed(p.tenant, None, p.id))
  {
  }

  /** A call goes on to insert only after its own lookup, at which no row had its key. */
  lemma {:induction false} InsertsAfterMiss(ops: seq<Op>, c: Call) returns (i: nat)
    requires c in Run(ops).calls && Run(ops).calls[c].Missed?
    ensures var p := Run(ops).calls[c];
      && i < |ops| && ops[i] == Lookup(c, p.tenant, p.key, p.id, None)
      && (p.key.Some? ==> Keyed(p.tenant, p.key) !in Run(ops[..i]).jobs.Values)
  {
    hide Step;
    var n := |ops| - 1;
    var s, op := Run(ops[..n]), ops[n];
    if c in s.calls && s.calls[c] == Run(ops).calls[c] {
      i := InsertsAfterMiss(ops[..n], c);
      assert ops[..n][..i] == ops[..i];
    } else {
      CallStep(s, op, c);
      i := n;
    }
  }

  /** Without a key a call that returns has inserted the job it was given. */
  lemma {:induction false} KeylessInserts(ops: seq<Op>, c: Call) returns (i: nat)
    requires c in Run(ops).calls && Run(ops).calls[c].Returned? && Run(ops).calls[c].key.None?
    ensures i < |ops| && ops[i] == Lookup(c, Run(ops).calls[c].tenant, None, Run(ops).calls[c].id, None)
  {
    hide Step;
    var n := |ops| - 1;
    if c in Run(ops[..n]).calls && Run(ops[..n]).calls[c] == Run(ops).calls[c] {
      i := KeylessInserts(ops[..n], c);
    } else {
      CallStep(Run(ops[..n]), ops[n], c);
      i := InsertsAfterMiss(ops[..n], c);
    }
  }

  /** A call that collided did so at an insert that found its key taken. */
  lemma {:induction false} CollisionOrigin(ops: seq<Op>, c: Call) returns (i: nat, x: JobId)
    requires c in Run(ops).calls && Run(ops).calls[c].Collided?
    ensures i < |ops| && ops[i] == Insert(c)
    ensures Holds(Run(ops[..i]).jobs, x, Run(ops).calls[c].tenant, Run(ops).calls[c].key)
  {
    hide Step;
    var n := |ops| - 1;
    var s, p := Run(ops[..n]), Run(ops).calls[c];
    if c in s.calls && s.calls[c] == p {
      i, x := CollisionOrigin(ops[..n], c);
      assert ops[..n][..i] == ops[..i];
    } else {
      CallStep(s, ops[n], c);
      i := n;
      x :| x in s.jobs && Holds(s.jobs, x, p.tenant, p.key);
    }
  }

  /** A call fails only if the row x it collided with was pruned before it looked again. */
  lemma {:induction false} FailureCause(ops: seq<Op>, c: Call) returns (i: nat, k: nat, j: nat, x: JobId)
    requires UniqueIds(ops) && c in Run(ops).calls && Run(ops).calls[c].Failed?
    ensures i < k < j < |ops| && ops[i] == Insert(c) && ops[j] == SecondLookup(c, None)
    ensures Holds(Run(ops[..i]).jobs, x, Run(ops).calls[c].tenant, Run(ops).calls[c].key)
    ensures ops[k].Prune? && x in ops[k].gone
  {
    hide Step, UniqueIds;
    var n := |ops| - 1;
    UniquePrefix(ops, n);
    var s, p := Run(ops[..n]), Run(ops).calls[c];
    if c in s.calls && s.calls[c] == p {
      i, k, j, x := FailureCause(ops[..n], c);
      assert ops[..n][..i] == ops[..i];
    } else {
      CallStep(s, ops[n], c);
      RunIds(ops[..n]);
      assert s.calls[c].Missed? ==> Brings(s, c, s.calls[c].id);
      i, x := CollisionOrigin(ops[..n], c);
      j := n;
      assert ops[..n][..i] == ops[..i];
      k := PrunedBetween(ops, i, j, p.tenant, p.key, x);
    }
  }

  lemma UniquePrefix(ops: seq<Op>, n: nat)
    requires UniqueIds(ops) && n <= |ops|
    ensures UniqueIds(ops[..n])
  {
  }

  lemma PrunedBetween(ops: seq<Op>, i: nat, j: nat, tenant: string, key: Option<string>, x: JobId) returns (k: nat)
    requires i < j < |ops| && !ops[i].Prune? && Holds(Run(ops[..i]).jobs, x, tenant, key)
    requires !Taken(Run(ops[..j]).jobs, tenant, key)
    ensures i < k < j && ops[k].Prune? && x in ops[k].gone
  {
    hide Run;
    if NotPruned(ops, i, j, x) { StaysUnlessPruned(ops, i, j, tenant, key, x); }
    k := FirstPrune(ops, i, j, x);
  }

  /** Pruning frees the key: enqueue, prune, enqueue again gives two ids. */
  lemma PruningFreesKey(tenant: string, key: Option<string>)
    requires key.Some?
    ensures var ops := [Lookup(0, tenant, key, "a", None), Insert(0), Prune({"a"})] + [Lookup(1, tenant, key, "b", None), Insert(1)];
      && Run(ops).calls == map[0 := Returned(tenant, key, "a"), 1 := Returned(tenant, key, "b")]
  {
    var first := [Lookup(0, tenant, key, "a", None), Insert(0), Prune({"a"})];
    assert first[..2][..1] == first[..1] && first[..1][..0] == [];
    assert Run(first[..1]) == Sys(map[], map[0 := Missed(tenant, key, "a")]);
    assert Run(first[..2]) == Sys(map["a" := Keyed(tenant, key)], map[0 := Returned(tenant, key, "a")]);
    assert Run(first) == Sys(map[], map[0 := Returned(tenant, key, "a")]);
    var third := first + [Lookup(1, tenant, key, "b", None)];
    assert third[..3] == first;
    var ops := third + [Insert(1)];
    assert ops == first + [Lookup(1, tenant, key, "b", None), Insert(1)] && ops[..4] == third;
    assert Run(third).calls == map[0 := Returned(tenant, key, "a"), 1 := Missed(tenant, key, "b")];
  }

  // ---------- the rest of the system seen through the keys ----------

  function View(t: Jobs.Table): KeyTable {
    map id | id in t :: Keyed(t[id].tenant, t[id].key)
  }

  /** Of all the statements on the jobs table, only creation and retention change
      what enqueueing sees. */
  lemma OthersKeepKeys(s: LeaseProtocol.Sys, op: LeaseProtocol.Op)
    requires LeaseInvariant.Inv(s) && !op.Create? && !op.Prune?
    ensures View(LeaseProtocol.Step(s, op).rows) == View(s.rows)
  {
    hide LeaseProtocol.Step, LeaseInvariant.RowsOk, LeaseInvariant.TokensOk, LeaseInvariant.OpenOk;
    hide LeaseInvariant.FailsOk, LeaseInvariant.KafkaOk;
    forall id
      ensures id in s.rows <==> id in LeaseProtocol.Step(s, op).rows
      ensures id in s.rows && id in LeaseProtocol.Step(s, op).rows ==>
        s.rows[id].tenant == LeaseProtocol.Step(s, op).rows[id].tenant && s.rows[id].key == LeaseProtocol.Step(s, op).rows[id].key
    {
      LeaseMoves.StepRow(s, op, id);
    }
  }

  /** Creating a job in the lease protocol is the insert of this one: it lands under the
      same condition and leaves the same keys. */
  lemma CreateIsInsert(s: LeaseProtocol.Sys, id: JobId, req: Jobs.Request)
    ensures var r := Jobs.EnqueuedRow(req, s.engine, s.clock);
      View(LeaseProtocol.Step(s, LeaseProtocol.Create(id, req)).rows)
      == Step(Sys(View(s.rows), map[0 := Missed(r.tenant, r.key, id)]), Insert(0)).jobs
  {
    hide Jobs.EnqueuedRow;
    var r := Jobs.EnqueuedRow(req, s.engine, s.clock);
    TakenInView(s.rows, r.tenant, r.key);
    var r' := LeaseProtocol.Step(s, LeaseProtocol.Create(id, req)).rows;
    assert r' == s.rows || (id !in s.rows && r' == s.rows[id := r]);
    assert id !in s.rows ==> View(s.rows[id := r]) == View(s.rows)[id := Keyed(r.tenant, r.key)];
  }

  lemma TakenInView(t: Jobs.Table, tenant: string, key: Option<string>)
    ensures Jobs.KeyTaken(t, tenant, key) <==> Taken(View(t), tenant, key)
  {
    if Jobs.KeyTaken(t, tenant, key) {
      var id :| id in t && t[id].tenant == tenant && t[id].key == key;
      assert Holds(View(t), id, tenant, key);
    }
  }
}
