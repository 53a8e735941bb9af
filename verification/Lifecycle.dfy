/** The life of a row over whole runs: which states follow which, and that no row
    is lost before it has been finished for as long as retention asks. */
module Lifecycle {
  import opened Wrappers
  import opened Jobs
  import opened LeaseProtocol
  import opened LeaseInvariant
  import opened LeaseMoves
  import Backoff

  /** In every reachable table RUNNING, token, lease expiry and start time go
      together, completed_at marks exactly the finished rows, FAILED never occurs,
      and the attempt stays within the budget. Both transports. */
  lemma RowInvariant(e: Backoff.Engine, ops: seq<Op>, id: JobId)
    requires id in Run(e, ops).rows
    ensures RowOk(Run(e, ops).rows[id], Run(e, ops).clock)
  {
    RunInv(e, ops);
  }

  /** The state changes a step can make. */
  predicate Follows(from: JobState, to: JobState) {
    || from == to
    || (from == PENDING && (to == RUNNING || to == DEAD))
    || (from == RUNNING && to != FAILED)
    || (from == DEAD && to == PENDING)
  }

  /** COMPLETED rows never change again; DEAD rows change only by a requeue. */
  lemma StateMoves(s: Sys, op: Op, id: JobId)
    requires Inv(s) && id in s.rows && id in Step(s, op).rows
    ensures Follows(s.rows[id].state, Step(s, op).rows[id].state)
    ensures s.rows[id].state == COMPLETED ==> Step(s, op).rows[id] == s.rows[id]
    ensures s.rows[id].state == DEAD && !(op.Requeue? && op.id == id) ==> Step(s, op).rows[id] == s.rows[id]
    ensures var from, to := s.rows[id].state, Step(s, op).rows[id].state;
      from != to && !CanTransition(from, to) ==>
        && to == PENDING
        && if from == DEAD then op.Requeue? && op.id == id
           else from == RUNNING && (op.Release? || op.FailWrite? || op.ReapUpdate?)
  {
    hide Step, RowsOk, TokensOk, OpenOk, FailsOk, KafkaOk, FailOk;
    StepRow(s, op, id);
    assert s.rows[id].state != FAILED by { RowAt(s, id); }
  }

  /** A finished row stays as it is for as long as it is in the table, unless it is
      DEAD and somebody requeues it. */
  lemma {:induction false} FinishedIsFinal(e: Backoff.Engine, ops: seq<Op>, i: nat, j: nat, id: JobId)
    requires i <= j <= |ops|
    requires forall k :: i <= k <= j ==> id in At(e, ops, k).rows
    requires Terminal(At(e, ops, i).rows[id].state)
    requires At(e, ops, i).rows[id].state == DEAD ==>
      forall k :: i <= k < j ==> !(ops[k].Requeue? && ops[k].id == id)
    ensures At(e, ops, j).rows[id] == At(e, ops, i).rows[id]
    decreases j - i
  {
    hide Step, Run;
    if i < j {
      RunInv(e, ops[..i]);
      AtStep(e, ops, i);
      StateMoves(At(e, ops, i), ops[i], id);
      FinishedIsFinal(e, ops, i + 1, j, id);
    }
  }

  // ---------- retention ----------

  lemma ClockStep(s: Sys, op: Op)
    ensures s.clock <= Step(s, op).clock
  {
  }

  lemma {:induction false} ClockGrows(e: Backoff.Engine, ops: seq<Op>, i: nat, j: nat)
    requires i <= j <= |ops|
    ensures At(e, ops, i).clock <= At(e, ops, j).clock
    decreases j - i
  {
    hide Step, Run;
    if i < j {
      AtStep(e, ops, i);
      ClockStep(At(e, ops, i), ops[i]);
      ClockGrows(e, ops, i + 1, j);
    }
  }

  /** How far the time a step writes lies before the write itself: a reap writes the time
      of its select, every other statement its own. */
  ghost function Slack(s: Sys, op: Op): int {
    if op.ReapUpdate? && op.session in s.open && s.open[op.session].ReapSel?
    then s.clock - s.open[op.session].at else 0
  }

  /** The step that finishes a row stamps it with its clock, less the slack. */
  lemma FinishStep(s: Sys, op: Op, id: JobId)
    requires Inv(s) && id in Step(s, op).rows && Terminal(Step(s, op).rows[id].state)
    requires id !in s.rows || s.rows[id] != Step(s, op).rows[id]
    ensures id in s.rows && !Terminal(s.rows[id].state) && Slack(s, op) >= 0
    ensures Step(s, op).rows[id].completedAt == Some(s.clock - Slack(s, op))
  {
    hide Step, RowsOk, TokensOk, OpenOk, FailsOk, KafkaOk, FailOk;
    StepRow(s, op, id);
  }

  /** A finished row was finished by one step and has not changed since. */
  lemma {:induction false} FinishOf(e: Backoff.Engine, ops: seq<Op>, i: nat, id: JobId) returns (m: nat)
    requires i <= |ops| && id in At(e, ops, i).rows && Terminal(At(e, ops, i).rows[id].state)
    ensures m < i && id in At(e, ops, m).rows && !Terminal(At(e, ops, m).rows[id].state)
    ensures forall j :: m < j <= i ==> id in At(e, ops, j).rows && At(e, ops, j).rows[id] == At(e, ops, i).rows[id]
    ensures 0 <= Slack(At(e, ops, m), ops[m])
    ensures At(e, ops, i).rows[id].completedAt == Some(At(e, ops, m).clock - Slack(At(e, ops, m), ops[m]))
    decreases i
  {
    hide Step, RowsOk, TokensOk, OpenOk, FailsOk, KafkaOk, Slack;
    assert i == 0 ==> At(e, ops, i) == Init(e);
    RunInv(e, ops[..i - 1]);
    AtStep(e, ops, i - 1);
    var s := At(e, ops, i - 1);
    if id in s.rows && s.rows[id] == At(e, ops, i).rows[id] {
      m := FinishOf(e, ops, i - 1, id);
    } else {
      FinishStep(s, ops[i - 1], id);
      m := i - 1;
    }
  }

  /** A row disappears only by a retention sweep. Some step m had finished it, nothing has
      changed it since, and the time since then, plus the slack of that step, exceeds the
      retention age. */
  lemma NoLostWork(e: Backoff.Engine, ops: seq<Op>, i: nat, id: JobId) returns (m: nat)
    requires i < |ops| && id in At(e, ops, i).rows && id !in At(e, ops, i + 1).rows
    ensures ops[i].Prune? && ops[i].age > 0
    ensures Terminal(At(e, ops, i).rows[id].state) && At(e, ops, i).rows[id].state == ops[i].state
    ensures m < i && id in At(e, ops, m).rows && !Terminal(At(e, ops, m).rows[id].state)
    ensures forall j :: m < j <= i ==> id in At(e, ops, j).rows && At(e, ops, j).rows[id] == At(e, ops, i).rows[id]
    ensures 0 <= Slack(At(e, ops, m), ops[m])
    ensures At(e, ops, i).rows[id].completedAt == Some(At(e, ops, m).clock - Slack(At(e, ops, m), ops[m]))
    ensures At(e, ops, i).clock - At(e, ops, m).clock + Slack(At(e, ops, m), ops[m]) > ops[i].age
  {
    hide Step, Run, Slack;
    RunInv(e, ops[..i]);
    AtStep(e, ops, i);
    StepRow(At(e, ops, i), ops[i], id);
    m := FinishOf(e, ops, i, id);
  }
}
