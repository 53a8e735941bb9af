/** JobService.Fail is a read, a decision and a fenced write. If the write lands,
    the three act as one step at the moment of the write. */
module FailCalls {
  import opened Wrappers
  import opened Jobs
  import opened LeaseProtocol
  import opened LeaseInvariant
  import opened LeaseMoves
  import Backoff

  /** The fenced write of call c finds its row under the token. */
  predicate Lands(s: Sys, c: Call) {
    && c in s.fails && s.fails[c].decision.Some? && Writable(s, s.fails[c].id)
    && Fenced(s.rows[s.fails[c].id], s.fails[c].token)
  }

  /** The job value Fail hands back, built from its own read. */
  function Returned(f: FailCall): Row
    requires f.decision.Some?
  {
    var job := f.read.(lastError := f.errMsg, startedAt := None, leaseExpiresAt := None, leaseToken := None);
    var nextRun := f.decision.value.nextRun;
    if nextRun.Some? then job.(state := PENDING, scheduledAt := nextRun) else job.(state := DEAD)
  }

  /** Where a call in flight got its read from. */
  ghost predicate ReadAt(e: Backoff.Engine, ops: seq<Op>, k: nat, c: Call, f: FailCall) {
    && k < |ops|
    && ops[k] == FailRead(c, f.id, f.token, f.errMsg, f.permanent)
    && f.id in At(e, ops, k).rows && At(e, ops, k).rows[f.id] == f.read
  }

  /** One step starts a call, decides it, or leaves it alone. */
  lemma CallStep(s: Sys, op: Op, c: Call)
    requires c in Step(s, op).fails
    ensures var f := Step(s, op).fails[c];
      || (op == FailRead(c, f.id, f.token, f.errMsg, f.permanent) && f.id in s.rows && s.rows[f.id] == f.read)
      || (c in s.fails && s.fails[c].(decision := f.decision) == f)
  {
    hide ClaimSelectOk, ReapSelectOk, PruneOk, EnqueuedRow, KeyTaken, FreshToken, Locked;
  }

  lemma {:induction false} ReadOrigin(e: Backoff.Engine, ops: seq<Op>, c: Call) returns (k: nat)
    requires c in Run(e, ops).fails
    ensures ReadAt(e, ops, k, c, Run(e, ops).fails[c])
  {
    hide Step;
    var n := |ops| - 1;
    var s := Run(e, ops[..n]);
    CallStep(s, ops[n], c);
    var f := Run(e, ops).fails[c];
    if ops[n] == FailRead(c, f.id, f.token, f.errMsg, f.permanent) && f.id in s.rows && s.rows[f.id] == f.read {
      k := n;
    } else {
      k := ReadOrigin(e, ops[..n], c);
      assert ops[..n][..k] == ops[..k];
    }
  }

  /** Step k decided the call: its clock is the decision's, and its draw stretched the delay. */
  ghost predicate DecidedAt(e: Backoff.Engine, ops: seq<Op>, k: nat, c: Call, f: FailCall)
    requires f.decision.Some?
  {
    && k < |ops| && ops[k].FailDecide? && ops[k].call == c && f.decision.value.at == At(e, ops, k).clock
    && (f.decision.value.nextRun.Some? && e.Normal() ==>
          f.decision.value.nextRun.value == At(e, ops, k).clock + Backoff.Stretched(e, f.read.attempt, ops[k].jitter).Floor)
  }

  lemma DecideStep(s: Sys, op: Op, c: Call)
    requires c in Step(s, op).fails && Step(s, op).fails[c].decision.Some?
    ensures var f := Step(s, op).fails[c];
      || (c in s.fails && s.fails[c] == f)
      || (op.FailDecide? && op.call == c && 0.0 <= op.jitter < 1.0 && c in s.fails && f.read == s.fails[c].read
          && f.decision == Some(Decide(s, f, op.jitter)))
  {
    hide ClaimSelectOk, ReapSelectOk, PruneOk, EnqueuedRow, KeyTaken, FreshToken, Locked, ShouldRetry, Backoff.DelaySpec;
  }

  lemma {:induction false} DecisionOrigin(e: Backoff.Engine, ops: seq<Op>, c: Call) returns (k: nat)
    requires c in Run(e, ops).fails && Run(e, ops).fails[c].decision.Some?
    ensures DecidedAt(e, ops, k, c, Run(e, ops).fails[c])
  {
    hide Step, Backoff.Stretched, Backoff.DelaySpec;
    var n := |ops| - 1;
    var s, op := Run(e, ops[..n]), ops[n];
    DecideStep(s, op, c);
    RunInv(e, ops[..n]);
    var f := Run(e, ops).fails[c];
    if c in s.fails && s.fails[c] == f {
      k := DecisionOrigin(e, ops[..n], c);
      assert ops[..n][..k] == ops[..k];
    } else {
      if e.Normal() { Backoff.DelayLaw(e, f.read.attempt, op.jitter); }
      k := n;
    }
  }

  /** If the write lands, the row still is what the call read (renewals aside); the
      job goes DEAD exactly when the failure is permanent or the budget is spent,
      and otherwise PENDING between BaseDelay and MaxDelay after the decision; and
      the returned job is the stored row in every column but completed_at. */
  lemma FailLinearizable(e: Backoff.Engine, ops: seq<Op>, i: nat, c: Call)
    requires e.Normal() && i < |ops| && ops[i] == FailWrite(c) && Lands(At(e, ops, i), c)
    ensures var s := At(e, ops, i);
      var f := s.fails[c];
      var d := f.decision.value;
      var r := s.rows[f.id];
      && f.id in At(e, ops, i + 1).rows
      && var r' := At(e, ops, i + 1).rows[f.id];
         && (exists k :: ReadAt(e, ops[..i], k, c, f)) && (exists k :: DecidedAt(e, ops[..i], k, c, f))
         && SameButLease(r, f.read)
         && r'.attempt == r.attempt
         && (r'.state == DEAD <==> f.permanent || r.attempt >= r.maxRetries)
         && (r'.state != DEAD ==>
               && r'.state == PENDING && r'.scheduledAt.Some?
               && d.at + e.baseDelay <= r'.scheduledAt.value <= d.at + e.maxDelay
               && OnPolicy(e, r.attempt, d.at, r'.scheduledAt.value)
               && d.at <= s.clock)
         && r' == Returned(f).(completedAt := r'.completedAt)
         && (Returned(f).completedAt != r'.completedAt <==> r'.state == DEAD)
  {
    hide Run, TokensOk, OpenOk, KafkaOk;
    var s := At(e, ops, i);
    RunInv(e, ops[..i]);
    AtStep(e, ops, i);
    var k := ReadOrigin(e, ops[..i], c);
    var k' := DecisionOrigin(e, ops[..i], c);
    hide Backoff.Stretched, DecidedAt, ReadAt;
    assert FailOk(s, s.fails[c]);
    RowAt(s, s.fails[c].id);
  }
}
