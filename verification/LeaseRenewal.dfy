/** Leases on one clock: the reaper is never early, so a holder that renews in time
    keeps its job. */
module LeaseRenewal {
  import opened Wrappers
  import opened Durations
  import opened Jobs
  import opened LeaseProtocol
  import opened LeaseInvariant
  import opened LeaseMoves
  import opened Fencing
  import opened OneJobRuns
  import Backoff

  // ---------- where a lease expiry comes from ----------

  /** The step grants row id a lease running from `from` for `lease`. */
  ghost predicate Grants(s: Sys, op: Op, id: JobId, from: Time, lease: Time) {
    && id in s.rows && id in Step(s, op).rows
    && Step(s, op).rows[id].leaseExpiresAt == Some(from + lease)
    && from <= s.clock
    && match op
       case ClaimUpdate(q, _) =>
         q in s.open && s.open[q].ClaimSel? && s.open[q].id == id && from == s.open[q].at && lease == s.open[q].lease
       case KafkaClaim(c, _, l) => c in s.deliveries && s.deliveries[c].id == id && from == s.deliveries[c].at && lease == l
       case Renew(i, _, l) => i == id && from == s.clock && lease == l
       case _ => false
  }

  /** A lease expiry is either the one before the step or a grant made by it. */
  lemma ExpiryStep(s: Sys, op: Op, id: JobId) returns (from: Time, lease: Time)
    requires Inv(s) && id in Step(s, op).rows && Step(s, op).rows[id].leaseExpiresAt.Some?
    ensures id in s.rows
    ensures s.rows[id].leaseExpiresAt == Step(s, op).rows[id].leaseExpiresAt || Grants(s, op, id, from, lease)
  {
    hide Step, RowsOk, TokensOk, OpenOk, KafkaOk, FailsOk, FailOk;
    StepRow(s, op, id);
    from, lease := 0, 0;
    match op {
      case ClaimUpdate(q, _) =>
        if q in s.open && s.open[q].ClaimSel? {
          assert s.open[q].at <= s.clock by { OpenedBefore(s, q); }
          from, lease := s.open[q].at, s.open[q].lease;
        }
      case KafkaClaim(c, _, l) =>
        if c in s.deliveries {
          assert s.deliveries[c].at <= s.clock by { DeliveredBefore(s, c); }
          from, lease := s.deliveries[c].at, l;
        }
      case Renew(_, _, l) => from, lease := s.clock, l;
      case _ =>
    }
  }

  lemma OpenedBefore(s: Sys, q: Session)
    requires Inv(s) && q in s.open
    ensures s.open[q].at <= s.clock
  {
    assert SelectionOk(s, s.open[q]);
  }

  lemma DeliveredBefore(s: Sys, c: Call)
    requires Inv(s) && c in s.deliveries
    ensures s.deliveries[c].at <= s.clock
  {
  }

  /** Every lease expiry on a row is its last grant plus the granted lease, and has
      been on the row ever since. */
  lemma {:induction false} LastGrant(e: Backoff.Engine, ops: seq<Op>, i: nat, id: JobId)
      returns (k: nat, from: Time, lease: Time)
    requires i <= |ops| && id in At(e, ops, i).rows && At(e, ops, i).rows[id].leaseExpiresAt.Some?
    ensures k < i && Grants(At(e, ops, k), ops[k], id, from, lease)
    ensures At(e, ops, i).rows[id].leaseExpiresAt == Some(from + lease)
    ensures forall j :: k < j <= i ==>
      id in At(e, ops, j).rows && At(e, ops, j).rows[id].leaseExpiresAt == Some(from + lease)
    decreases i
  {
    hide Step, RowsOk, TokensOk, OpenOk, FailsOk, KafkaOk;
    assert i == 0 ==> At(e, ops, i) == Init(e);
    RunInv(e, ops[..i - 1]);
    AtStep(e, ops, i - 1);
    from, lease := ExpiryStep(At(e, ops, i - 1), ops[i - 1], id);
    k := i - 1;
    if At(e, ops, i - 1).rows[id].leaseExpiresAt == At(e, ops, i).rows[id].leaseExpiresAt {
      k, from, lease := LastGrant(e, ops, i - 1, id);
    }
  }

  /** The reaper takes a row only at or after its last grant plus the granted lease. */
  lemma ReaperNeverEarly(e: Backoff.Engine, ops: seq<Op>, i: nat, id: JobId)
      returns (k: nat, from: Time, lease: Time)
    requires i < |ops| && ops[i].ReapUpdate? && id in At(e, ops, i).rows && id in At(e, ops, i + 1).rows
    requires At(e, ops, i + 1).rows[id] != At(e, ops, i).rows[id]
    ensures k < i && Grants(At(e, ops, k), ops[k], id, from, lease)
    ensures forall j :: k < j <= i ==>
      id in At(e, ops, j).rows && At(e, ops, j).rows[id].leaseExpiresAt == Some(from + lease)
    ensures from + lease <= At(e, ops, i).clock
  {
    hide Step, Run, RowsOk, TokensOk, OpenOk, FailsOk, KafkaOk;
    RunInv(e, ops[..i]);
    AtStep(e, ops, i);
    StepRow(At(e, ops, i), ops[i], id);
    k, from, lease := LastGrant(e, ops, i, id);
  }

  // ---------- a holder that renews in time ----------

  /** Step m is the claim that puts token t on row id, with a lease from `from`. */
  ghost predicate ClaimedAt(e: Backoff.Engine, ops: seq<Op>, m: nat, t: Token, id: JobId, from: Time, lease: Time) {
    && m < |ops| && (ops[m].ClaimUpdate? || ops[m].KafkaClaim?)
    && HeldOn(At(e, ops, m + 1), t, id) && Grants(At(e, ops, m), ops[m], id, from, lease)
  }

  /** Until when the holder may count on its claim before step k: the lease of the claim,
      or that of its last heartbeat, from the clock at which it was sent. */
  function Deadline(e: Backoff.Engine, ops: seq<Op>, m: nat, k: nat, t: Token, id: JobId, first: Time): Time
    requires m < k <= |ops|
    decreases k
  {
    if k == m + 1 then first
    else if ops[k - 1].Renew? && ops[k - 1].id == id && ops[k - 1].token == t
    then At(e, ops, k - 1).clock + ops[k - 1].lease
    else Deadline(e, ops, m, k - 1, t, id, first)
  }

  /** The holder reports its outcome, or somebody cancels the job. */
  ghost predicate ReportedOrCancelled(s: Sys, op: Op, t: Token, id: JobId) {
    EndsClaim(s, op, t, id) && !op.ReapUpdate?
  }

  /** Between steps m and j each heartbeat is sent before the time the last one bought is
      up, and the holder neither reports nor is cancelled. */
  ghost predicate RenewsInTime(e: Backoff.Engine, ops: seq<Op>, m: nat, j: nat, t: Token, id: JobId, first: Time) {
    && m < j <= |ops|
    && (forall k :: m < k < j ==> At(e, ops, k).clock < Deadline(e, ops, m, k, t, id, first))
    && (forall k :: m < k < j ==> !ReportedOrCancelled(At(e, ops, k), ops[k], t, id))
  }

  /** A held row whose lease has not run out is neither locked nor reaped, so a step that
      is no report leaves the token on it, and only the holder moves the expiry. */
  lemma HolderStep(s: Sys, op: Op, t: Token, id: JobId, deadline: Time)
    requires Inv(s) && HeldOn(s, t, id) && s.rows[id].leaseExpiresAt == Some(deadline) && s.clock < deadline
    requires !ReportedOrCancelled(s, op, t, id)
    ensures HeldOn(Step(s, op), t, id)
    ensures Step(s, op).rows[id].leaseExpiresAt ==
      Some(if op.Renew? && op.id == id && op.token == t then s.clock + op.lease else deadline)
  {
    hide Step, TokensOk, FailsOk, KafkaOk, FailOk;
    RowAt(s, id);
    HeldIsUnlocked(s, id, deadline);
    StepRow(s, op, id);
    if op.Renew? { RenewLands(s, op.id, op.token, op.lease); }
  }

  lemma HeldIsUnlocked(s: Sys, id: JobId, deadline: Time)
    requires Inv(s) && id in s.rows && s.rows[id].state == RUNNING
    requires s.rows[id].leaseExpiresAt == Some(deadline) && s.clock < deadline
    ensures !Locked(s, id)
  {
    hide RowsOk, TokensOk, FailsOk, KafkaOk;
    forall q | q in s.open ensures id !in s.open[q].Ids() {
      assert SelectionOk(s, s.open[q]);
    }
  }

  lemma RenewLands(s: Sys, id: JobId, token: Token, lease: Time)
    ensures Writable(s, id) && Fenced(s.rows[id], token) ==>
      Step(s, Renew(id, token, lease)).rows == s.rows[id := Renewed(s.rows[id], s.clock + lease)]
  {
  }

  /** Whatever else runs, a holder that renews in time keeps its token until it reports or
      the job is cancelled, and its lease runs to the time its last heartbeat bought. */
  lemma {:induction false} RenewedLeaseIsKept(e: Backoff.Engine, ops: seq<Op>, m: nat, j: nat, t: Token, id: JobId,
                                              from: Time, lease: Time)
    requires ClaimedAt(e, ops, m, t, id, from, lease) && RenewsInTime(e, ops, m, j, t, id, from + lease)
    ensures HeldOn(At(e, ops, j), t, id)
    ensures At(e, ops, j).rows[id].leaseExpiresAt == Some(Deadline(e, ops, m, j, t, id, from + lease))
    decreases j
  {
    hide Run, ClaimedAt, ReportedOrCancelled, RenewsInTime, Deadline;
    InTimeBefore(e, ops, m, j, t, id, from + lease);
    DeadlineStep(e, ops, m, j, t, id, from + lease);
    if m + 1 == j {
      ClaimStartsLease(e, ops, m, t, id, from, lease);
    } else {
      RenewedLeaseIsKept(e, ops, m, j - 1, t, id, from, lease);
      HolderAt(e, ops, j - 1, t, id, Deadline(e, ops, m, j - 1, t, id, from + lease));
    }
  }

  lemma InTimeBefore(e: Backoff.Engine, ops: seq<Op>, m: nat, j: nat, t: Token, id: JobId, first: Time)
    requires RenewsInTime(e, ops, m, j, t, id, first)
    ensures m < j <= |ops|
    ensures m + 1 < j ==>
      && RenewsInTime(e, ops, m, j - 1, t, id, first)
      && At(e, ops, j - 1).clock < Deadline(e, ops, m, j - 1, t, id, first)
      && !ReportedOrCancelled(At(e, ops, j - 1), ops[j - 1], t, id)
  {
    hide Run, Deadline, ReportedOrCancelled;
  }

  lemma DeadlineStep(e: Backoff.Engine, ops: seq<Op>, m: nat, k: nat, t: Token, id: JobId, first: Time)
    requires m < k <= |ops|
    ensures Deadline(e, ops, m, k, t, id, first) ==
      if k == m + 1 then first
      else if ops[k - 1].Renew? && ops[k - 1].id == id && ops[k - 1].token == t
      then At(e, ops, k - 1).clock + ops[k - 1].lease
      else Deadline(e, ops, m, k - 1, t, id, first)
  {
    hide Run;
  }

  lemma HolderAt(e: Backoff.Engine, ops: seq<Op>, k: nat, t: Token, id: JobId, deadline: Time)
    requires k < |ops| && HeldOn(At(e, ops, k), t, id) && At(e, ops, k).rows[id].leaseExpiresAt == Some(deadline)
    requires At(e, ops, k).clock < deadline && !ReportedOrCancelled(At(e, ops, k), ops[k], t, id)
    ensures HeldOn(At(e, ops, k + 1), t, id)
    ensures At(e, ops, k + 1).rows[id].leaseExpiresAt ==
      Some(if ops[k].Renew? && ops[k].id == id && ops[k].token == t then At(e, ops, k).clock + ops[k].lease else deadline)
  {
    hide Run, Step, Inv, ReportedOrCancelled;
    RunInv(e, ops[..k]);
    AtStep(e, ops, k);
    HolderStep(At(e, ops, k), ops[k], t, id, deadline);
  }

  lemma ClaimStartsLease(e: Backoff.Engine, ops: seq<Op>, m: nat, t: Token, id: JobId, from: Time, lease: Time)
    requires ClaimedAt(e, ops, m, t, id, from, lease)
    ensures HeldOn(At(e, ops, m + 1), t, id) && At(e, ops, m + 1).rows[id].leaseExpiresAt == Some(from + lease)
  {
    hide Run, Step;
    AtStep(e, ops, m);
  }

  // ---------- the worker's timer ----------

  function EffectiveLease(configured: Time): (lease: Time)
    ensures lease == if configured > 0 then configured else 300_000 * MILLISECOND
  {
    if configured > 0 then configured else 5 * 60 * SECOND
  }

  /** Half the lease, but never under a second. */
  function RenewInterval(lease: Time): (interval: Time)
    ensures interval >= SECOND
    ensures lease >= 2 * SECOND ==> 2 * interval <= lease < 2 * interval + 2
    ensures lease < 2 * SECOND ==> interval == SECOND
  {
    if lease / 2 < SECOND then SECOND else lease / 2
  }

  /** The clock at the holder's last heartbeat before step k, or at its claim. */
  function LastBeat(e: Backoff.Engine, ops: seq<Op>, m: nat, k: nat, t: Token, id: JobId, from: Time): Time
    requires m < k <= |ops|
    decreases k
  {
    if k == m + 1 then from
    else if ops[k - 1].Renew? && ops[k - 1].id == id && ops[k - 1].token == t then At(e, ops, k - 1).clock
    else LastBeat(e, ops, m, k - 1, t, id, from)
  }

  /** The worker's timer at work between steps m and j: every heartbeat asks for `lease`,
      and none comes more than the interval and `delay` after the one before. The delay
      takes up how late the timer was started, fired and was answered. */
  ghost predicate OnTimer(e: Backoff.Engine, ops: seq<Op>, m: nat, j: nat, t: Token, id: JobId, from: Time,
                          lease: Time, delay: Time)
  {
    && m < j <= |ops|
    && (forall k :: m < k < j && ops[k].Renew? && ops[k].id == id && ops[k].token == t ==> ops[k].lease == lease)
    && (forall k :: m < k < j ==> At(e, ops, k).clock <= LastBeat(e, ops, m, k, t, id, from) + RenewInterval(lease) + delay)
    && (forall k :: m < k < j ==> !ReportedOrCancelled(At(e, ops, k), ops[k], t, id))
  }

  lemma {:induction false} BeatBuysLease(e: Backoff.Engine, ops: seq<Op>, m: nat, k: nat, t: Token, id: JobId,
                                         from: Time, lease: Time)
    requires m < k <= |ops|
    requires forall i :: m < i < k && ops[i].Renew? && ops[i].id == id && ops[i].token == t ==> ops[i].lease == lease
    ensures Deadline(e, ops, m, k, t, id, from + lease) == LastBeat(e, ops, m, k, t, id, from) + lease
    decreases k
  {
    hide At;
    if m + 1 < k { BeatBuysLease(e, ops, m, k - 1, t, id, from, lease); }
  }

  /** A timer whose interval and delay together stay below the lease keeps the token. */
  lemma TimerKeepsLease(e: Backoff.Engine, ops: seq<Op>, m: nat, j: nat, t: Token, id: JobId, from: Time,
                        lease: Time, delay: Time)
    requires ClaimedAt(e, ops, m, t, id, from, lease) && OnTimer(e, ops, m, j, t, id, from, lease, delay)
    requires RenewInterval(lease) + delay < lease
    ensures HeldOn(At(e, ops, j), t, id)
  {
    hide At, ClaimedAt, ReportedOrCancelled, HeldOn;
    forall k | m < k < j ensures At(e, ops, k).clock < Deadline(e, ops, m, k, t, id, from + lease) {
      BeatBuysLease(e, ops, m, k, t, id, from, lease);
    }
    RenewedLeaseIsKept(e, ops, m, j, t, id, from, lease);
  }

  /** A worker that claims with this lease and keeps to its timer has its token at step j. */
  ghost predicate TimerEnough(e: Backoff.Engine, ops: seq<Op>, m: nat, j: nat, t: Token, id: JobId, from: Time, lease: Time) {
    ClaimedAt(e, ops, m, t, id, from, lease) && OnTimer(e, ops, m, j, t, id, from, lease, 0) ==>
      HeldOn(At(e, ops, j), t, id)
  }

  /** Keeping to the timer is enough in every run if and only if the lease is longer than
      one second: at or below that the first beat is due when the lease has run out. */
  lemma TimerEnoughIff(e: Backoff.Engine, lease: Time)
    requires lease > 0
    ensures (forall ops, m: nat, j, t, id, from :: TimerEnough(e, ops, m, j, t, id, from, lease)) <==> lease > SECOND
  {
    hide Run, Step, ClaimedAt, OnTimer, HeldOn;
    if lease > SECOND {
      forall ops, m: nat, j: nat, t, id, from ensures TimerEnough(e, ops, m, j, t, id, from, lease) {
        if ClaimedAt(e, ops, m, t, id, from, lease) && OnTimer(e, ops, m, j, t, id, from, lease, 0) {
          TimerKeepsLease(e, ops, m, j, t, id, from, lease, 0);
        }
      }
    } else {
      ShortLeaseLost(e, lease);
      assert !TimerEnough(e, ReapedRun(1, lease, 0), 2, 7, "a", JOB, 0, lease);
    }
  }

  /** With a short lease the reaper comes before the first beat. */
  lemma ShortLeaseLost(e: Backoff.Engine, lease: nat)
    requires 0 < lease <= SECOND
    ensures var ops := ReapedRun(1, lease, 0);
      && ClaimedAt(e, ops, 2, "a", JOB, 0, lease) && OnTimer(e, ops, 2, 7, "a", JOB, 0, lease, 0)
      && !HeldOn(At(e, ops, 7), "a", JOB)
  {
    hide Run, Step, ClaimedAt, OnTimer, EnqueuedRow;
    var ops := ReapedRun(1, lease, 0);
    ShortClaim(e, lease);
    ShortTimer(e, lease);
    ReapedStates(e, 1, lease, 0);
    assert ops[..7] == ops;
  }

  lemma ShortClaim(e: Backoff.Engine, lease: nat)
    ensures ClaimedAt(e, ReapedRun(1, lease, 0), 2, "a", JOB, 0, lease)
  {
    hide Run, Step, EnqueuedRow;
    var ops := ReapedRun(1, lease, 0);
    ReapedStates(e, 1, lease, 0);
    ClaimedState(e, 1, lease);
    assert ops[..2] == ClaimedRun(1, lease)[..2];
    AtStep(e, ops, 2);
  }

  lemma ShortTimer(e: Backoff.Engine, lease: nat)
    requires 0 < lease <= SECOND
    ensures OnTimer(e, ReapedRun(1, lease, 0), 2, 7, "a", JOB, 0, lease, 0)
  {
    hide At, EndsClaim;
    var ops := ReapedRun(1, lease, 0);
    forall k | 2 < k < 7
      ensures At(e, ops, k).clock <= LastBeat(e, ops, 2, k, "a", JOB, 0) + RenewInterval(lease)
      ensures !ReportedOrCancelled(At(e, ops, k), ops[k], "a", JOB)
    {
      NoBeat(e, ops, 2, k, "a", JOB, 0);
      ShortClock(e, lease, k);
      NoReport(At(e, ops, k), ops[k], "a", JOB);
    }
  }

  lemma NoReport(s: Sys, op: Op, t: Token, id: JobId)
    requires op.Tick? || op.ReapSelect? || op.ReapUpdate?
    ensures !ReportedOrCancelled(s, op, t, id)
  {
  }

  lemma ShortClock(e: Backoff.Engine, lease: nat, k: nat)
    requires 2 < k < 7
    ensures At(e, ReapedRun(1, lease, 0), k).clock <= lease
  {
    hide Run, ClaimedJob;
    ReapedStates(e, 1, lease, 0);
  }

  lemma {:induction false} NoBeat(e: Backoff.Engine, ops: seq<Op>, m: nat, k: nat, t: Token, id: JobId, from: Time)
    requires m < k <= |ops| && forall i :: m < i < k ==> !ops[i].Renew?
    ensures LastBeat(e, ops, m, k, t, id, from) == from
    decreases k
  {
    hide At;
    if m + 1 < k { NoBeat(e, ops, m, k - 1, t, id, from); }
  }
}
