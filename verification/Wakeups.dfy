/** Long-poll claimers sleeping on the waker: take the channel, query, and only then
    sleep on the channel taken.

    `wants(p, job)` is the claimer's filter. A job is ready once it is committed,
    pending and due; its notification may follow at any later point. */
module LongPoll {
  type Channel = nat
  type Claimer = nat
  type Job = nat

  datatype Phase =
    | Away
    | Armed(ch: Channel)     // has taken C(), has not queried yet
    | Missed(ch: Channel)    // the claim query found nothing
    | Asleep(ch: Channel)    // in the select
    | Served(job: Job)

  datatype Sys = Sys(current: Channel, closed: set<Channel>, ready: set<Job>, phases: map<Claimer, Phase>)

  datatype Op =
    | Become(job: Job)                     // a job becomes ready
    | Vanish(job: Job)                     // a ready job is taken or cancelled by somebody else
    | Wake
    | Take(claimer: Claimer)               // wake = Wakes.C(), on the way in or after a wake-up or a timer
    | Query(claimer: Claimer, job: Job)
    | Sleep(claimer: Claimer)
    | Leave(claimer: Claimer)              // the deadline passed, or the caller went away

  const INIT := Sys(0, {}, {}, map[])

  function PhaseOf(s: Sys, p: Claimer): Phase { if p in s.phases then s.phases[p] else Away }

  function Set(s: Sys, p: Claimer, phase: Phase): Sys { s.(phases := s.phases[p := phase]) }

  predicate Finds(wants: (Claimer, Job) -> bool, s: Sys, p: Claimer) {
    exists j :: j in s.ready && wants(p, j)
  }

  /** Wake closes the current channel and swaps in one never used. */
  function AfterWake(current: Channel, closed: set<Channel>): (Channel, set<Channel>) { (current + 1, closed + {current}) }

  function Step(wants: (Claimer, Job) -> bool, s: Sys, op: Op): Sys {
    match op
    case Become(j) => s.(ready := s.ready + {j})
    case Vanish(j) => s.(ready := s.ready - {j})
    case Wake =>
      var (current, closed) := AfterWake(s.current, s.closed);
      s.(current := current, closed := closed)
    case Take(p) =>
      if PhaseOf(s, p).Away? || PhaseOf(s, p).Asleep? then Set(s, p, Armed(s.current)) else s
    case Query(p, j) =>
      if !PhaseOf(s, p).Armed? then s
      else if !Finds(wants, s, p) then Set(s, p, Missed(PhaseOf(s, p).ch))
      else if j in s.ready && wants(p, j) then Set(s.(ready := s.ready - {j}), p, Served(j))
      else s
    case Sleep(p) => if PhaseOf(s, p).Missed? then Set(s, p, Asleep(PhaseOf(s, p).ch)) else s
    case Leave(p) => Set(s, p, Away)
  }

  function Run(wants: (Claimer, Job) -> bool, ops: seq<Op>): Sys {
    if ops == [] then INIT else Step(wants, Run(wants, ops[..|ops| - 1]), ops[|ops| - 1])
  }

  function At(wants: (Claimer, Job) -> bool, ops: seq<Op>, i: nat): Sys
    requires i <= |ops|
  {
    Run(wants, ops[..i])
  }

  lemma AtStep(wants: (Claimer, Job) -> bool, ops: seq<Op>, i: nat)
    requires i < |ops|
    ensures At(wants, ops, i + 1) == Step(wants, At(wants, ops, i), ops[i])
  {
    assert ops[..i + 1][..i] == ops[..i];
  }

  /** The select has nothing to receive from the channel it waits on. */
  predicate Blocked(s: Sys, p: Claimer) { PhaseOf(s, p).Asleep? && PhaseOf(s, p).ch !in s.closed }

  ghost predicate Inv(s: Sys) {
    && (forall c: nat :: c in s.closed <==> c < s.current)
    && forall p :: p in s.phases && HasChannel(s.phases[p]) ==> s.phases[p].ch <= s.current
  }

  predicate HasChannel(phase: Phase) { phase.Armed? || phase.Missed? || phase.Asleep? }

  lemma {:induction false} RunInv(wants: (Claimer, Job) -> bool, ops: seq<Op>)
    ensures Inv(Run(wants, ops))
  {
    if ops != [] { RunInv(wants, ops[..|ops| - 1]); }
  }

  /** Wake never closes a channel that is closed already. */
  lemma NoDoubleClose(wants: (Claimer, Job) -> bool, ops: seq<Op>)
    ensures Run(wants, ops).current !in Run(wants, ops).closed
  {
    RunInv(wants, ops);
  }

  ghost predicate Quiet(ops: seq<Op>, from: nat, to: nat) {
    from <= to <= |ops| && forall k :: from <= k < to ==> !ops[k].Wake?
  }

  lemma NothingYet(wants: (Claimer, Job) -> bool, ops: seq<Op>)
    ensures At(wants, ops, 0) == INIT
  {
    assert ops[..0] == [];
  }

  /** A claimer holding the current channel and about to query took it with no Wake since. */
  lemma {:induction false} ArmedQuietly(wants: (Claimer, Job) -> bool, ops: seq<Op>, i: nat, p: Claimer) returns (c: nat)
    requires i <= |ops| && PhaseOf(At(wants, ops, i), p) == Armed(At(wants, ops, i).current)
    ensures c < i && ops[c] == Take(p) && Quiet(ops, c, i)
    decreases i
  {
    hide Run;
    NothingYet(wants, ops);
    AtStep(wants, ops, i - 1);
    RunInv(wants, ops[..i - 1]);
    if ops[i - 1] == Take(p) { return i - 1; }
    c := ArmedQuietly(wants, ops, i - 1, p);
  }

  predicate Waiting(phase: Phase) { phase.Missed? || phase.Asleep? }

  /** A claimer that missed and still holds the current channel has had no Wake since
      before its last query, which found nothing. */
  lemma {:induction false} MissedQuietly(wants: (Claimer, Job) -> bool, ops: seq<Op>, i: nat, p: Claimer) returns (c: nat, q: nat)
    requires i <= |ops|
    requires Waiting(PhaseOf(At(wants, ops, i), p)) && PhaseOf(At(wants, ops, i), p).ch == At(wants, ops, i).current
    ensures c < q < i && ops[c] == Take(p) && Quiet(ops, c, i)
    ensures ops[q].Query? && ops[q].claimer == p && !Finds(wants, At(wants, ops, q), p)
    ensures forall k :: q < k <= i ==> Waiting(PhaseOf(At(wants, ops, k), p))
    decreases i
  {
    hide Run, Finds;
    NothingYet(wants, ops);
    AtStep(wants, ops, i - 1);
    RunInv(wants, ops[..i - 1]);
    if PhaseOf(At(wants, ops, i - 1), p).Armed? {
      c := ArmedQuietly(wants, ops, i - 1, p);
      q := i - 1;
    } else {
      c, q := MissedQuietly(wants, ops, i - 1, p);
    }
  }

  /** A claimer blocked in its sleep has had no Wake since it took its channel, before its
      last query, and that query found nothing. */
  lemma BlockedQuietly(wants: (Claimer, Job) -> bool, ops: seq<Op>, i: nat, p: Claimer) returns (c: nat, q: nat)
    requires i <= |ops| && Blocked(At(wants, ops, i), p)
    ensures c < q < i && ops[c] == Take(p) && Quiet(ops, c, i)
    ensures ops[q].Query? && ops[q].claimer == p && !Finds(wants, At(wants, ops, q), p)
    ensures forall k :: q < k <= i ==> Waiting(PhaseOf(At(wants, ops, k), p))
  {
    hide Run, Finds;
    RunInv(wants, ops[..i]);
    c, q := MissedQuietly(wants, ops, i, p);
  }

  /** No lost wake-up: while a job that a claimer wants stays ready through a Wake, the
      claimer is not left blocked. */
  lemma NoLostWakeup(wants: (Claimer, Job) -> bool, ops: seq<Op>, w: nat, i: nat, p: Claimer, j: Job)
    requires w < i <= |ops| && ops[w].Wake? && wants(p, j)
    requires forall k :: w <= k <= i ==> j in At(wants, ops, k).ready
    ensures !Blocked(At(wants, ops, i), p)
  {
    hide Run;
    if Blocked(At(wants, ops, i), p) {
      var c, q := BlockedQuietly(wants, ops, i, p);
    }
  }

  /** A Wake unblocks everybody at once. */
  lemma WakeUnblocksAll(wants: (Claimer, Job) -> bool, ops: seq<Op>, p: Claimer)
    ensures !Blocked(Step(wants, Run(wants, ops), Wake), p)
  {
    RunInv(wants, ops);
  }
}

/** The broadcast waker as it is run. Channels are numbered in the order they are made. */
module Wakers {
  import opened LongPoll

  class Waker {
    var ch: Channel
    ghost var closed: set<Channel>

    /** The channel handed out is open, and only earlier ones are closed. */
    ghost predicate Valid()
      reads this
    {
      forall c :: c in closed ==> c < ch
    }

    constructor ()
      ensures Valid() && (ch, closed) == (INIT.current, INIT.closed)
    {
      ch, closed := 0, {};
    }

    method C() returns (c: Channel)
      requires Valid()
      ensures c == ch && c !in closed
    {
      c := ch;
    }

    /** The channel closed is one never closed before. */
    method Wake()
      requires Valid()
      modifies this
      ensures Valid() && old(ch) !in old(closed)
      ensures (ch, closed) == AfterWake(old(ch), old(closed))
    {
      closed := closed + {ch};
      ch := ch + 1;
    }
  }
}

/** The reconciler's loop and its depth-1 wake buffer. */
module ReconcilerWake {
  datatype Phase = Passing | Selecting | Exited

  datatype Sys = Sys(pending: bool, cancelled: bool, phase: Phase)

  datatype Op =
    | Wake              // send, or drop when the buffer is full
    | PassEnds
    | TimerFires        // the select takes the timer
    | WakeReceived      // the select takes the buffered wake-up
    | Cancel
    | Exits             // the select takes the cancelled context

  /** Start begins with a pass. */
  const INIT := Sys(false, false, Passing)

  function Step(s: Sys, op: Op): Sys {
    match op
    case Wake => s.(pending := true)
    case PassEnds => if s.phase == Passing then s.(phase := Selecting) else s
    case TimerFires => if s.phase == Selecting then s.(phase := Passing) else s
    case WakeReceived => if s.phase == Selecting && s.pending then s.(pending := false, phase := Passing) else s
    case Cancel => s.(cancelled := true)
    case Exits => if s.phase == Selecting && s.cancelled then s.(phase := Exited) else s
  }

  function Run(ops: seq<Op>): Sys {
    if ops == [] then INIT else Step(Run(ops[..|ops| - 1]), ops[|ops| - 1])
  }

  function At(ops: seq<Op>, i: nat): Sys
    requires i <= |ops|
  {
    Run(ops[..i])
  }

  lemma AtStep(ops: seq<Op>, i: nat)
    requires i < |ops|
    ensures At(ops, i + 1) == Step(At(ops, i), ops[i])
  {
    assert ops[..i + 1][..i] == ops[..i];
  }

  /** Step m is the start of a pass. */
  ghost predicate PassStarts(ops: seq<Op>, m: nat) {
    m < |ops| && At(ops, m).phase == Selecting && At(ops, m + 1).phase == Passing
  }

  /** No lost wake-up: whenever a Wake has happened, it is still in the buffer or a pass
      has started after it. */
  lemma {:induction false} WakePendingOrFollowed(ops: seq<Op>, w: nat, i: nat)
    requires w < i <= |ops| && ops[w].Wake?
    ensures At(ops, i).pending || exists m :: w < m < i && PassStarts(ops, m)
    decreases i
  {
    hide Run;
    AtStep(ops, i - 1);
    if w < i - 1 {
      WakePendingOrFollowed(ops, w, i - 1);
      if At(ops, i - 1).pending && !At(ops, i).pending { assert PassStarts(ops, i - 1); }
    }
  }

  /** A buffered wake-up is never in the way: the loop between passes can take it. */
  lemma PendingIsTaken(ops: seq<Op>)
    requires Run(ops).pending && Run(ops).phase == Selecting
    ensures PassStarts(ops + [WakeReceived], |ops|) && !Run(ops + [WakeReceived]).pending
  {
    var more := ops + [WakeReceived];
    assert more[..|ops|] == ops && more[..|ops| + 1] == more;
  }

  function Wakes(ops: seq<Op>): nat {
    if ops == [] then 0 else Wakes(ops[..|ops| - 1]) + if ops[|ops| - 1].Wake? then 1 else 0
  }

  /** Passes the buffer started. */
  function Taken(ops: seq<Op>): nat {
    if ops == [] then 0
    else
      var s := Run(ops[..|ops| - 1]);
      Taken(ops[..|ops| - 1]) + if ops[|ops| - 1].WakeReceived? && s.phase == Selecting && s.pending then 1 else 0
  }

  /** Every pass the buffer starts, and a buffered wake-up, is paid for by its own Wake. */
  lemma {:induction false} NoPhantomWake(ops: seq<Op>)
    ensures Taken(ops) + (if Run(ops).pending then 1 else 0) <= Wakes(ops)
  {
    if ops != [] { NoPhantomWake(ops[..|ops| - 1]); }
  }
}
