/** The Redlock manager as one client runs it: the loops of Acquire and Release over the
    nodes, while any number of other clients take steps of their own and time passes
    between any two commands. The ghost `trace` records all steps taken, which ties each
    loop to the protocol that the exclusion theorems are about. */
module RedlockClient {
  import opened Wrappers
  import opened Redlock

  datatype Lock = Lock(resource: string, value: string, expiry: Time)

  /** The number of this client's call; the others have other numbers. */
  const ME: Call := 0

  lemma ExecSnoc(s: Sys, trace: seq<Op>, op: Op)
    ensures Exec(s, trace + [op]) == Step(Exec(s, trace), op)
  {
    assert (trace + [op])[..|trace|] == trace;
  }

  lemma ExecNothing(s: Sys)
    ensures Exec(s, []) == s
  {
  }

  lemma {:induction false} ExecInv(s: Sys, ops: seq<Op>)
    requires Inv(s)
    ensures Inv(Exec(s, ops)) && Exec(s, ops).cfg == s.cfg
  {
    hide Step, Inv;
    if ops != [] {
      ExecInv(s, ops[..|ops| - 1]);
      StepKeeps(Exec(s, ops[..|ops| - 1]), ops[|ops| - 1]);
    }
  }

  lemma {:induction false} ExecClock(s: Sys, ops: seq<Op>)
    ensures Exec(s, ops).clock >= s.clock
  {
    hide Step;
    if ops != [] {
      ExecClock(s, ops[..|ops| - 1]);
      StepShape(Exec(s, ops[..|ops| - 1]), ops[|ops| - 1]);
    }
  }

  /** The waits between the first n attempts. */
  function Waits(n: nat, delay: int): int { if n <= 1 then 0 else (n - 1) * delay }

  // ---------- what the others do ----------

  predicate Foreign(op: Op) { op.Tick? || op.call != ME }

  predicate AllForeign(ops: seq<Op>) { forall i :: 0 <= i < |ops| ==> Foreign(ops[i]) }

  function OnlyForeign(ops: seq<Op>): (r: seq<Op>)
    ensures AllForeign(r)
  {
    if ops == [] then [] else (if Foreign(ops[0]) then [ops[0]] else []) + OnlyForeign(ops[1..])
  }

  /** The others neither see nor change where this client stands. */
  ghost predicate Unseen(s: Sys, phase: Phase, op: Op)
    requires ME in s.calls
  {
    && ME in Step(s, op).calls && Step(s, op).calls[ME] == s.calls[ME]
    && Step(Set(s, ME, phase), op) == Set(Step(s, op), ME, phase)
  }

  lemma ForeignStep(s: Sys, phase: Phase, op: Op)
    requires ME in s.calls && Foreign(op)
    ensures Unseen(s, phase, op) && Step(s, op).cfg == s.cfg && |Step(s, op).nodes| == |s.nodes|
  {
    hide Step, Unseen;
    StepShape(s, op);
    match op {
      case Start(_, _, _) => ForeignStart(s, phase, op);
      case SetNx(_, _, _, _) => ForeignSetNx(s, phase, op);
      case Undo(_, _) => ForeignDelete(s, phase, op);
      case ReleaseOne(_, _) => ForeignDelete(s, phase, op);
      case _ => ForeignRest(s, phase, op);
    }
  }

  lemma ForeignStart(s: Sys, phase: Phase, op: Op)
    requires ME in s.calls && Foreign(op) && op.Start?
    ensures Unseen(s, phase, op)
  {
    SameValues(s, phase, op.value);
    assert Step(Set(s, ME, phase), op).calls == Set(Step(s, op), ME, phase).calls;
  }

  lemma ForeignSetNx(s: Sys, phase: Phase, op: Op)
    requires ME in s.calls && Foreign(op) && op.SetNx?
    ensures Unseen(s, phase, op)
  {
    hide Drift;
    assert Step(Set(s, ME, phase), op).calls == Set(Step(s, op), ME, phase).calls;
  }

  lemma ForeignDelete(s: Sys, phase: Phase, op: Op)
    requires ME in s.calls && Foreign(op) && (op.Undo? || op.ReleaseOne?)
    ensures Unseen(s, phase, op)
  {
    hide Unset;
    assert Step(Set(s, ME, phase), op).calls == Set(Step(s, op), ME, phase).calls;
  }

  lemma ForeignRest(s: Sys, phase: Phase, op: Op)
    requires ME in s.calls && Foreign(op) && (op.Tick? || op.Try? || op.Finish? || op.Stamp? || op.Release?)
    ensures Unseen(s, phase, op)
  {
    hide Drift;
    assert Step(Set(s, ME, phase), op).calls == Set(Step(s, op), ME, phase).calls;
  }

  lemma SameValues(s: Sys, phase: Phase, value: string)
    requires ME in s.calls
    ensures (exists d :: d in s.calls && s.calls[d].value == value) <==>
            (exists d :: d in Set(s, ME, phase).calls && Set(s, ME, phase).calls[d].value == value)
  {
    var t := Set(s, ME, phase);
    forall d | d in s.calls ensures d in t.calls && t.calls[d].value == s.calls[d].value {}
  }

  lemma {:induction false} ForeignExec(s: Sys, phase: Phase, ops: seq<Op>)
    requires ME in s.calls && AllForeign(ops)
    ensures ME in Exec(s, ops).calls && Exec(s, ops).calls[ME] == s.calls[ME]
    ensures Exec(Set(s, ME, phase), ops) == Set(Exec(s, ops), ME, phase)
    ensures Exec(s, ops).cfg == s.cfg && |Exec(s, ops).nodes| == |s.nodes|
  {
    hide Step;
    if ops != [] {
      ForeignExec(s, phase, ops[..|ops| - 1]);
      ForeignStep(Exec(s, ops[..|ops| - 1]), phase, ops[|ops| - 1]);
    }
  }

  /** None of the first n nodes holds the value under the resource. */
  predicate Without(nodes: seq<Node>, n: nat, resource: string, value: string) {
    forall k :: 0 <= k < n && k < |nodes| && resource in nodes[k] ==> nodes[k][resource].value != value
  }

  /** Values are unique, so the others never write this client's. */
  lemma ForeignSpares(s: Sys, op: Op, n: nat)
    requires Inv(s) && ME in s.calls && Foreign(op) && Without(s.nodes, n, s.calls[ME].resource, s.calls[ME].value)
    ensures Without(Step(s, op).nodes, n, s.calls[ME].resource, s.calls[ME].value)
  {
    hide Drift, CallsOk, Exclusive;
  }

  lemma {:induction false} ForeignSparesAll(s: Sys, ops: seq<Op>, n: nat)
    requires Inv(s) && ME in s.calls && AllForeign(ops) && Without(s.nodes, n, s.calls[ME].resource, s.calls[ME].value)
    ensures Without(Exec(s, ops).nodes, n, s.calls[ME].resource, s.calls[ME].value)
  {
    hide Step, Inv, Without;
    if ops != [] {
      var before := ops[..|ops| - 1];
      ForeignSparesAll(s, before, n);
      ExecInv(s, before);
      ForeignExec(s, Ended, before);
      ForeignSpares(Exec(s, before), ops[|ops| - 1], n);
    }
  }

  // ---------- one round of each loop ----------

  /** The position in a delete loop: undoing an attempt, or releasing. */
  function BackPhase(undoing: Option<nat>, at: nat): Phase {
    match undoing
    case Some(attempts) => Undoing(attempts, at)
    case None => Releasing(at)
  }

  function BackOp(undoing: Option<nat>, delivered: bool): Op {
    if undoing.Some? then Undo(ME, delivered) else ReleaseOne(ME, delivered)
  }

  lemma BackRound(s: Sys, undoing: Option<nat>, i: nat, delivered: bool)
    requires ME in s.calls && i < |s.nodes| && s.calls[ME].phase == BackPhase(undoing, i)
    ensures Step(s, BackOp(undoing, delivered))
         == Set(s, ME, BackPhase(undoing, i + 1))
              .(nodes := if delivered then s.nodes[i := Unset(s.nodes[i], s.calls[ME])] else s.nodes)
  {
  }

  lemma SetRound(s: Sys, attempts: nat, start: Time, i: nat, got: set<nat>, delivered: bool, acked: bool, expires: Time)
    requires ME in s.calls && i < |s.nodes| && s.calls[ME].phase == Setting(attempts, start, i, got)
    requires NodeKeeps(s.cfg, s.clock, expires)
    ensures var a, wins := s.calls[ME], delivered && !Present(s, i, s.calls[ME].resource);
      Step(s, SetNx(ME, delivered, acked, expires))
      == Set(s, ME, Setting(attempts, start, i + 1, if wins && acked then got + {i} else got))
           .(nodes := if wins then s.nodes[i := s.nodes[i][a.resource := Entry(a.value, expires)]] else s.nodes)
  {
    hide Drift;
  }

  // ---------- the steps between the loops ----------

  lemma Again(others: map<Call, Acquire>, a: Acquire, b: Acquire)
    ensures others[ME := a][ME := b] == others[ME := b]
  {
  }

  lemma TickStep(s: Sys, elapsed: nat)
    ensures Step(s, Tick(elapsed)) == s.(clock := s.clock + elapsed)
  {
  }

  lemma TryStep(s: Sys)
    requires ME in s.calls && s.calls[ME].phase.Waiting? && s.calls[ME].phase.attempts < s.cfg.retryCount
    ensures Step(s, Try(ME)) == Set(s, ME, Setting(s.calls[ME].phase.attempts + 1, s.clock, 0, {}))
  {
  }

  lemma FinishEnds(s: Sys, attempts: nat, start: Time, got: set<nat>)
    requires ME in s.calls && s.calls[ME].phase == Setting(attempts, start, |s.nodes|, got)
    ensures Step(s, Finish(ME)) ==
      if |got| >= s.cfg.quorum && s.cfg.ttl - (s.clock - start) - Drift(s.cfg) > 0
      then Set(s, ME, Stamping(got, start, s.clock)) else Set(s, ME, Undoing(attempts, 0))
  {
  }

  lemma StampEnds(s: Sys)
    requires ME in s.calls && s.calls[ME].phase.Stamping?
    ensures Step(s, Stamp(ME)) == Set(s, ME, Stamped(s.cfg, s.calls[ME].phase, s.clock))
  {
  }

  lemma UndoEnds(s: Sys, attempts: nat)
    requires ME in s.calls && s.calls[ME].phase == Undoing(attempts, |s.nodes|)
    ensures Step(s, Undo(ME, true)) == Set(s, ME, if attempts < s.cfg.retryCount then Waiting(attempts) else Ended)
  {
  }

  lemma ReleaseStarts(s: Sys)
    requires ME in s.calls && s.calls[ME].phase.Holding?
    ensures Step(s, Redlock.Release(ME)) == Set(s, ME, Releasing(0))
  {
  }

  /** A held lock rests on a quorum of nodes to the end of its claim, less its lag. */
  lemma HolderOwns(s: Sys)
    requires Inv(s) && ME in s.calls && s.calls[ME].phase.Holding?
    ensures var a, p := s.calls[ME], s.calls[ME].phase;
      && |p.got| >= s.cfg.quorum
      && forall i :: i in p.got ==> Owns(s.nodes, s.clock, a.resource, a.value, i, p.expiry - Lag(p))
  {
    hide Drift, Owns;
    assert CallOk(s, s.calls[ME]);
  }

  class Manager {
    const cfg: Config
    var nodes: seq<Node>
    var clock: Time
    var others: map<Call, Acquire>   // every other client's calls, on the same nodes

    constructor (nodes: seq<Node>, cfg: Config, clock: Time, others: map<Call, Acquire>)
      ensures Valid() && this.cfg == NewManager(|nodes|, cfg)
      ensures this.nodes == nodes && this.clock == clock && this.others == others
    {
      this.cfg, this.nodes, this.clock, this.others := NewManager(|nodes|, cfg), nodes, clock, others;
    }

    predicate Valid() { cfg.retryCount > 0 && cfg.retryDelay > 0 }

    /** The protocol state, with this client's call at the given phase. */
    ghost function World(resource: string, value: string, phase: Phase): Sys
      reads this
    {
      Sys(cfg, clock, nodes, others[ME := Acquire(resource, value, phase)])
    }

    /** The others take any steps, and time passes, while this client waits at `phase`. */
    method Meanwhile(resource: string, value: string, ghost phase: Phase) returns (ghost trace: seq<Op>)
      modifies this
      ensures AllForeign(trace) && |nodes| == |old(nodes)|
      ensures World(resource, value, phase) == Exec(old(World(resource, value, phase)), trace)
    {
      hide Exec, Step;
      var steps: seq<Op> := *;
      var chosen := OnlyForeign(steps);
      var s0 := Sys(cfg, clock, nodes, others[ME := Acquire(resource, value, Ended)]);
      ForeignExec(s0, phase, chosen);
      assert Set(s0, ME, phase) == World(resource, value, phase);
      var s := Exec(s0, chosen);
      nodes, clock, others := s.nodes, s.clock, s.calls - {ME};
      trace := chosen;
      assert (s.calls - {ME})[ME := Acquire(resource, value, phase)] == Set(s, ME, phase).calls;
    }

    /** The SET NX loop of one attempt. */
    method SetAll(resource: string, value: string, attempts: nat)
      returns (start: Time, acquired: nat, ghost got: set<nat>, ghost trace: seq<Op>)
      modifies this
      ensures |nodes| == |old(nodes)| && acquired == |got|
      ensures World(resource, value, Setting(attempts, start, |nodes|, got))
           == Exec(old(World(resource, value, Setting(attempts, clock, 0, {}))), trace)
    {
      hide Drift, Step, Exec;
      start, acquired, got, trace := clock, 0, {}, [];
      ghost var s0 := World(resource, value, Setting(attempts, clock, 0, {}));
      ExecNothing(s0);
      var i := 0;
      while i < |nodes|
        invariant i <= |nodes| == |old(nodes)| && acquired == |got| && forall k :: k in got ==> k < i
        invariant World(resource, value, Setting(attempts, start, i, got)) == Exec(s0, trace)
      {
        ghost var more := Meanwhile(resource, value, Setting(attempts, start, i, got));
        ExecConcat(s0, trace, more);
        var delivered: bool, acked: bool := *, *;
        DriftCoversNode(cfg, clock, clock + cfg.ttl - Drift(cfg));
        var expires: Time :| NodeKeeps(cfg, clock, expires);
        ExecSnoc(s0, trace + more, SetNx(ME, delivered, acked, expires));
        SetRound(Exec(s0, trace + more), attempts, start, i, got, delivered, acked, expires);
        trace := trace + more + [SetNx(ME, delivered, acked, expires)];
        if delivered && !(resource in nodes[i] && clock < nodes[i][resource].expires) {
          nodes := nodes[i := nodes[i][resource := Entry(value, expires)]];
          if acked { acquired, got := acquired + 1, got + {i}; }
        }
        i := i + 1;
      }
    }

    /** The guarded delete on every node, after a partial win or in Release. If every node
        answered, none of them holds this client's value at the end, whatever the others
        did meanwhile. */
    method DeleteAll(resource: string, value: string, ghost undoing: Option<nat>) returns (errors: nat, ghost trace: seq<Op>)
      requires Inv(World(resource, value, BackPhase(undoing, 0)))
      modifies this
      ensures |nodes| == |old(nodes)|
      ensures World(resource, value, BackPhase(undoing, |nodes|))
           == Exec(old(World(resource, value, BackPhase(undoing, 0))), trace)
      ensures errors == 0 ==> Without(nodes, |nodes|, resource, value)
    {
      hide Step, Exec, Inv;
      errors, trace := 0, [];
      ghost var s0 := World(resource, value, BackPhase(undoing, 0));
      ExecNothing(s0);
      var i := 0;
      while i < |nodes|
        invariant i <= |nodes| == |old(nodes)|
        invariant World(resource, value, BackPhase(undoing, i)) == Exec(s0, trace)
        invariant errors == 0 ==> Without(nodes, i, resource, value)
      {
        ExecInv(s0, trace);
        ghost var was := Exec(s0, trace);
        ghost var more := Meanwhile(resource, value, BackPhase(undoing, i));
        ExecConcat(s0, trace, more);
        if errors == 0 { ForeignSparesAll(was, more, i); }
        var delivered: bool, acked: bool := *, *;
        ExecSnoc(s0, trace + more, BackOp(undoing, delivered));
        BackRound(Exec(s0, trace + more), undoing, i, delivered);
        trace := trace + more + [BackOp(undoing, delivered)];
        if delivered {
          if resource in nodes[i] && nodes[i][resource].value == value {
            nodes := nodes[i := nodes[i] - {resource}];
          }
        }
        if !delivered || !acked { errors := errors + 1; }
        i := i + 1;
      }
    }

    /** One attempt: the loop, the measurement, and the stamp or the undo. */
    method Attempt(resource: string, value: string, attempt: nat)
      returns (expiry: Option<Time>, ghost final: Phase, ghost trace: seq<Op>)
      requires attempt < cfg.retryCount && Inv(World(resource, value, Waiting(attempt)))
      modifies this
      ensures |nodes| == |old(nodes)|
      ensures World(resource, value, final) == Exec(old(World(resource, value, Waiting(attempt))), trace)
      ensures match expiry
        case Some(e) => final.Holding? && final.expiry == e && final.acquired == clock && FairExpiry(cfg, final)
        case None => final == if attempt + 1 < cfg.retryCount then Waiting(attempt + 1) else Ended
    {
      hide Drift, Exec, Inv, Step;
      ghost var s0 := World(resource, value, Waiting(attempt));
      OneStep(s0, Try(ME));
      TryStep(s0);
      Again(others, s0.calls[ME], Acquire(resource, value, Setting(attempt + 1, clock, 0, {})));
      assert Exec(s0, [Try(ME)]) == World(resource, value, Setting(attempt + 1, clock, 0, {}));
      ghost var sets, more;
      var start, acquired;
      ghost var got;
      start, acquired, got, sets := SetAll(resource, value, attempt + 1);
      trace := [Try(ME)] + sets;
      ExecConcat(s0, [Try(ME)], sets);
      more := Meanwhile(resource, value, Setting(attempt + 1, start, |nodes|, got));
      ExecConcat(s0, trace, more);
      trace := trace + more;
      ExecSnoc(s0, trace, Finish(ME));
      FinishEnds(Exec(s0, trace), attempt + 1, start, got);
      trace := trace + [Finish(ME)];
      ghost var me := Acquire(resource, value, Setting(attempt + 1, start, |nodes|, got));
      Again(others, me, me.(phase := Stamping(got, start, clock)));
      Again(others, me, me.(phase := Undoing(attempt + 1, 0)));
      var validity := cfg.ttl - (clock - start) - Drift(cfg);
      if acquired >= cfg.quorum && validity > 0 {
        final := Stamping(got, start, clock);
        more := Meanwhile(resource, value, final);
        ExecConcat(s0, trace, more);
        trace := trace + more;
        ExecSnoc(s0, trace, Stamp(ME));
        StampEnds(Exec(s0, trace));
        DriftCoversNode(cfg, 0, 0);
        Again(others, me.(phase := final), me.(phase := Stamped(cfg, final, clock)));
        trace := trace + [Stamp(ME)];
        expiry, final := Some(clock + validity), Stamped(cfg, final, clock);
      } else {
        ExecInv(s0, trace);
        var errors;
        errors, more := DeleteAll(resource, value, Some(attempt + 1));
        ExecConcat(s0, trace, more);
        ExecSnoc(s0, trace + more, Undo(ME, true));
        UndoEnds(Exec(s0, trace + more), attempt + 1);
        trace := trace + more + [Undo(ME, true)];
        expiry, final := None, if attempt + 1 < cfg.retryCount then Waiting(attempt + 1) else Ended;
        Again(others, me.(phase := Undoing(attempt + 1, |nodes|)), me.(phase := final));
      }
    }

    /** A lock is returned exactly when the protocol ends up holding; then a quorum of the
        nodes keep the caller's value to the end of the time it claims, less its lag. */
    method AcquireLock(resource: string, value: string)
      returns (r: Option<Lock>, cancelled: bool, ghost final: Phase, ghost trace: seq<Op>)
      requires Valid() && Inv(World(resource, value, Waiting(0)))
      modifies this
      ensures |nodes| == |old(nodes)|
      ensures World(resource, value, final) == Exec(old(World(resource, value, Waiting(0))), trace)
      ensures r == if final.Holding? then Some(Lock(resource, value, final.expiry)) else None
      ensures r.None? ==> if cancelled then final.Waiting? && final.attempts > 0 else final.Ended?
      ensures final.Ended? ==> clock - old(clock) >= (cfg.retryCount - 1) * cfg.retryDelay
      ensures r.Some? ==>
        && final.acquired == clock && FairExpiry(cfg, final)
        && |final.got| >= cfg.quorum
        && forall i :: i in final.got ==> Owns(nodes, clock, resource, value, i, r.value.expiry - Lag(final))
    {
      hide Drift, Exec, Step, Inv;
      ghost var s0 := World(resource, value, Waiting(0));
      ExecNothing(s0);
      trace, final, cancelled := [], Waiting(0), false;
      var attempt := 0;
      while attempt < cfg.retryCount
        invariant |nodes| == |old(nodes)| && attempt <= cfg.retryCount
        invariant final == if attempt < cfg.retryCount then Waiting(attempt) else Ended
        invariant World(resource, value, final) == Exec(s0, trace)
        invariant clock - old(clock) >= Waits(attempt, cfg.retryDelay)
      {
        ghost var more;
        ghost var was := World(resource, value, final);
        if attempt > 0 {
          cancelled := *;
          if cancelled { return None, true, final, trace; }
          more := Meanwhile(resource, value, final);
          ExecClock(was, more);
          ExecConcat(s0, trace, more);
          ExecSnoc(s0, trace + more, Tick(cfg.retryDelay));
          TickStep(Exec(s0, trace + more), cfg.retryDelay);
          trace := trace + more + [Tick(cfg.retryDelay)];
          clock := clock + cfg.retryDelay;
          assert attempt * cfg.retryDelay == (attempt - 1) * cfg.retryDelay + cfg.retryDelay;
        }
        was := World(resource, value, final);
        ExecInv(s0, trace);
        var expiry;
        expiry, final, more := Attempt(resource, value, attempt);
        ExecClock(was, more);
        ExecConcat(s0, trace, more);
        trace := trace + more;
        if expiry.Some? {
          ExecInv(s0, trace);
          HolderOwns(Exec(s0, trace));
          return Some(Lock(resource, value, expiry.value)), false, final, trace;
        }
        attempt := attempt + 1;
      }
      return None, false, final, trace;
    }

    /** Release is the protocol's, on every node. If no node failed, none of them holds this
        client's value when it returns. */
    method Release(l: Lock, ghost held: Phase) returns (errors: nat, ghost trace: seq<Op>)
      requires held.Holding? && Inv(World(l.resource, l.value, held))
      modifies this
      ensures |nodes| == |old(nodes)|
      ensures World(l.resource, l.value, Releasing(|nodes|)) == Exec(old(World(l.resource, l.value, held)), trace)
      ensures errors == 0 ==> Without(nodes, |nodes|, l.resource, l.value)
    {
      hide Exec, Inv, Step;
      ghost var s0 := World(l.resource, l.value, held);
      OneStep(s0, Redlock.Release(ME));
      ReleaseStarts(s0);
      Again(others, s0.calls[ME], Acquire(l.resource, l.value, Releasing(0)));
      assert Exec(s0, [Redlock.Release(ME)]) == World(l.resource, l.value, BackPhase(None, 0));
      ExecInv(s0, [Redlock.Release(ME)]);
      ghost var back;
      errors, back := DeleteAll(l.resource, l.value, None);
      trace := [Redlock.Release(ME)] + back;
      ExecConcat(s0, [Redlock.Release(ME)], back);
    }
  }
}
