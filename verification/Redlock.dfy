/** The Redlock quorum lock: any number of clients interleaving SET NX and guarded
    deletes on N independent nodes.

    A command to a node either takes effect at once or not at all, and a reply may be
    lost after it took effect. A node's clock may run fast and its TTLs are rounded: a key
    may lose up to the driftFactor's share of its TTL, and two milliseconds, and no more.
    The client's clock is read twice after the loop, once to measure
    the validity that is left and once to stamp the expiry; time may pass in between. */
module Redlock {
  import opened Wrappers
  import opened Durations

  type Call = nat
  type Time = int

  datatype Config = Config(quorum: int, ttl: Time, retryCount: int, retryDelay: Time, driftFactor: real)

  /** NewManager's defaults; an unset quorum becomes a majority of the nodes. */
  function NewManager(nodes: nat, cfg: Config): (m: Config)
    ensures m.quorum > 0 && m.ttl > 0 && m.retryCount > 0 && m.retryDelay > 0 && m.driftFactor > 0.0
    ensures if cfg.quorum > 0 then m.quorum == cfg.quorum else nodes < 2 * m.quorum <= nodes + 2
    ensures m.ttl == if cfg.ttl > 0 then cfg.ttl else 10_000 * MILLISECOND
    ensures m.retryCount == if cfg.retryCount > 0 then cfg.retryCount else 3
    ensures m.retryDelay == if cfg.retryDelay > 0 then cfg.retryDelay else SECOND / 5
    ensures m.driftFactor == if cfg.driftFactor > 0.0 then cfg.driftFactor else 1.0 / 100.0
  {
    Config(
      if cfg.quorum <= 0 then nodes / 2 + 1 else cfg.quorum,
      if cfg.ttl <= 0 then 10 * SECOND else cfg.ttl,
      if cfg.retryCount <= 0 then 3 else cfg.retryCount,
      if cfg.retryDelay <= 0 then 200 * MILLISECOND else cfg.retryDelay,
      if cfg.driftFactor <= 0.0 then 0.01 else cfg.driftFactor)
  }

  function Drift(cfg: Config): Time {
    (cfg.ttl as real * cfg.driftFactor).Floor + 2 * MILLISECOND
  }

  /** How long, in real nanoseconds, a node is sure to keep a key. */
  function SureLife(cfg: Config): real { cfg.ttl as real - cfg.ttl as real * cfg.driftFactor - 2_000_000.0 }

  /** What a node guarantees of a key set at `since`. */
  predicate NodeKeeps(cfg: Config, since: Time, expires: Time) { (expires - since) as real >= SureLife(cfg) }

  /** The manager's allowance is exactly what the nodes may take off a TTL, in whole
      nanoseconds. */
  lemma DriftCoversNode(cfg: Config, since: Time, expires: Time)
    ensures NodeKeeps(cfg, since, expires) <==> expires >= since + cfg.ttl - Drift(cfg)
    ensures SureLife(cfg) <= (cfg.ttl - Drift(cfg)) as real < SureLife(cfg) + 1.0
    ensures SureLife(cfg) > 0.0 <==> Drift(cfg) < cfg.ttl
  {
  }

  datatype Entry = Entry(value: string, expires: Time)
  type Node = map<string, Entry>

  datatype Phase =
    | Waiting(attempts: nat)
    | Setting(attempts: nat, start: Time, at: nat, got: set<nat>)   // the SET NX loop, at node `at`
    | Undoing(attempts: nat, at: nat)                               // giving back a partial win
    | Stamping(got: set<nat>, start: Time, measured: Time)          // won, the expiry not yet computed
    | Holding(got: set<nat>, start: Time, measured: Time, acquired: Time, expiry: Time)
    | Releasing(at: nat)
    | Ended

  datatype Acquire = Acquire(resource: string, value: string, phase: Phase)

  datatype Sys = Sys(cfg: Config, clock: Time, nodes: seq<Node>, calls: map<Call, Acquire>)

  datatype Op =
    | Tick(elapsed: nat)
    | Start(call: Call, resource: string, value: string)
    | Try(call: Call)
    | SetNx(call: Call, delivered: bool, acked: bool, expires: Time)
    | Finish(call: Call)
    | Stamp(call: Call)
    | Undo(call: Call, delivered: bool)
    | Release(call: Call)
    | ReleaseOne(call: Call, delivered: bool)

  function Init(cfg: Config, n: nat): Sys { Sys(cfg, 0, seq(n, _ => map[]), map[]) }

  function Set(s: Sys, c: Call, phase: Phase): Sys
    requires c in s.calls
  {
    s.(calls := s.calls[c := s.calls[c].(phase := phase)])
  }

  predicate Present(s: Sys, i: nat, resource: string) {
    i < |s.nodes| && resource in s.nodes[i] && s.clock < s.nodes[i][resource].expires
  }

  /** releaseScript: delete the key only if it still holds the caller's value. */
  function Unset(node: Node, a: Acquire): Node {
    if a.resource in node && node[a.resource].value == a.value then node - {a.resource} else node
  }

  function SetNxStep(s: Sys, c: Call, delivered: bool, acked: bool, expires: Time): Sys
    requires c in s.calls && s.calls[c].phase.Setting? && s.calls[c].phase.at < |s.nodes|
  {
    var a := s.calls[c];
    var Setting(attempts, start, at, got) := a.phase;
    if delivered && !Present(s, at, a.resource) && NodeKeeps(s.cfg, s.clock, expires) then
      Set(s, c, Setting(attempts, start, at + 1, if acked then got + {at} else got))
        .(nodes := s.nodes[at := s.nodes[at][a.resource := Entry(a.value, expires)]])
    else
      Set(s, c, Setting(attempts, start, at + 1, got))
  }

  /** acquired >= quorum and validity > 0, or give everything back. */
  function FinishStep(s: Sys, c: Call): Sys
    requires c in s.calls && s.calls[c].phase.Setting?
  {
    var Setting(attempts, start, at, got) := s.calls[c].phase;
    var validity := s.cfg.ttl - (s.clock - start) - Drift(s.cfg);
    if |got| >= s.cfg.quorum && validity > 0
    then Set(s, c, Stamping(got, start, s.clock))
    else Set(s, c, Undoing(attempts, 0))
  }

  function Stamped(cfg: Config, p: Phase, now: Time): Phase
    requires p.Stamping?
  {
    Holding(p.got, p.start, p.measured, now, now + (cfg.ttl - (p.measured - p.start) - Drift(cfg)))
  }

  function Step(s: Sys, op: Op): Sys {
    match op
    case Tick(elapsed) => s.(clock := s.clock + elapsed)
    case Start(c, resource, value) =>
      if c in s.calls || (exists d :: d in s.calls && s.calls[d].value == value) then s
      else s.(calls := s.calls[c := Acquire(resource, value, Waiting(0))])
    case Try(c) =>
      if c in s.calls && s.calls[c].phase.Waiting? && s.calls[c].phase.attempts < s.cfg.retryCount
      then Set(s, c, Setting(s.calls[c].phase.attempts + 1, s.clock, 0, {})) else s
    case SetNx(c, delivered, acked, expires) =>
      if c in s.calls && s.calls[c].phase.Setting? && s.calls[c].phase.at < |s.nodes|
      then SetNxStep(s, c, delivered, acked, expires) else s
    case Finish(c) =>
      if c in s.calls && s.calls[c].phase.Setting? && s.calls[c].phase.at == |s.nodes| then FinishStep(s, c) else s
    case Stamp(c) =>
      if c in s.calls && s.calls[c].phase.Stamping? then Set(s, c, Stamped(s.cfg, s.calls[c].phase, s.clock)) else s
    case Undo(c, delivered) =>
      if c in s.calls && s.calls[c].phase.Undoing? then
        var Undoing(attempts, at) := s.calls[c].phase;
        if at < |s.nodes| then
          Set(s, c, Undoing(attempts, at + 1))
            .(nodes := if delivered then s.nodes[at := Unset(s.nodes[at], s.calls[c])] else s.nodes)
        else Set(s, c, if attempts < s.cfg.retryCount then Waiting(attempts) else Ended)
      else s
    case Release(c) =>
      if c in s.calls && s.calls[c].phase.Holding? then Set(s, c, Releasing(0)) else s
    case ReleaseOne(c, delivered) =>
      if c in s.calls && s.calls[c].phase.Releasing? then
        var at := s.calls[c].phase.at;
        if at < |s.nodes| then
          Set(s, c, Releasing(at + 1))
            .(nodes := if delivered then s.nodes[at := Unset(s.nodes[at], s.calls[c])] else s.nodes)
        else Set(s, c, Ended)
      else s
  }

  function Exec(s: Sys, ops: seq<Op>): Sys {
    if ops == [] then s else Step(Exec(s, ops[..|ops| - 1]), ops[|ops| - 1])
  }

  function Run(cfg: Config, n: nat, ops: seq<Op>): Sys { Exec(Init(cfg, n), ops) }

  lemma OneStep(s: Sys, op: Op)
    ensures Exec(s, [op]) == Step(s, op)
  {
    assert [op][..0] == [] && Exec(s, []) == s;
  }

  lemma {:induction false} ExecConcat(s: Sys, a: seq<Op>, b: seq<Op>)
    ensures Exec(s, a + b) == Exec(Exec(s, a), b)
  {
    hide Step;
    if b == [] {
      assert a + b == a;
    } else {
      var m := |b| - 1;
      assert (a + b)[..|a + b| - 1] == a + b[..m];
      ExecConcat(s, a, b[..m]);
    }
  }

  // ---------- the invariant ----------

  ghost predicate ValuesUnique(s: Sys) {
    forall c, d :: c in s.calls && d in s.calls && c != d ==> s.calls[c].value != s.calls[d].value
  }

  /** Until the lease's last safe instant, node i holds the caller's own entry. */
  ghost predicate Owns(nodes: seq<Node>, clock: Time, resource: string, value: string, i: nat, until: Time) {
    && i < |nodes|
    && (clock < until ==>
          resource in nodes[i] && nodes[i][resource].value == value && nodes[i][resource].expires >= until)
  }

  function SafeUntil(cfg: Config, start: Time): Time { start + cfg.ttl - Drift(cfg) }

  predicate Won(p: Phase) { p.Stamping? || p.Holding? }

  ghost predicate OwnsAll(s: Sys, a: Acquire, got: set<nat>, start: Time) {
    forall i :: i in got ==> Owns(s.nodes, s.clock, a.resource, a.value, i, SafeUntil(s.cfg, start))
  }

  ghost predicate CallOk(s: Sys, a: Acquire) {
    match a.phase
    case Setting(_, start, at, got) =>
      start <= s.clock && at <= |s.nodes| && OwnsAll(s, a, got, start)
    case Stamping(got, start, measured) =>
      && start <= measured <= s.clock && measured < SafeUntil(s.cfg, start)
      && |got| >= s.cfg.quorum && OwnsAll(s, a, got, start)
    case Holding(got, start, measured, acquired, expiry) =>
      && start <= measured <= acquired <= s.clock && measured < SafeUntil(s.cfg, start)
      && |got| >= s.cfg.quorum && OwnsAll(s, a, got, start)
      && expiry == SafeUntil(s.cfg, start) + (acquired - measured)
    case _ => true
  }

  ghost predicate CallsOk(s: Sys) { forall c :: c in s.calls ==> CallOk(s, s.calls[c]) }

  /** The guarded windows of two wins, from the measurement to the last safe instant,
      do not meet. */
  predicate Apart(cfg: Config, p: Phase, q: Phase) {
    Won(p) && Won(q) ==> SafeUntil(cfg, p.start) <= q.measured || SafeUntil(cfg, q.start) <= p.measured
  }

  /** Unreleased locks on one resource have pairwise disjoint guarded windows. */
  ghost predicate Exclusive(s: Sys) {
    forall c, d :: c in s.calls && d in s.calls && c != d && s.calls[c].resource == s.calls[d].resource ==>
      Apart(s.cfg, s.calls[c].phase, s.calls[d].phase)
  }

  predicate Majority(s: Sys) { 2 * s.cfg.quorum > |s.nodes| }

  ghost predicate Inv(s: Sys) { ValuesUnique(s) && CallsOk(s) && (Majority(s) ==> Exclusive(s)) }

  // ---------- two quorums meet ----------

  lemma {:induction false} InRangeSize(a: set<nat>, n: nat)
    requires forall i :: i in a ==> i < n
    ensures |a| <= n
  {
    if n > 0 {
      InRangeSize(a - {n - 1}, n - 1);
    } else {
      assert a == {};
    }
  }

  lemma QuorumsMeet(a: set<nat>, b: set<nat>, n: nat, quorum: int) returns (i: nat)
    requires forall i :: i in a ==> i < n
    requires forall i :: i in b ==> i < n
    requires |a| >= quorum && |b| >= quorum && 2 * quorum > n
    ensures i in a && i in b
  {
    InRangeSize(a + b, n);
    assert |a + b| == |a| + |b| - |a * b|;
    i :| i in a * b;
  }

  // ---------- steps ----------

  /** Owners whose value is not `mine` keep what they own. */
  ghost predicate KeepsOwners(nodes: seq<Node>, nodes': seq<Node>, clock: Time, mine: string) {
    && |nodes'| == |nodes|
    && forall r, v, i, until :: v != mine && Owns(nodes, clock, r, v, i, until) ==> Owns(nodes', clock, r, v, i, until)
  }

  /** The general step of call c: it changes its own phase and some nodes. */
  lemma StepOfCall(s: Sys, c: Call, phase: Phase, nodes: seq<Node>)
    requires Inv(s) && c in s.calls && KeepsOwners(s.nodes, nodes, s.clock, s.calls[c].value)
    requires CallOk(Set(s, c, phase).(nodes := nodes), s.calls[c].(phase := phase))
    requires Majority(s) ==> forall d :: d in s.calls && d != c && s.calls[d].resource == s.calls[c].resource ==>
      Apart(s.cfg, phase, s.calls[d].phase)
    ensures Inv(Set(s, c, phase).(nodes := nodes))
  {
    hide Owns, Drift;
    var s' := Set(s, c, phase).(nodes := nodes);
    forall d | d in s'.calls ensures CallOk(s', s'.calls[d]) {
      if d != c { assert CallOk(s, s.calls[d]); }
    }
    if Majority(s) {
      forall x, y | x in s'.calls && y in s'.calls && x != y && s'.calls[x].resource == s'.calls[y].resource
        ensures Apart(s.cfg, s'.calls[x].phase, s'.calls[y].phase)
      {
        assert x != c && y != c ==> Apart(s.cfg, s.calls[x].phase, s.calls[y].phase);
      }
    }
  }

  lemma TickKeeps(s: Sys, elapsed: nat)
    requires Inv(s)
    ensures Inv(s.(clock := s.clock + elapsed))
  {
    hide Drift, Apart;
    var s' := s.(clock := s.clock + elapsed);
    forall d | d in s'.calls ensures CallOk(s', s'.calls[d]) {
      assert CallOk(s, s.calls[d]);
    }
  }

  lemma StartKeeps(s: Sys, c: Call, resource: string, value: string)
    requires Inv(s)
    ensures Inv(Step(s, Start(c, resource, value)))
  {
    hide Drift, Owns;
    var s' := Step(s, Start(c, resource, value));
    forall d | d in s'.calls ensures CallOk(s', s'.calls[d]) {
      assert d in s.calls ==> CallOk(s, s.calls[d]);
    }
  }

  /** A step that only changes the phase of c, to one that has not won. */
  lemma PhaseKeeps(s: Sys, c: Call, phase: Phase)
    requires Inv(s) && c in s.calls && !Won(phase) && CallOk(s, s.calls[c].(phase := phase))
    ensures Inv(Set(s, c, phase))
  {
    hide Drift, Owns;
    StepOfCall(s, c, phase, s.nodes);
    assert Set(s, c, phase).(nodes := s.nodes) == Set(s, c, phase);
  }

  /** Deleting under a guard on one's own value takes nothing from anybody else. */
  lemma UnsetSparesOthers(nodes: seq<Node>, clock: Time, at: nat, a: Acquire)
    requires at < |nodes|
    ensures KeepsOwners(nodes, nodes[at := Unset(nodes[at], a)], clock, a.value)
  {
  }

  lemma GiveBackKeeps(s: Sys, c: Call, at: nat, phase: Phase)
    requires Inv(s) && c in s.calls && at < |s.nodes| && (phase.Undoing? || phase.Releasing?)
    ensures Inv(Set(s, c, phase).(nodes := s.nodes[at := Unset(s.nodes[at], s.calls[c])]))
  {
    hide Drift, Owns, KeepsOwners, Unset, ValuesUnique, CallsOk, Exclusive;
    UnsetSparesOthers(s.nodes, s.clock, at, s.calls[c]);
    StepOfCall(s, c, phase, s.nodes[at := Unset(s.nodes[at], s.calls[c])]);
  }

  /** SET NX succeeds only where no unexpired key is in the way, so it overwrites
      nothing anybody still owns. */
  lemma SetNxSparesAll(s: Sys, at: nat, a: Acquire, expires: Time)
    requires at < |s.nodes| && !Present(s, at, a.resource)
    ensures var nodes := s.nodes[at := s.nodes[at][a.resource := Entry(a.value, expires)]];
      && KeepsOwners(s.nodes, nodes, s.clock, a.value)
      && (forall i, until :: Owns(s.nodes, s.clock, a.resource, a.value, i, until) ==>
            Owns(nodes, s.clock, a.resource, a.value, i, until))
      && forall until :: until <= expires ==> Owns(nodes, s.clock, a.resource, a.value, at, until)
  {
  }

  lemma SetNxKeeps(s: Sys, c: Call, delivered: bool, acked: bool, expires: Time)
    requires Inv(s) && c in s.calls && s.calls[c].phase.Setting? && s.calls[c].phase.at < |s.nodes|
    ensures Inv(SetNxStep(s, c, delivered, acked, expires))
  {
    hide Drift, SureLife, Owns, KeepsOwners, ValuesUnique, Exclusive, Majority;
    var a := s.calls[c];
    var Setting(attempts, start, at, got) := a.phase;
    assert CallOk(s, a);
    if delivered && !Present(s, at, a.resource) && NodeKeeps(s.cfg, s.clock, expires) {
      DriftCoversNode(s.cfg, s.clock, expires);
      SetNxSparesAll(s, at, a, expires);
      StepOfCall(s, c, Setting(attempts, start, at + 1, if acked then got + {at} else got),
                 s.nodes[at := s.nodes[at][a.resource := Entry(a.value, expires)]]);
    } else {
      PhaseKeeps(s, c, Setting(attempts, start, at + 1, got));
    }
  }

  /** With overlapping quorums, a new lock starts only after every other unreleased
      lock on the resource has lost its validity. */
  lemma NewLockIsApart(s: Sys, c: Call, d: Call)
    requires Inv(s) && Majority(s)
    requires c in s.calls && d in s.calls && c != d && s.calls[c].resource == s.calls[d].resource
    requires s.calls[c].phase.Setting? && |s.calls[c].phase.got| >= s.cfg.quorum
    requires s.clock < SafeUntil(s.cfg, s.calls[c].phase.start) && Won(s.calls[d].phase)
    ensures SafeUntil(s.cfg, s.calls[d].phase.start) <= s.clock
  {
    hide SafeUntil;
    var a, b := s.calls[c], s.calls[d];
    assert CallOk(s, a) && CallOk(s, b);
    var i := QuorumsMeet(a.phase.got, b.phase.got, |s.nodes|, s.cfg.quorum);
    assert Owns(s.nodes, s.clock, a.resource, a.value, i, SafeUntil(s.cfg, a.phase.start));
    assert Owns(s.nodes, s.clock, b.resource, b.value, i, SafeUntil(s.cfg, b.phase.start));
  }

  lemma FinishKeeps(s: Sys, c: Call)
    requires Inv(s) && c in s.calls && s.calls[c].phase.Setting?
    ensures Inv(FinishStep(s, c))
  {
    hide Drift, Owns, ValuesUnique, Exclusive;
    var Setting(attempts, start, at, got) := s.calls[c].phase;
    assert CallOk(s, s.calls[c]);
    if |got| >= s.cfg.quorum && s.clock < SafeUntil(s.cfg, start) {
      var phase := Stamping(got, start, s.clock);
      forall d | Majority(s) && d in s.calls && d != c && s.calls[d].resource == s.calls[c].resource
        ensures Apart(s.cfg, phase, s.calls[d].phase)
      {
        if Won(s.calls[d].phase) { NewLockIsApart(s, c, d); }
      }
      StepOfCall(s, c, phase, s.nodes);
      assert Set(s, c, phase).(nodes := s.nodes) == Set(s, c, phase);
    } else {
      PhaseKeeps(s, c, Undoing(attempts, 0));
    }
  }

  lemma StampKeeps(s: Sys, c: Call)
    requires Inv(s) && c in s.calls && s.calls[c].phase.Stamping?
    ensures Inv(Set(s, c, Stamped(s.cfg, s.calls[c].phase, s.clock)))
  {
    hide Drift, Owns, ValuesUnique;
    var phase := Stamped(s.cfg, s.calls[c].phase, s.clock);
    assert CallOk(s, s.calls[c]);
    forall d | Majority(s) && d in s.calls && d != c && s.calls[d].resource == s.calls[c].resource
      ensures Apart(s.cfg, phase, s.calls[d].phase)
    {
      assert Apart(s.cfg, s.calls[c].phase, s.calls[d].phase);
    }
    StepOfCall(s, c, phase, s.nodes);
    assert Set(s, c, phase).(nodes := s.nodes) == Set(s, c, phase);
  }

  lemma StepKeeps(s: Sys, op: Op)
    requires Inv(s)
    ensures Inv(Step(s, op)) && Step(s, op).cfg == s.cfg && |Step(s, op).nodes| == |s.nodes|
  {
    hide Drift, ValuesUnique, CallsOk, Exclusive, Owns, SetNxStep, FinishStep, Stamped, Unset, Majority;
    StepShape(s, op);
    match op {
      case Tick(elapsed) => TickKeeps(s, elapsed);
      case Start(c, resource, value) => StartKeeps(s, c, resource, value);
      case Try(c) =>
        if c in s.calls && s.calls[c].phase.Waiting? && s.calls[c].phase.attempts < s.cfg.retryCount {
          PhaseKeeps(s, c, Setting(s.calls[c].phase.attempts + 1, s.clock, 0, {}));
        }
      case SetNx(c, delivered, acked, expires) =>
        if c in s.calls && s.calls[c].phase.Setting? && s.calls[c].phase.at < |s.nodes| {
          SetNxKeeps(s, c, delivered, acked, expires);
        }
      case Finish(c) =>
        if c in s.calls && s.calls[c].phase.Setting? { FinishKeeps(s, c); }
      case Stamp(c) =>
        if c in s.calls && s.calls[c].phase.Stamping? { StampKeeps(s, c); }
      case Undo(c, delivered) =>
        if c in s.calls && s.calls[c].phase.Undoing? {
          var Undoing(attempts, at) := s.calls[c].phase;
          if at >= |s.nodes| { PhaseKeeps(s, c, if attempts < s.cfg.retryCount then Waiting(attempts) else Ended); }
          else if delivered { GiveBackKeeps(s, c, at, Undoing(attempts, at + 1)); }
          else { PhaseKeeps(s, c, Undoing(attempts, at + 1)); }
        }
      case Release(c) =>
        if c in s.calls { PhaseKeeps(s, c, Releasing(0)); }
      case ReleaseOne(c, delivered) =>
        if c in s.calls && s.calls[c].phase.Releasing? {
          var at := s.calls[c].phase.at;
          if at >= |s.nodes| { PhaseKeeps(s, c, Ended); }
          else if delivered { GiveBackKeeps(s, c, at, Releasing(at + 1)); }
          else { PhaseKeeps(s, c, Releasing(at + 1)); }
        }
    }
  }

  lemma StepShape(s: Sys, op: Op)
    ensures Step(s, op).cfg == s.cfg && |Step(s, op).nodes| == |s.nodes| && Step(s, op).clock >= s.clock
  {
  }

  // ---------- whole runs ----------

  lemma {:induction false} RunInv(cfg: Config, n: nat, ops: seq<Op>)
    ensures Inv(Run(cfg, n, ops)) && Run(cfg, n, ops).cfg == cfg && |Run(cfg, n, ops).nodes| == n
  {
    hide Step, Drift;
    if ops != [] {
      RunInv(cfg, n, ops[..|ops| - 1]);
      StepKeeps(Run(cfg, n, ops[..|ops| - 1]), ops[|ops| - 1]);
    }
  }

  /** Two different calls hold locks on one resource. */
  predicate Rivals(s: Sys, c: Call, d: Call) {
    && c in s.calls && d in s.calls && c != d && s.calls[c].resource == s.calls[d].resource
    && s.calls[c].phase.Holding? && s.calls[d].phase.Holding?
  }

  /** How long after the validity was measured the expiry was stamped. */
  function Lag(p: Phase): int
    requires p.Holding?
  {
    p.acquired - p.measured
  }

  /** In every run under a majority quorum, the time two rival locks claim is disjoint
      once each claim is shortened by its own lag. */
  lemma MutualExclusion(cfg: Config, n: nat, ops: seq<Op>, c: Call, d: Call)
    requires 2 * cfg.quorum > n && Rivals(Run(cfg, n, ops), c, d)
    ensures var p, q := Run(cfg, n, ops).calls[c].phase, Run(cfg, n, ops).calls[d].phase;
      p.expiry - Lag(p) <= q.acquired || q.expiry - Lag(q) <= p.acquired
  {
    hide Drift;
    var s := Run(cfg, n, ops);
    RunInv(cfg, n, ops);
    assert Apart(s.cfg, s.calls[c].phase, s.calls[d].phase);
    assert CallOk(s, s.calls[c]) && CallOk(s, s.calls[d]);
  }

  /** The time left to a lock when it is stamped: the sure life of a key less what the
      attempt took, to within a nanosecond. */
  predicate FairExpiry(cfg: Config, p: Phase)
    requires p.Holding?
  {
    var ttl := cfg.ttl as real;
    var left := ttl - ttl * cfg.driftFactor - 2_000_000.0 - (p.measured - p.start) as real;
    left <= (p.expiry - p.acquired) as real < left + 1.0
  }

  /** What one step does to the phase of a call in or after its SET NX loop. */
  lemma PhaseStep(s: Sys, op: Op, c: Call)
    requires c in Step(s, op).calls
    ensures var p := Step(s, op).calls[c].phase;
      && (p.Setting? ==>
            || (op == Try(c) && p.start == s.clock)
            || (c in s.calls && s.calls[c].phase.Setting? && s.calls[c].phase.start == p.start))
      && (p.Stamping? ==>
            || (c in s.calls && s.calls[c].phase == p)
            || (op == Finish(c) && p.measured == s.clock
                && c in s.calls && s.calls[c].phase.Setting? && s.calls[c].phase.start == p.start))
      && (p.Holding? ==>
            || (c in s.calls && s.calls[c].phase == p)
            || (op == Stamp(c) && p.acquired == s.clock && FairExpiry(s.cfg, p)
                && c in s.calls && s.calls[c].phase == Stamping(p.got, p.start, p.measured)))
  {
    hide Drift, Present, Unset, NodeKeeps;
    DriftCoversNode(s.cfg, 0, 0);
  }

  function At(cfg: Config, n: nat, ops: seq<Op>, i: nat): Sys
    requires i <= |ops|
  {
    Run(cfg, n, ops[..i])
  }

  lemma AtStep(cfg: Config, n: nat, ops: seq<Op>, i: nat)
    requires i < |ops|
    ensures At(cfg, n, ops, i + 1) == Step(At(cfg, n, ops, i), ops[i])
  {
    hide Step;
    assert ops[..i + 1][..i] == ops[..i];
  }

  lemma NoCallsYet(cfg: Config, n: nat, ops: seq<Op>)
    ensures At(cfg, n, ops, 0).calls == map[]
  {
    assert ops[..0] == [];
  }

  lemma {:induction false} TriedAt(cfg: Config, n: nat, ops: seq<Op>, m: nat, c: Call) returns (i: nat)
    requires m <= |ops| && c in At(cfg, n, ops, m).calls && At(cfg, n, ops, m).calls[c].phase.Setting?
    ensures i < m && ops[i] == Try(c) && At(cfg, n, ops, m).calls[c].phase.start == At(cfg, n, ops, i).clock
    decreases m
  {
    hide Run;
    NoCallsYet(cfg, n, ops);
    AtStep(cfg, n, ops, m - 1);
    hide Step;
    PhaseStep(At(cfg, n, ops, m - 1), ops[m - 1], c);
    var s := At(cfg, n, ops, m - 1);
    if c in s.calls && s.calls[c].phase.Setting? && s.calls[c].phase.start == At(cfg, n, ops, m).calls[c].phase.start {
      i := TriedAt(cfg, n, ops, m - 1, c);
    } else {
      i := m - 1;
    }
  }

  lemma {:induction false} MeasuredAt(cfg: Config, n: nat, ops: seq<Op>, m: nat, c: Call) returns (i: nat, j: nat)
    requires m <= |ops| && c in At(cfg, n, ops, m).calls && At(cfg, n, ops, m).calls[c].phase.Stamping?
    ensures i < j < m && ops[i] == Try(c) && ops[j] == Finish(c)
    ensures var p := At(cfg, n, ops, m).calls[c].phase;
      p.start == At(cfg, n, ops, i).clock && p.measured == At(cfg, n, ops, j).clock
    decreases m
  {
    hide Run, Step;
    NoCallsYet(cfg, n, ops);
    AtStep(cfg, n, ops, m - 1);
    PhaseStep(At(cfg, n, ops, m - 1), ops[m - 1], c);
    var s := At(cfg, n, ops, m - 1);
    if c in s.calls && s.calls[c].phase == At(cfg, n, ops, m).calls[c].phase {
      i, j := MeasuredAt(cfg, n, ops, m - 1, c);
    } else {
      i := TriedAt(cfg, n, ops, m - 1, c);
      j := m - 1;
    }
  }

  /** The times of a lock are the clocks of its own steps: the attempt began at Try, the
      validity was measured at Finish, and the expiry stamped at Stamp allows the nodes
      exactly the drift and rounding they may have. */
  lemma {:induction false} LockTimes(cfg: Config, n: nat, ops: seq<Op>, m: nat, c: Call) returns (i: nat, j: nat, k: nat)
    requires m <= |ops| && c in At(cfg, n, ops, m).calls && At(cfg, n, ops, m).calls[c].phase.Holding?
    ensures i < j < k < m && ops[i] == Try(c) && ops[j] == Finish(c) && ops[k] == Stamp(c)
    ensures var p := At(cfg, n, ops, m).calls[c].phase;
      && FairExpiry(cfg, p)
      && p.start == At(cfg, n, ops, i).clock && p.measured == At(cfg, n, ops, j).clock
      && p.acquired == At(cfg, n, ops, k).clock
    decreases m
  {
    hide Run, Step, SureLife;
    NoCallsYet(cfg, n, ops);
    AtStep(cfg, n, ops, m - 1);
    PhaseStep(At(cfg, n, ops, m - 1), ops[m - 1], c);
    CfgStays(cfg, n, ops[..m - 1]);
    var s := At(cfg, n, ops, m - 1);
    if c in s.calls && s.calls[c].phase == At(cfg, n, ops, m).calls[c].phase {
      i, j, k := LockTimes(cfg, n, ops, m - 1, c);
    } else {
      i, j := MeasuredAt(cfg, n, ops, m - 1, c);
      k := m - 1;
    }
  }

  lemma CfgStays(cfg: Config, n: nat, ops: seq<Op>)
    ensures Run(cfg, n, ops).cfg == cfg
  {
    hide Run, Inv;
    RunInv(cfg, n, ops);
  }

  /** An unexpired key vanishes or changes only when the one call whose value it holds
      gives it back. */
  lemma KeyGivenBackByOwner(cfg: Config, n: nat, ops: seq<Op>, op: Op, i: nat, resource: string)
    requires i < |Run(cfg, n, ops).nodes| && Present(Run(cfg, n, ops), i, resource)
    requires var s, s' := Run(cfg, n, ops), Step(Run(cfg, n, ops), op);
      |s'.nodes| == |s.nodes| && (resource in s'.nodes[i] ==> s'.nodes[i][resource] != s.nodes[i][resource])
    ensures var s := Run(cfg, n, ops);
      && (op.Undo? || op.ReleaseOne?)
      && op.call in s.calls && s.calls[op.call].resource == resource
      && forall d :: d in s.calls ==> (s.calls[d].value == s.nodes[i][resource].value <==> d == op.call)
  {
    hide Drift, CallsOk, Exclusive;
    RunInv(cfg, n, ops);
  }
}
