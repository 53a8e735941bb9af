/** The circuit breaker: the object that a worker asks before each execution, and what
    its answers come to over whole runs. */
module Breaker {
  import opened Durations

  datatype State = Closed | Open | HalfOpen

  datatype Config = Config(failureThreshold: int, successThreshold: int, openTimeout: int, halfOpenRequests: int)

  function Normalised(cfg: Config): (c: Config)
    ensures Positive(c) && (Positive(cfg) ==> c == cfg)
    ensures c.failureThreshold == if cfg.failureThreshold > 0 then cfg.failureThreshold else 5
    ensures c.successThreshold == if cfg.successThreshold > 0 then cfg.successThreshold else 2
    ensures c.openTimeout == if cfg.openTimeout > 0 then cfg.openTimeout else 60_000 * MILLISECOND
    ensures c.halfOpenRequests == if cfg.halfOpenRequests > 0 then cfg.halfOpenRequests else 1
  {
    Config(
      if cfg.failureThreshold <= 0 then 5 else cfg.failureThreshold,
      if cfg.successThreshold <= 0 then 2 else cfg.successThreshold,
      if cfg.openTimeout <= 0 then 60 * SECOND else cfg.openTimeout,
      if cfg.halfOpenRequests <= 0 then 1 else cfg.halfOpenRequests)
  }

  predicate Positive(cfg: Config) {
    cfg.failureThreshold > 0 && cfg.successThreshold > 0 && cfg.openTimeout > 0 && cfg.halfOpenRequests > 0
  }

  /** What the breaker remembers. */
  datatype Fields = Fields(state: State, failures: int, successes: int, openedAt: int)

  predicate Allows(cfg: Config, b: Fields, now: int) {
    match b.state
    case Closed => true
    case Open => now - b.openedAt >= cfg.openTimeout
    case HalfOpen => b.successes < cfg.halfOpenRequests
  }

  function AfterAllow(cfg: Config, b: Fields, now: int): Fields {
    if b.state == Open && Allows(cfg, b, now) then b.(state := HalfOpen, failures := 0, successes := 0) else b
  }

  function AfterSuccess(cfg: Config, b: Fields): Fields {
    match b.state
    case HalfOpen =>
      if b.successes + 1 >= cfg.successThreshold then b.(state := Closed, failures := 0, successes := 0)
      else b.(successes := b.successes + 1)
    case Closed => b.(failures := 0)
    case Open => b
  }

  function AfterFailure(cfg: Config, b: Fields, now: int): Fields {
    match b.state
    case Closed =>
      if b.failures + 1 >= cfg.failureThreshold then b.(state := Open, failures := b.failures + 1, openedAt := now)
      else b.(failures := b.failures + 1)
    case HalfOpen => Fields(Open, 0, 0, now)
    case Open => b
  }

  class CircuitBreaker {
    const cfg: Config
    var state: State
    var failures: int
    var successes: int
    var openedAt: int

    constructor (cfg: Config)
      ensures this.cfg == Normalised(cfg) && Value() == Fields(Closed, 0, 0, 0)
    {
      this.cfg := Normalised(cfg);
      state, failures, successes, openedAt := Closed, 0, 0, 0;
    }

    function Value(): Fields
      reads this
    {
      Fields(state, failures, successes, openedAt)
    }

    method Allow(now: int) returns (ok: bool)
      modifies this
      ensures ok == Allows(cfg, old(Value()), now) && Value() == AfterAllow(cfg, old(Value()), now)
    {
      match state
      case Closed => return true;
      case Open =>
        if now - openedAt >= cfg.openTimeout {
          state, failures, successes := HalfOpen, 0, 0;
          return true;
        }
        return false;
      case HalfOpen => return successes < cfg.halfOpenRequests;
    }

    method RecordSuccess()
      modifies this
      ensures Value() == AfterSuccess(cfg, old(Value()))
    {
      match state
      case HalfOpen =>
        successes := successes + 1;
        if successes >= cfg.successThreshold {
          state, failures, successes := Closed, 0, 0;
        }
      case Closed => failures := 0;
      case Open =>
    }

    method RecordFailure(now: int)
      modifies this
      ensures Value() == AfterFailure(cfg, old(Value()), now)
    {
      match state
      case Closed =>
        failures := failures + 1;
        if failures >= cfg.failureThreshold {
          state, openedAt := Open, now;
        }
      case HalfOpen =>
        state, openedAt, failures, successes := Open, now, 0, 0;
      case Open =>
    }
  }

  // ---------- runs ----------

  /** `running` counts allowed executions that have not reported. A report needs one; an
      execution may also end unreported. */
  datatype Sys = Sys(b: Fields, clock: int, running: nat)

  datatype Op = Wait(elapsed: nat) | Allow | Success | Failure | Drop

  function Step(cfg: Config, s: Sys, op: Op): Sys {
    match op
    case Wait(elapsed) => s.(clock := s.clock + elapsed)
    case Allow =>
      s.(b := AfterAllow(cfg, s.b, s.clock), running := if Allows(cfg, s.b, s.clock) then s.running + 1 else s.running)
    case Success => if s.running > 0 then s.(b := AfterSuccess(cfg, s.b), running := s.running - 1) else s
    case Failure => if s.running > 0 then s.(b := AfterFailure(cfg, s.b, s.clock), running := s.running - 1) else s
    case Drop => if s.running > 0 then s.(running := s.running - 1) else s
  }

  function Exec(cfg: Config, s: Sys, ops: seq<Op>): Sys {
    if ops == [] then s else Step(cfg, Exec(cfg, s, ops[..|ops| - 1]), ops[|ops| - 1])
  }

  const START := Sys(Fields(Closed, 0, 0, 0), 0, 0)

  /** The system before the i-th step. */
  function At(cfg: Config, ops: seq<Op>, i: nat): Sys
    requires i <= |ops|
  {
    Exec(cfg, START, ops[..i])
  }

  lemma AtStep(cfg: Config, ops: seq<Op>, i: nat)
    requires i < |ops|
    ensures At(cfg, ops, i + 1) == Step(cfg, At(cfg, ops, i), ops[i])
  {
    assert ops[..i + 1][..i] == ops[..i];
  }

  lemma {:induction false} ExecConcat(cfg: Config, s: Sys, a: seq<Op>, b: seq<Op>)
    ensures Exec(cfg, s, a + b) == Exec(cfg, Exec(cfg, s, a), b)
  {
    hide Step;
    if b == [] {
      assert a + b == a;
    } else {
      var m := |b| - 1;
      assert (a + b)[..|a + b| - 1] == a + b[..m];
      ExecConcat(cfg, s, a, b[..m]);
    }
  }

  predicate Inv(cfg: Config, b: Fields) {
    && (b.state == Closed ==> 0 <= b.failures < cfg.failureThreshold)
    && (b.state == HalfOpen ==> 0 <= b.successes < cfg.successThreshold)
  }

  lemma {:induction false} RunInv(cfg: Config, ops: seq<Op>)
    requires Positive(cfg)
    ensures Inv(cfg, Exec(cfg, START, ops).b)
  {
    if ops != [] { RunInv(cfg, ops[..|ops| - 1]); }
  }

  // ---------- what opens it ----------

  /** A failure report that some execution stood behind, from step j up to step i. */
  function Failures(cfg: Config, ops: seq<Op>, j: nat, i: nat): (n: nat)
    requires j <= i <= |ops|
    decreases i
  {
    if i == j then 0
    else Failures(cfg, ops, j, i - 1) + if ops[i - 1].Failure? && At(cfg, ops, i - 1).running > 0 then 1 else 0
  }

  /** From step j up to step i the breaker stayed closed and nobody reported success. */
  ghost predicate Unbroken(cfg: Config, ops: seq<Op>, j: nat, i: nat) {
    && j <= i <= |ops|
    && (forall k :: j <= k <= i ==> At(cfg, ops, k).b.state == Closed)
    && (forall k :: j <= k < i ==> !(ops[k].Success? && At(cfg, ops, k).running > 0))
  }

  /** A closed breaker's failure count is the number of failures in an unbroken stretch
      that reaches back to the start, to a success or to a state other than closed. */
  lemma {:induction false} ClosedStretch(cfg: Config, ops: seq<Op>, i: nat) returns (j: nat)
    requires Positive(cfg) && i <= |ops| && At(cfg, ops, i).b.state == Closed
    ensures Unbroken(cfg, ops, j, i) && Failures(cfg, ops, j, i) == At(cfg, ops, i).b.failures
    ensures j == 0 || !Unbroken(cfg, ops, j - 1, i)
  {
    hide Exec;
    if i == 0 {
      assert ops[..0] == [];
      ExecNothing(cfg, START);
      return 0;
    }
    AtStep(cfg, ops, i - 1);
    var s := At(cfg, ops, i - 1);
    if s.b.state != Closed || (ops[i - 1].Success? && s.running > 0) {
      return i;
    }
    j := ClosedStretch(cfg, ops, i - 1);
    assert j > 0 ==> !Unbroken(cfg, ops, j - 1, i - 1);
  }

  /** Open is entered only by a failure report, made half-open or as the last of exactly
      FailureThreshold failures in one unbroken closed stretch. */
  lemma OpensOnlyAfterFailures(cfg: Config, ops: seq<Op>, i: nat) returns (j: nat)
    requires Positive(cfg) && i < |ops|
    requires At(cfg, ops, i).b.state != Open && At(cfg, ops, i + 1).b.state == Open
    ensures ops[i].Failure? && At(cfg, ops, i).running > 0 && At(cfg, ops, i + 1).b.openedAt == At(cfg, ops, i).clock
    ensures At(cfg, ops, i).b.state == HalfOpen
         || (Unbroken(cfg, ops, j, i) && Failures(cfg, ops, j, i + 1) == cfg.failureThreshold)
  {
    hide Exec;
    AtStep(cfg, ops, i);
    RunInv(cfg, ops[..i]);
    j := 0;
    if At(cfg, ops, i).b.state == Closed { j := ClosedStretch(cfg, ops, i); }
  }

  /** It never stays closed through that many: every such stretch has opened it. */
  lemma ThresholdOpens(cfg: Config, ops: seq<Op>, j: nat, i: nat)
    requires Positive(cfg) && Unbroken(cfg, ops, j, i)
    ensures Failures(cfg, ops, j, i) < cfg.failureThreshold
  {
    RunInv(cfg, ops[..i]);
    FailuresCounted(cfg, ops, j, i);
  }

  lemma {:induction false} FailuresCounted(cfg: Config, ops: seq<Op>, j: nat, i: nat)
    requires Positive(cfg) && Unbroken(cfg, ops, j, i)
    ensures Failures(cfg, ops, j, i) <= At(cfg, ops, i).b.failures
    decreases i
  {
    hide Exec;
    if i == j {
      RunInv(cfg, ops[..i]);
    } else {
      FailuresCounted(cfg, ops, j, i - 1);
      AtStep(cfg, ops, i - 1);
    }
  }

  // ---------- what it refuses ----------

  /** Once open, until the timeout has passed the breaker stays open, remembers when, and
      refuses every Allow. */
  lemma {:induction false} OpenRefuses(cfg: Config, ops: seq<Op>, i: nat, k: nat)
    requires Positive(cfg) && i <= k <= |ops| && At(cfg, ops, i).b.state == Open
    requires At(cfg, ops, k).clock < At(cfg, ops, i).b.openedAt + cfg.openTimeout
    ensures At(cfg, ops, k).b == At(cfg, ops, i).b && !Allows(cfg, At(cfg, ops, k).b, At(cfg, ops, k).clock)
    ensures At(cfg, ops, k).running <= At(cfg, ops, i).running
    decreases k
  {
    hide Exec;
    if i < k {
      AtStep(cfg, ops, k - 1);
      OpenRefuses(cfg, ops, i, k - 1);
    }
  }

  // ---------- recovery ----------

  predicate Stuck(cfg: Config, s: Sys) {
    s.b.state == HalfOpen && s.b.successes >= cfg.halfOpenRequests && s.running == 0
  }

  /** A stuck breaker refuses everything for ever. */
  lemma {:induction false} StuckForever(cfg: Config, s: Sys, more: seq<Op>)
    requires Stuck(cfg, s)
    ensures Stuck(cfg, Exec(cfg, s, more))
  {
    if more != [] { StuckForever(cfg, s, more[..|more| - 1]); }
  }

  function Repeat(op: Op, n: nat): (ops: seq<Op>)
    ensures |ops| == n && forall i :: 0 <= i < n ==> ops[i] == op
  {
    seq(n, _ => op)
  }

  lemma {:induction false} Probe(cfg: Config, s: Sys, n: nat)
    requires s.b.state == HalfOpen && s.b.successes < cfg.halfOpenRequests
    ensures Exec(cfg, s, Repeat(Allow, n)) == s.(running := s.running + n)
  {
    if n > 0 {
      assert Repeat(Allow, n)[..n - 1] == Repeat(Allow, n - 1);
      Probe(cfg, s, n - 1);
    }
  }

  lemma {:induction false} Succeed(cfg: Config, s: Sys, n: nat)
    requires s.b.state == HalfOpen && s.running >= n && s.b.successes + n < cfg.successThreshold
    ensures Exec(cfg, s, Repeat(Success, n)) == s.(b := s.b.(successes := s.b.successes + n), running := s.running - n)
  {
    if n > 0 {
      assert Repeat(Success, n)[..n - 1] == Repeat(Success, n - 1);
      Succeed(cfg, s, n - 1);
    }
  }

  predicate Gentle(ops: seq<Op>) { forall i :: 0 <= i < |ops| ==> ops[i].Wait? || ops[i].Allow? || ops[i].Success? }

  /** Probing and succeeding closes a half-open breaker that still allows probes. */
  lemma ProbeCloses(cfg: Config, s: Sys) returns (more: seq<Op>)
    requires Inv(cfg, s.b) && s.b.state == HalfOpen && s.b.successes < cfg.halfOpenRequests
    ensures Gentle(more) && Exec(cfg, s, more).b.state == Closed
  {
    var n := cfg.successThreshold - s.b.successes;
    var probes, wins := Repeat(Allow, n), Repeat(Success, n - 1);
    more := probes + wins + [Success];
    Probe(cfg, s, n);
    Succeed(cfg, s.(running := s.running + n), n - 1);
    ExecConcat(cfg, s, probes, wins);
    assert more[..|more| - 1] == probes + wins;
  }

  lemma WaitAndAllow(cfg: Config, s: Sys)
    requires s.b.state == Open && Positive(cfg)
    ensures var wait := if s.clock < s.b.openedAt then s.b.openedAt - s.clock else 0;
      var t := Exec(cfg, s, [Wait(wait + cfg.openTimeout), Allow]);
      t.b.state == HalfOpen && t.b.successes == 0
  {
    var wait := if s.clock < s.b.openedAt then s.b.openedAt - s.clock else 0;
    var ops := [Wait(wait + cfg.openTimeout), Allow];
    assert ops[..1] == [ops[0]] && [ops[0]][..0] == [];
    assert Exec(cfg, s, ops[..1]) == Step(cfg, Exec(cfg, s, []), ops[0]);
    assert Exec(cfg, s, ops) == Step(cfg, Exec(cfg, s, ops[..1]), ops[1]);
  }

  /** Every state whose half-open quota is not used up recovers by waiting, asking and
      succeeding. */
  lemma Recover(cfg: Config, s: Sys) returns (more: seq<Op>)
    requires Positive(cfg) && Inv(cfg, s.b)
    requires s.b.state == HalfOpen ==> s.b.successes < cfg.halfOpenRequests
    ensures Gentle(more) && Exec(cfg, s, more).b.state == Closed
  {
    hide Exec;
    match s.b.state
    case Closed =>
      more := [];
      ExecNothing(cfg, s);
    case HalfOpen => more := ProbeCloses(cfg, s);
    case Open =>
      var wait := if s.clock < s.b.openedAt then s.b.openedAt - s.clock else 0;
      WaitAndAllow(cfg, s);
      var ops := [Wait(wait + cfg.openTimeout), Allow];
      var rest := ProbeCloses(cfg, Exec(cfg, s, ops));
      ExecConcat(cfg, s, ops, rest);
      more := ops + rest;
  }

  lemma ExecNothing(cfg: Config, s: Sys)
    ensures Exec(cfg, s, []) == s
  {
  }

  /** A reachable state has some way back to closed if and only if it is not stuck. */
  lemma RecoverableIffNotStuck(cfg: Config, ops: seq<Op>)
    requires Positive(cfg)
    ensures (exists more :: Exec(cfg, START, ops + more).b.state == Closed) <==> !Stuck(cfg, Exec(cfg, START, ops))
  {
    hide Exec, Step;
    var s := Exec(cfg, START, ops);
    forall more ensures Exec(cfg, START, ops + more) == Exec(cfg, s, more) { ExecConcat(cfg, START, ops, more); }
    RunInv(cfg, ops);
    if Stuck(cfg, s) {
      forall more ensures Exec(cfg, START, ops + more).b.state != Closed { StuckForever(cfg, s, more); }
    } else if s.b.state == HalfOpen && s.b.successes >= cfg.halfOpenRequests {
      var t := Exec(cfg, s, [Failure]);
      FailOnce(cfg, s);
      var rest := Recover(cfg, t);
      ExecConcat(cfg, s, [Failure], rest);
      assert Exec(cfg, START, ops + ([Failure] + rest)).b.state == Closed;
    } else {
      var more := Recover(cfg, s);
      assert Exec(cfg, START, ops + more).b.state == Closed;
    }
  }

  lemma FailOnce(cfg: Config, s: Sys)
    requires s.b.state == HalfOpen && s.running > 0
    ensures Exec(cfg, s, [Failure]).b.state == Open
  {
    assert [Failure][..0] == [];
  }

  /** The continuation uses only waiting, Allow and RecordSuccess and ends closed. */
  predicate Recovers(cfg: Config, ops: seq<Op>, more: seq<Op>) {
    Gentle(more) && Exec(cfg, START, ops + more).b.state == Closed
  }

  ghost predicate Recoverable(cfg: Config, ops: seq<Op>) { exists more :: Recovers(cfg, ops, more) }

  /** Every reachable state recovers if and only if HalfOpenRequests >= SuccessThreshold. */
  lemma RecoveryIff(cfg: Config)
    requires Positive(cfg)
    ensures (forall ops :: Recoverable(cfg, ops)) <==> cfg.halfOpenRequests >= cfg.successThreshold
  {
    hide Exec, Step, Stuck;
    if cfg.halfOpenRequests >= cfg.successThreshold {
      forall ops ensures Recoverable(cfg, ops) {
        RunInv(cfg, ops);
        var more := Recover(cfg, Exec(cfg, START, ops));
        ExecConcat(cfg, START, ops, more);
        assert Recovers(cfg, ops, more);
      }
    } else {
      var ops := ReachStuck(cfg);
      RecoverableIffNotStuck(cfg, ops);
      assert !Recoverable(cfg, ops);
    }
  }

  // ---------- reaching the stuck state ----------

  function Pairs(op: Op, n: nat): (ops: seq<Op>) {
    if n == 0 then [] else Pairs(op, n - 1) + [Allow, op]
  }

  lemma {:induction false} FailPairs(cfg: Config, n: nat)
    requires Positive(cfg) && n <= cfg.failureThreshold
    ensures Exec(cfg, START, Pairs(Failure, n))
         == Sys(Fields(if n == cfg.failureThreshold then Open else Closed, n, 0, 0), 0, 0)
  {
    if n > 0 {
      FailPairs(cfg, n - 1);
      OnePair(cfg, START, Pairs(Failure, n - 1), Failure);
    }
  }

  lemma OnePair(cfg: Config, s: Sys, before: seq<Op>, op: Op)
    ensures Exec(cfg, s, before + [Allow, op]) == Step(cfg, Step(cfg, Exec(cfg, s, before), Allow), op)
  {
    hide Step;
    var ops := before + [Allow, op];
    assert ops[..|ops| - 1] == before + [Allow];
    assert (before + [Allow])[..|before|] == before;
  }

  /** With HalfOpenRequests below SuccessThreshold, failures that open the breaker and
      then as many successes as it allows probes leave it stuck. */
  lemma ReachStuck(cfg: Config) returns (ops: seq<Op>)
    requires Positive(cfg) && cfg.halfOpenRequests < cfg.successThreshold
    ensures Stuck(cfg, Exec(cfg, START, ops))
  {
    hide Exec;
    var h := cfg.halfOpenRequests;
    var fail, half := Pairs(Failure, cfg.failureThreshold), [Wait(cfg.openTimeout), Allow];
    FailPairs(cfg, cfg.failureThreshold);
    var tripped := Exec(cfg, START, fail);
    OnePairWait(cfg, tripped);
    var s := Exec(cfg, tripped, half + [Success]);
    ops := fail + (half + [Success]);
    ExecConcat(cfg, START, fail, half + [Success]);
    var rest := Pairs(Success, h - 1);
    MorePairs(cfg, s, h - 1);
    ExecConcat(cfg, START, ops, rest);
    ops := ops + rest;
  }

  lemma OnePairWait(cfg: Config, s: Sys)
    requires Positive(cfg) && s.b.state == Open && s.b.openedAt == s.clock && s.running == 0 && cfg.successThreshold > 1
    ensures var t := Exec(cfg, s, [Wait(cfg.openTimeout), Allow] + [Success]);
      t.b.state == HalfOpen && t.b.successes == 1 && t.running == 0
  {
    var ops := [Wait(cfg.openTimeout), Allow] + [Success];
    assert ops == [Wait(cfg.openTimeout)] + [Allow, Success];
    OnePair(cfg, s, [Wait(cfg.openTimeout)], Success);
    assert [Wait(cfg.openTimeout)][..0] == [];
  }

  lemma {:induction false} MorePairs(cfg: Config, s: Sys, n: nat)
    requires s.b.state == HalfOpen && s.b.successes == 1 && s.running == 0
    requires n + 1 < cfg.successThreshold && n + 1 <= cfg.halfOpenRequests
    ensures Exec(cfg, s, Pairs(Success, n)) == s.(b := s.b.(successes := n + 1))
  {
    if n > 0 {
      MorePairs(cfg, s, n - 1);
      OnePair(cfg, s, Pairs(Success, n - 1), Success);
    }
  }

  /** The server's own settings, one half-open request and two successes, can get stuck. */
  lemma ServerSettingsStick() returns (ops: seq<Op>)
    ensures var cfg := Normalised(Config(5, 2, 30 * SECOND, 1));
      Stuck(cfg, Exec(cfg, START, ops)) && forall more :: Exec(cfg, START, ops + more).b.state != Closed
  {
    hide Exec;
    var cfg := Normalised(Config(5, 2, 30 * SECOND, 1));
    ops := ReachStuck(cfg);
    RecoverableIffNotStuck(cfg, ops);
  }
}
