/** Exactly when Redlock excludes: a quorum that is no majority, or an expiry stamped
    later than it was measured, each admits a run with two overlapping locks. */
module RedlockLimits {
  import opened Redlock

  function Nodes(lo: nat, hi: nat): (r: set<nat>)
    ensures |r| == if lo <= hi then hi - lo else 0
    ensures forall i :: i in r <==> lo <= i < hi
    decreases hi
  {
    if lo >= hi then {} else Nodes(lo, hi - 1) + {hi - 1}
  }

  /** The SET NX loop of call c over the first k nodes, of which only lo..hi are reached. */
  function Sets(c: Call, k: nat, lo: nat, hi: nat, expires: Time): (ops: seq<Op>)
    ensures |ops| == k
  {
    if k == 0 then [] else Sets(c, k - 1, lo, hi, expires) + [SetNx(c, lo <= k - 1 < hi, true, expires)]
  }

  function Min(a: nat, b: nat): nat { if a <= b then a else b }

  /** The nodes once the loop has visited the first k of them. */
  function Written(nodes: seq<Node>, resource: string, e: Entry, k: nat, lo: nat, hi: nat): (r: seq<Node>)
    ensures |r| == |nodes|
  {
    seq(|nodes|, i requires 0 <= i < |nodes| => if lo <= i < hi && i < k then nodes[i][resource := e] else nodes[i])
  }

  lemma WrittenNext(nodes: seq<Node>, resource: string, e: Entry, k: nat, lo: nat, hi: nat)
    requires k < |nodes|
    ensures var r := Written(nodes, resource, e, k, lo, hi);
      && r[k] == nodes[k]
      && Written(nodes, resource, e, k + 1, lo, hi) == if lo <= k < hi then r[k := nodes[k][resource := e]] else r
  {
  }

  lemma NodesNext(k: nat, lo: nat, hi: nat)
    ensures Nodes(lo, Min(k + 1, hi)) == if lo <= k < hi then Nodes(lo, Min(k, hi)) + {k} else Nodes(lo, Min(k, hi))
  {
  }

  function Visited(s: Sys, c: Call, k: nat, lo: nat, hi: nat, expires: Time): Sys
    requires c in s.calls && s.calls[c].phase.Setting?
  {
    Set(s, c, s.calls[c].phase.(at := k, got := Nodes(lo, Min(k, hi))))
      .(nodes := Written(s.nodes, s.calls[c].resource, Entry(s.calls[c].value, expires), k, lo, hi))
  }

  lemma VisitOne(s: Sys, c: Call, k: nat, lo: nat, hi: nat, expires: Time)
    requires c in s.calls && s.calls[c].phase.Setting?
    requires k < |s.nodes| && NodeKeeps(s.cfg, s.clock, expires)
    requires lo <= k < hi ==> !Present(s, k, s.calls[c].resource)
    ensures Step(Visited(s, c, k, lo, hi, expires), SetNx(c, lo <= k < hi, true, expires))
         == Visited(s, c, k + 1, lo, hi, expires)
  {
    hide Drift, Written, Nodes, Min;
    WrittenNext(s.nodes, s.calls[c].resource, Entry(s.calls[c].value, expires), k, lo, hi);
    NodesNext(k, lo, hi);
  }

  lemma {:induction false} VisitAll(s: Sys, c: Call, k: nat, lo: nat, hi: nat, expires: Time)
    requires c in s.calls && s.calls[c].phase.Setting? && s.calls[c].phase.at == 0 && s.calls[c].phase.got == {}
    requires k <= |s.nodes| && NodeKeeps(s.cfg, s.clock, expires)
    requires forall i: nat :: lo <= i < hi ==> !Present(s, i, s.calls[c].resource)
    ensures Exec(s, Sets(c, k, lo, hi, expires)) == Visited(s, c, k, lo, hi, expires)
  {
    hide Step, Drift, Present;
    if k == 0 {
      VisitNone(s, c, lo, hi, expires);
    } else {
      hide Visited, Nodes, Written, Min;
      var ops := Sets(c, k, lo, hi, expires);
      assert ops[..|ops| - 1] == Sets(c, k - 1, lo, hi, expires);
      VisitAll(s, c, k - 1, lo, hi, expires);
      VisitOne(s, c, k - 1, lo, hi, expires);
    }
  }

  lemma VisitNone(s: Sys, c: Call, lo: nat, hi: nat, expires: Time)
    requires c in s.calls && s.calls[c].phase.Setting? && s.calls[c].phase.at == 0 && s.calls[c].phase.got == {}
    ensures Visited(s, c, 0, lo, hi, expires) == s
  {
    assert Written(s.nodes, s.calls[c].resource, Entry(s.calls[c].value, expires), 0, lo, hi) == s.nodes;
    assert s.calls == s.calls[c := s.calls[c]];
  }

  /** One whole attempt of a new call that reaches the nodes lo..hi, up to the measurement. */
  function Attempt(c: Call, resource: string, value: string, n: nat, lo: nat, hi: nat, expires: Time): seq<Op> {
    [Start(c, resource, value), Try(c)] + Sets(c, n, lo, hi, expires) + [Finish(c)]
  }

  /** The system once that attempt has won. */
  function Winning(s: Sys, c: Call, resource: string, value: string, lo: nat, hi: nat, expires: Time): Sys {
    s.(calls := s.calls[c := Acquire(resource, value, Stamping(Nodes(lo, hi), s.clock, s.clock))],
       nodes := Written(s.nodes, resource, Entry(value, expires), |s.nodes|, lo, hi))
  }

  /** Enough reachable nodes without the key in the way win. */
  lemma AttemptWins(s: Sys, c: Call, resource: string, value: string, lo: nat, hi: nat, expires: Time)
    requires c !in s.calls && forall d :: d in s.calls ==> s.calls[d].value != value
    requires s.cfg.retryCount > 0 && SureLife(s.cfg) > 0.0 && NodeKeeps(s.cfg, s.clock, expires)
    requires lo <= hi <= |s.nodes| && hi - lo >= s.cfg.quorum
    requires forall i: nat :: lo <= i < hi ==> !Present(s, i, resource)
    ensures Exec(s, Attempt(c, resource, value, |s.nodes|, lo, hi, expires)) == Winning(s, c, resource, value, lo, hi, expires)
  {
    hide Drift, Exec, Written, Step, Sets;
    var n := |s.nodes|;
    var begin, sets := [Start(c, resource, value), Try(c)], Sets(c, n, lo, hi, expires);
    var tried := s.(calls := s.calls[c := Acquire(resource, value, Setting(1, s.clock, 0, {}))]);
    BeginAttempt(s, c, resource, value);
    assert forall i: nat :: Present(tried, i, resource) ==> Present(s, i, resource);
    VisitAll(tried, c, n, lo, hi, expires);
    ExecConcat(s, begin, sets);
    ExecConcat(s, begin + sets, [Finish(c)]);
    FinishWins(s, c, resource, value, lo, hi, expires);
  }

  lemma BeginAttempt(s: Sys, c: Call, resource: string, value: string)
    requires c !in s.calls && forall d :: d in s.calls ==> s.calls[d].value != value
    requires s.cfg.retryCount > 0
    ensures Exec(s, [Start(c, resource, value), Try(c)])
         == s.(calls := s.calls[c := Acquire(resource, value, Setting(1, s.clock, 0, {}))])
  {
    hide Exec;
    TwoSteps(s, [Start(c, resource, value), Try(c)]);
  }

  lemma FinishWins(s: Sys, c: Call, resource: string, value: string, lo: nat, hi: nat, expires: Time)
    requires SureLife(s.cfg) > 0.0 && lo <= hi <= |s.nodes| && hi - lo >= s.cfg.quorum
    ensures var tried := s.(calls := s.calls[c := Acquire(resource, value, Setting(1, s.clock, 0, {}))]);
      Exec(Visited(tried, c, |s.nodes|, lo, hi, expires), [Finish(c)]) == Winning(s, c, resource, value, lo, hi, expires)
  {
    hide Drift, SureLife, Exec, Written, Nodes;
    DriftCoversNode(s.cfg, 0, 0);
    var tried := s.(calls := s.calls[c := Acquire(resource, value, Setting(1, s.clock, 0, {}))]);
    OneStep(Visited(tried, c, |s.nodes|, lo, hi, expires), Finish(c));
  }

  lemma TwoSteps(s: Sys, ops: seq<Op>)
    requires |ops| == 2
    ensures Exec(s, ops) == Step(Step(s, ops[0]), ops[1])
  {
    hide Step;
    assert ops == [ops[0]] + [ops[1]];
    ExecConcat(s, [ops[0]], [ops[1]]);
    OneStep(s, ops[0]);
    OneStep(Step(s, ops[0]), ops[1]);
  }

  // ---------- a quorum that is no majority ----------

  /** Two calls win on disjoint halves of the nodes at one instant. */
  lemma SplitQuorums(cfg: Config, n: nat) returns (ops: seq<Op>)
    requires 0 < cfg.quorum && 2 * cfg.quorum <= n && cfg.retryCount > 0 && SureLife(cfg) > 0.0
    ensures !Exclusive(Run(cfg, n, ops))
  {
    hide Drift, SureLife, Step, Written, Nodes, Exec, Present, Attempt;
    var s, q, expires := Init(cfg, n), cfg.quorum, cfg.ttl - Drift(cfg);
    DriftCoversNode(cfg, 0, expires);
    var first, second := Attempt(0, "r", "a", n, 0, q, expires), Attempt(1, "r", "b", n, q, 2 * q, expires);
    UntouchedAbove(cfg, n, q, expires);
    AttemptWins(s, 0, "r", "a", 0, q, expires);
    AttemptWins(Winning(s, 0, "r", "a", 0, q, expires), 1, "r", "b", q, 2 * q, expires);
    ops := first + second;
    ExecConcat(s, first, second);
    var t := Run(cfg, n, ops);
    assert !Apart(t.cfg, t.calls[0].phase, t.calls[1].phase);
  }

  lemma UntouchedAbove(cfg: Config, n: nat, q: nat, expires: Time)
    ensures forall i: nat :: !Present(Init(cfg, n), i, "r")
    ensures forall i: nat :: q <= i ==> !Present(Winning(Init(cfg, n), 0, "r", "a", 0, q, expires), i, "r")
  {
  }

  /** Every run of a manager excludes if and only if the quorum is a majority or the
      drift and rounding of the nodes may eat the whole TTL, so that no lock is ever granted. */
  lemma ExcludesIffMajority(cfg: Config, n: nat)
    requires 0 < cfg.quorum && cfg.retryCount > 0
    ensures (forall ops :: Exclusive(Run(cfg, n, ops))) <==> 2 * cfg.quorum > n || SureLife(cfg) <= 0.0
  {
    hide Exec, Drift, Exclusive;
    if 2 * cfg.quorum <= n && SureLife(cfg) > 0.0 {
      var ops := SplitQuorums(cfg, n);
    } else {
      forall ops ensures Exclusive(Run(cfg, n, ops)) {
        RunInv(cfg, n, ops);
        if SureLife(cfg) <= 0.0 { NobodyWins(Run(cfg, n, ops)); }
      }
    }
  }

  lemma NobodyWins(s: Sys)
    requires Inv(s) && SureLife(s.cfg) <= 0.0
    ensures Exclusive(s)
  {
    hide SureLife, Drift;
    DriftCoversNode(s.cfg, 0, 0);
    forall c | c in s.calls ensures !Won(s.calls[c].phase) {
      assert CallOk(s, s.calls[c]);
    }
  }

  // ---------- an expiry stamped late ----------

  /** No lock was stamped more than `lag` after its validity was measured. */
  ghost predicate LagsWithin(s: Sys, lag: nat) {
    forall c :: c in s.calls && s.calls[c].phase.Holding? ==> Lag(s.calls[c].phase) <= lag
  }

  /** No two rival locks claim one instant. */
  ghost predicate ClaimsApart(s: Sys) {
    forall c, d :: Rivals(s, c, d) ==>
      s.calls[c].phase.expiry <= s.calls[d].phase.acquired || s.calls[d].phase.expiry <= s.calls[c].phase.acquired
  }

  /** A won lock is stamped `lag` later, and then time passes until `now`. */
  function Late(c: Call, lag: nat, rest: nat): seq<Op> { [Tick(lag), Stamp(c)] + [Tick(rest)] }

  lemma LateState(s: Sys, c: Call, lag: nat, rest: nat)
    requires c in s.calls && s.calls[c].phase.Stamping?
    ensures Exec(s, Late(c, lag, rest))
         == Set(s, c, Stamped(s.cfg, s.calls[c].phase, s.clock + lag)).(clock := s.clock + lag + rest)
  {
    hide Exec, Stamped;
    TwoSteps(s, [Tick(lag), Stamp(c)]);
    ExecConcat(s, [Tick(lag), Stamp(c)], [Tick(rest)]);
    OneStep(Exec(s, [Tick(lag), Stamp(c)]), Tick(rest));
  }

  /** Keys all written to expire by now are in nobody's way. */
  lemma KeysExpired(s: Sys, resource: string, e: Entry, n: nat)
    requires s.nodes == Written(seq(n, _ => map[]), resource, e, n, 0, n) && e.expires <= s.clock
    ensures forall i: nat :: !Present(s, i, resource)
  {
  }

  /** Whatever the lag, some run has a second lock granted inside the first one's claim. */
  lemma LateStampOverlaps(cfg: Config, n: nat, lag: nat) returns (ops: seq<Op>)
    requires 0 < cfg.quorum <= n && cfg.retryCount > 0 && SureLife(cfg) > 0.0 && lag > 0
    ensures LagsWithin(Run(cfg, n, ops), lag) && !ClaimsApart(Run(cfg, n, ops))
  {
    hide Drift, SureLife, Step, Written, Nodes, Exec, Present, Attempt, Late;
    var s, T := Init(cfg, n), cfg.ttl - Drift(cfg);
    DriftCoversNode(cfg, 0, T);
    var rest := if lag < T then T - lag else 0;
    var now := lag + rest;
    var first, second := Attempt(0, "r", "a", n, 0, n, T), Attempt(1, "r", "b", n, 0, n, now + T);
    UntouchedAbove(cfg, n, n, T);
    AttemptWins(s, 0, "r", "a", 0, n, T);
    var won := Winning(s, 0, "r", "a", 0, n, T);
    LateState(won, 0, lag, rest);
    var s2 := Exec(won, Late(0, lag, rest));
    KeysExpired(s2, "r", Entry("a", T), n);
    AttemptWins(s2, 1, "r", "b", 0, n, now + T);
    var won' := Winning(s2, 1, "r", "b", 0, n, now + T);
    LateState(won', 1, 0, 0);
    ops := first + Late(0, lag, rest) + second + Late(1, 0, 0);
    ExecConcat(s, first, Late(0, lag, rest));
    ExecConcat(s, first + Late(0, lag, rest), second);
    ExecConcat(s, first + Late(0, lag, rest) + second, Late(1, 0, 0));
    assert Rivals(Run(cfg, n, ops), 0, 1);
  }

  /** Under a majority quorum the claimed windows are disjoint in every run if and only
      if no time passes between measuring the validity and stamping the expiry. */
  lemma ClaimsApartIffNoLag(cfg: Config, n: nat, lag: nat)
    requires 0 < cfg.quorum <= n < 2 * cfg.quorum && cfg.retryCount > 0 && SureLife(cfg) > 0.0
    ensures (forall ops :: LagsWithin(Run(cfg, n, ops), lag) ==> ClaimsApart(Run(cfg, n, ops))) <==> lag == 0
  {
    hide Exec, Drift;
    if lag > 0 {
      var ops := LateStampOverlaps(cfg, n, lag);
    } else {
      forall ops | LagsWithin(Run(cfg, n, ops), 0) ensures ClaimsApart(Run(cfg, n, ops)) {
        forall c, d | Rivals(Run(cfg, n, ops), c, d)
          ensures var p, q := Run(cfg, n, ops).calls[c].phase, Run(cfg, n, ops).calls[d].phase;
            p.expiry <= q.acquired || q.expiry <= p.acquired
        {
          MutualExclusion(cfg, n, ops, c, d);
        }
      }
    }
  }
}
