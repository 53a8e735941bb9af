/** Concurrent claims under SKIP LOCKED: the split claim behaves as one atomic
    claim of the best row that was free when it looked. */
module ClaimOrder {
  import opened Wrappers
  import opened Jobs
  import opened LeaseProtocol
  import opened LeaseInvariant
  import opened LeaseMoves
  import Backoff

  /** Statements with open selections hold pairwise distinct rows, in every run. */
  lemma DistinctSelections(e: Backoff.Engine, ops: seq<Op>, p: Session, q: Session)
    requires p in Run(e, ops).open && q in Run(e, ops).open && p != q
    ensures Run(e, ops).open[p].Ids() !! Run(e, ops).open[q].Ids()
  {
    RunInv(e, ops);
  }

  /** Operation k of the run is the select behind the open claim `sel` of q. */
  ghost predicate SelectedAt(e: Backoff.Engine, ops: seq<Op>, k: nat, q: Session, sel: Selection) {
    && sel.ClaimSel? && k < |ops|
    && ops[k] == ClaimSelect(q, sel.id, sel.filter, sel.lease)
    && ClaimSelectOk(At(e, ops, k), sel.id, sel.filter)
    && sel.claimed == At(e, ops, k).rows[sel.id] && sel.at == At(e, ops, k).clock
  }

  lemma OpenStep(s: Sys, op: Op, q: Session)
    requires q in Step(s, op).open
    ensures var sel := Step(s, op).open[q];
      || (q in s.open && s.open[q] == sel)
      || sel.ReapSel?
      || (op == ClaimSelect(q, sel.id, sel.filter, sel.lease) && ClaimSelectOk(s, sel.id, sel.filter)
          && sel.claimed == s.rows[sel.id] && sel.at == s.clock)
  {
    hide ClaimSelectOk, ReapSelectOk, PruneOk, EnqueuedRow, KeyTaken, FreshToken, Locked, Decide;
  }

  lemma {:induction false} SelectOrigin(e: Backoff.Engine, ops: seq<Op>, q: Session) returns (k: nat)
    requires q in Run(e, ops).open && Run(e, ops).open[q].ClaimSel?
    ensures SelectedAt(e, ops, k, q, Run(e, ops).open[q])
  {
    hide Step, ClaimSelectOk;
    var n := |ops| - 1;
    var s := Run(e, ops[..n]);
    OpenStep(s, ops[n], q);
    if q in s.open && s.open[q] == Run(e, ops).open[q] {
      k := SelectOrigin(e, ops[..n], q);
      assert ops[..n][..k] == ops[..k];
    } else {
      k := n;
    }
  }

  /** The claim succeeds: its session holds a row and its token is fresh. */
  predicate ClaimLands(s: Sys, q: Session, token: Token) {
    q in s.open && s.open[q].ClaimSel? && FreshToken(s, token)
  }

  /** Every claim that lands took effect as of its select: the row was then due,
      pending, unlocked and accepted by the filter, no other free row that was came
      before it in (priority descending, scheduled_at ascending, nulls last), and
      nothing has touched it since. */
  lemma ClaimIsAtomic(e: Backoff.Engine, ops: seq<Op>, i: nat, q: Session, token: Token) returns (k: nat)
    requires i < |ops| && ops[i] == ClaimUpdate(q, token) && ClaimLands(At(e, ops, i), q, token)
    ensures k < i && var sel := At(e, ops, i).open[q];
      && ops[k] == ClaimSelect(q, sel.id, sel.filter, sel.lease)
      && ClaimSelectOk(At(e, ops, k), sel.id, sel.filter)
      && sel.id in At(e, ops, i).rows && At(e, ops, i).rows[sel.id] == At(e, ops, k).rows[sel.id]
      && At(e, ops, i + 1).rows ==
           At(e, ops, i).rows[sel.id := Claimed(At(e, ops, k).rows[sel.id], At(e, ops, k).clock, sel.lease, token)]
  {
    hide Run, ClaimSelectOk, RowsOk, TokensOk, FailsOk, KafkaOk;
    RunInv(e, ops[..i]);
    AtStep(e, ops, i);
    ClaimRow(At(e, ops, i), q, token);
    k := SelectOrigin(e, ops[..i], q);
    assert ops[..i][..k] == ops[..k];
  }

  /** A claim never takes a job that somebody is running: it finds no token. */
  lemma ClaimTakesFreeRow(e: Backoff.Engine, ops: seq<Op>, i: nat, q: Session, token: Token)
    requires i < |ops| && ops[i] == ClaimUpdate(q, token) && ClaimLands(At(e, ops, i), q, token)
    ensures var s := At(e, ops, i);
      s.open[q].id in s.rows && s.rows[s.open[q].id].state == PENDING && s.rows[s.open[q].id].leaseToken.None?
  {
    hide Run, Step, TokensOk, FailsOk, KafkaOk;
    RunInv(e, ops[..i]);
    ClaimRow(At(e, ops, i), q, token);
    RowAt(At(e, ops, i), At(e, ops, i).open[q].id);
  }
}
