/** Fencing over whole runs: a lease token ends at most once and never comes back,
    so whoever still holds an ended token can change nothing. */
module Fencing {
  import opened Wrappers
  import opened Jobs
  import opened LeaseProtocol
  import opened LeaseInvariant
  import opened LeaseMoves
  import Backoff

  ghost predicate HeldOn(s: Sys, t: Token, id: JobId) {
    id in s.rows && s.rows[id].leaseToken == Some(t)
  }

  ghost predicate Held(s: Sys, t: Token) {
    exists id :: HeldOn(s, t, id)
  }

  // ---------- one step ----------

  /** A token appears on a row only by a claim that has just minted it. */
  lemma TokenOrigin(s: Sys, op: Op, t: Token, id: JobId)
    requires Inv(s) && !HeldOn(s, t, id) && HeldOn(Step(s, op), t, id)
    ensures t !in s.minted && (op.ClaimUpdate? || op.KafkaClaim?) && op.token == t
  {
    hide Step, RowsOk, TokensOk, OpenOk, FailsOk, KafkaOk;
    StepRow(s, op, id);
  }

  /** The five writes that end a claim. */
  ghost predicate EndsClaim(s: Sys, op: Op, t: Token, id: JobId) {
    || op == Complete(id, t)
    || (op.Release? && op.id == id && op.token == t)
    || (op.FailWrite? && op.call in s.fails && s.fails[op.call].id == id && s.fails[op.call].token == t)
    || (op.ReapUpdate? && op.session in s.open && s.open[op.session].ReapSel? && id in s.open[op.session].seen)
    || (op.Cancel? && op.id == id)
  }

  lemma EndKind(s: Sys, op: Op, t: Token, id: JobId)
    requires Inv(s) && HeldOn(s, t, id) && !HeldOn(Step(s, op), t, id)
    ensures EndsClaim(s, op, t, id)
  {
    hide Step, TokensOk, OpenOk, FailsOk, KafkaOk;
    StepRow(s, op, id);
    assert RowOk(s.rows[id], s.clock);
  }

  lemma MintedGrows(s: Sys, op: Op)
    ensures s.minted <= Step(s, op).minted
    ensures forall t :: t in Step(s, op).minted && t !in s.minted ==> Held(Step(s, op), t)
  {
    hide ClaimSelectOk, ReapSelectOk, PruneOk, EnqueuedRow, KeyTaken, Locked, Decide, Fenced, Cancellable, Requeueable;
    match op {
      case ClaimUpdate(q, token) =>
        if Step(s, op) != s { assert HeldOn(Step(s, op), token, s.open[q].id); }
      case KafkaClaim(c, token, lease) =>
        if c in s.deliveries && token in Step(s, op).minted && token !in s.minted {
          assert HeldOn(Step(s, op), token, s.deliveries[c].id);
        }
      case _ =>
    }
  }

  /** An ended token stays ended over one step. */
  lemma StaysEnded(s: Sys, op: Op, t: Token)
    requires Inv(s) && t in s.minted && !Held(s, t)
    ensures t in Step(s, op).minted && !Held(Step(s, op), t)
  {
    hide Step, RowsOk, TokensOk, OpenOk, FailsOk, KafkaOk;
    MintedGrows(s, op);
    if Held(Step(s, op), t) {
      var id :| HeldOn(Step(s, op), t, id);
      assert !HeldOn(s, t, id);
      TokenOrigin(s, op, t, id);
    }
  }

  // ---------- whole runs ----------

  /** Once a minted token is off every row, it is off for good. */
  lemma {:induction false} NeverReturns(e: Backoff.Engine, ops: seq<Op>, i: nat, j: nat, t: Token)
    requires i <= j <= |ops|
    requires t in At(e, ops, i).minted && !Held(At(e, ops, i), t)
    ensures t in At(e, ops, j).minted && !Held(At(e, ops, j), t)
    decreases j - i
  {
    hide Step, Run;
    if i < j {
      RunInv(e, ops[..i]);
      AtStep(e, ops, i);
      StaysEnded(At(e, ops, i), ops[i], t);
      NeverReturns(e, ops, i + 1, j, t);
    }
  }

  /** How many steps of a run take token t off its row. */
  ghost function Endings(e: Backoff.Engine, ops: seq<Op>, t: Token): nat {
    if ops == [] then 0
    else
      var before := ops[..|ops| - 1];
      Endings(e, before, t) + if Held(Run(e, before), t) && !Held(Run(e, ops), t) then 1 else 0
  }

  /** In every run every token has at most one claim-ending write. */
  lemma {:induction false} AtMostOneEnding(e: Backoff.Engine, ops: seq<Op>, t: Token)
    ensures Endings(e, ops, t) <= 1
    ensures Held(Run(e, ops), t) ==> Endings(e, ops, t) == 0 && t in Run(e, ops).minted
    ensures t !in Run(e, ops).minted ==> Endings(e, ops, t) == 0
  {
    hide Step, RowsOk, OpenOk, FailsOk, KafkaOk;
    RunInv(e, ops);
    if ops != [] {
      var before, op := ops[..|ops| - 1], ops[|ops| - 1];
      AtMostOneEnding(e, before, t);
      RunInv(e, before);
      var s := Run(e, before);
      MintedGrows(s, op);
      if t in s.minted && !Held(s, t) { StaysEnded(s, op, t); }
    }
  }

  /** A token is only ever on one row. */
  lemma {:induction false} OneRowPerToken(e: Backoff.Engine, ops: seq<Op>, i: nat, j: nat, t: Token, id: JobId, other: JobId)
    requires i <= j <= |ops|
    requires HeldOn(At(e, ops, i), t, id) && HeldOn(At(e, ops, j), t, other)
    ensures id == other
    decreases j - i
  {
    hide Step, Run, RowsOk, OpenOk, FailsOk, KafkaOk;
    RunInv(e, ops[..i]);
    if i < j {
      AtStep(e, ops, i);
      RunInv(e, ops[..i + 1]);
      var s, s' := At(e, ops, i), At(e, ops, i + 1);
      MintedGrows(s, ops[i]);
      if !Held(s', t) { NeverReturns(e, ops, i + 1, j, t); }
      var now :| HeldOn(s', t, now);
      if now != id { TokenOrigin(s, ops[i], t, now); }
      OneRowPerToken(e, ops, i + 1, j, t, id, other);
    }
  }

  /** The statements that act in the name of a token. */
  ghost predicate Presents(s: Sys, op: Op, t: Token) {
    || (op.Renew? && op.token == t)
    || (op.Complete? && op.token == t)
    || (op.Release? && op.token == t)
    || (op.FailWrite? && op.call in s.fails && s.fails[op.call].token == t)
  }

  lemma OffTokenPowerless(s: Sys, op: Op, t: Token)
    requires !Held(s, t) && Presents(s, op, t)
    ensures Step(s, op).rows == s.rows
  {
    forall id | id in s.rows ensures !Fenced(s.rows[id], t) {
      assert !HeldOn(s, t, id);
    }
  }

  /** After a token has ended, every renew, complete, fail or release that presents
      it leaves the whole table as it was, however much later it arrives. */
  lemma StaleTokenPowerless(e: Backoff.Engine, ops: seq<Op>, i: nat, j: nat, t: Token)
    requires i <= j < |ops|
    requires t in At(e, ops, i).minted && !Held(At(e, ops, i), t)
    requires Presents(At(e, ops, j), ops[j], t)
    ensures At(e, ops, j + 1).rows == At(e, ops, j).rows
  {
    hide Step, Run;
    NeverReturns(e, ops, i, j, t);
    OffTokenPowerless(At(e, ops, j), ops[j], t);
    AtStep(e, ops, j);
  }
}
