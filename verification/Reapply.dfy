/**
  Applying a batch again after a crash that kept the fences of part of it but not its
  holds: the gate ends in the same state as if there had been no crash.
 */
module Reapply {
  import opened Options
  import opened Texts
  import opened GateModel

  /** What `b` decided, `g` still decides, or has fenced. */
  ghost predicate Ahead(b: GateState, g: GateState) {
    && b.cancelled <= g.cancelled && b.closed <= g.closed
    && (forall id <- b.released :: id in g.released || id.0 in g.closed)
    && (forall id <- b.rejected :: id in g.rejected || id.0 in g.closed)
    && (forall id <- b.pending :: id in g.pending || Settled(g, id))
  }

  lemma {:induction false} RunsAhead(b: GateState, ops: seq<Op>)
    requires Inv(b)
    ensures Inv(After(b, ops)) && Ahead(b, After(b, ops))
    decreases |ops|
  {
    if ops != [] {
      var m := |ops| - 1;
      RunsAhead(b, ops[..m]);
      StaysAhead(b, After(b, ops[..m]), ops[m]);
    }
  }

  lemma StaysAhead(b: GateState, g: GateState, op: Op)
    requires Inv(g) && Ahead(b, g)
    ensures Inv(Next(g, op)) && Ahead(b, Next(g, op))
  {
    InvKept(g, op);
    forall id | Settled(g, id) ensures Settled(Next(g, op), id) { SettledKept(g, op, id); }
  }

  /** The durable state of `g` with those holds of `b` that are still holds in `g`. */
  function Merge(b: GateState, g: GateState): GateState { g.(pending := b.pending * g.pending) }

  /** An operation the later state `g` already saw changes nothing but holds. */
  lemma MergeNext(b: GateState, op: Op, g: GateState)
    requires Inv(b) && Inv(g) && Ahead(b, g) && Ahead(Next(b, op), g)
    ensures Next(Merge(b, g), op) == Merge(Next(b, op), g)
  {
    match op {
      case Submit(id, _) => MergeSubmit(b, op, g);
      case Decide(id, _) => MergeDecide(b, op, g);
      case Cancel(r) =>
        assert r in g.cancelled;
        assert g.cancelled + {r} == g.cancelled;
      case CloseRun(r) =>
        assert r in g.closed;
        assert g.closed + {r} == g.closed;
        assert Outside(g.released, r) == g.released && Outside(g.rejected, r) == g.rejected;
    }
  }

  lemma MergeSubmit(b: GateState, op: Op, g: GateState)
    requires Inv(b) && Inv(g) && Ahead(b, g) && Ahead(Next(b, op), g) && op.Submit?
    ensures Next(Merge(b, g), op) == Merge(Next(b, op), g)
  {
    var id := op.id;
    assert id in Next(b, op).released ==> id in g.released || id.0 in g.closed;
    assert id in Next(b, op).pending ==> id in g.pending || Settled(g, id);
    if !Settled(g, id) {
      assert (b.pending + {id}) * g.pending == b.pending * g.pending + {id};
    } else {
      assert (b.pending + {id}) * g.pending == b.pending * g.pending;
    }
  }

  lemma MergeDecide(b: GateState, op: Op, g: GateState)
    requires Inv(b) && Inv(g) && Ahead(b, g) && Ahead(Next(b, op), g) && op.Decide?
    ensures Next(Merge(b, g), op) == Merge(Next(b, op), g)
  {
    var id := op.id;
    assert id in Next(b, op).released ==> id in g.released || id.0 in g.closed;
    assert id in Next(b, op).rejected ==> id in g.rejected || id.0 in g.closed;
    assert id in g.rejected ==> g.rejected + {id} == g.rejected;
    if id in b.pending {
      assert id !in g.pending;
      assert (b.pending - {id}) * g.pending == b.pending * g.pending;
    }
  }

  /** Re-running the first part of what led to `g` only brings its holds back. */
  lemma {:induction false} RedoPrefix(start: GateState, ops: seq<Op>, k: nat, j: nat)
    requires Inv(start) && start.pending == {} && j <= k <= |ops|
    ensures var g := After(start, ops[..k]);
            After(g.Durable(), ops[..j]) == Merge(After(start, ops[..j]), g)
    decreases j
  {
    var g := After(start, ops[..k]);
    if j == 0 {
      assert start.pending * g.pending == {};
    } else {
      RedoPrefix(start, ops, k, j - 1);
      var b := After(start, ops[..j - 1]);
      assert ops[..j][..j - 1] == ops[..j - 1];
      assert ops[..k] == ops[..j - 1] + ops[j - 1..k] == ops[..j] + ops[j..k];
      AfterConcat(start, ops[..j - 1], ops[j - 1..k]);
      AfterConcat(start, ops[..j], ops[j..k]);
      InvAfter(start, ops[..j - 1]);
      InvAfter(start, ops[..j]);
      RunsAhead(b, ops[j - 1..k]);
      RunsAhead(Next(b, ops[j - 1]), ops[j..k]);
      MergeNext(b, ops[j - 1], g);
    }
  }

  /**
    With no hold pending at the checkpoint, restarting from the fences of the first `k`
    operations and applying all of them again gives the uninterrupted state, holds included.
   */
  lemma Redo(start: GateState, ops: seq<Op>, k: nat)
    requires Inv(start) && start.pending == {} && k <= |ops|
    ensures After(After(start, ops[..k]).Durable(), ops) == After(start, ops)
  {
    var g := After(start, ops[..k]);
    RedoPrefix(start, ops, k, k);
    assert Merge(g, g) == g;
    assert ops == ops[..k] + ops[k..];
    AfterConcat(start, ops[..k], ops[k..]);
    AfterConcat(g.Durable(), ops[..k], ops[k..]);
  }

  predicate Within(crashes: seq<nat>, n: nat) { forall i :: 0 <= i < |crashes| ==> crashes[i] <= n }

  /** The gate recovered after each of several attempts died at the given points. */
  function AfterCrashes(start: GateState, ops: seq<Op>, crashes: seq<nat>): GateState
    requires Within(crashes, |ops|)
  {
    if crashes == [] then start
    else
      var m := |crashes| - 1;
      After(AfterCrashes(start, ops, crashes[..m]), ops[..crashes[m]]).Durable()
  }

  /** The furthest any attempt got. */
  function Furthest(crashes: seq<nat>): nat {
    if crashes == [] then 0
    else
      var before := Furthest(crashes[..|crashes| - 1]);
      if crashes[|crashes| - 1] > before then crashes[|crashes| - 1] else before
  }

  /** Several attempts leave what the furthest one alone would have left. */
  lemma {:induction false} CrashesAddNothing(start: GateState, ops: seq<Op>, crashes: seq<nat>)
    requires Inv(start) && start.pending == {} && Within(crashes, |ops|)
    ensures Furthest(crashes) <= |ops|
    ensures AfterCrashes(start, ops, crashes) == After(start, ops[..Furthest(crashes)]).Durable()
    decreases |crashes|
  {
    if crashes == [] {
      assert start.Durable() == start;
    } else {
      var m := |crashes| - 1;
      CrashesAddNothing(start, ops, crashes[..m]);
      var k, c := Furthest(crashes[..m]), crashes[m];
      if c <= k {
        RedoPrefix(start, ops, k, c);
      } else {
        Redo(start, ops[..c], k);
        assert ops[..c][..k] == ops[..k];
      }
    }
  }

  /** However often the node dies while applying the batch, the batch has the effect of one clean run. */
  lemma RedoAfterCrashes(start: GateState, ops: seq<Op>, crashes: seq<nat>)
    requires Inv(start) && start.pending == {} && Within(crashes, |ops|)
    ensures After(AfterCrashes(start, ops, crashes), ops) == After(start, ops)
  {
    CrashesAddNothing(start, ops, crashes);
    Redo(start, ops, Furthest(crashes));
  }

  /** Restarting before operation `k` and redoing the batch leaves the uninterrupted durable state. */
  ghost predicate RedoSafe(start: GateState, ops: seq<Op>, k: nat)
    requires k <= |ops|
  {
    After(After(start, ops[..k]).Durable(), ops).Durable() == After(start, ops).Durable()
  }

  /** A hold pending at the checkpoint is lost with the crash; the approval that follows then releases nothing. */
  lemma PendingHoldIsLost(start: GateState, id: Id)
    requires Inv(start) && id in start.pending
    ensures !RedoSafe(start, [Decide(id, true)], 0)
  {
    var ops := [Decide(id, true)];
    assert ops[..0] == [];
    assert After(start, ops) == Next(start, ops[0]);
    assert After(start.Durable(), ops) == Next(start.Durable(), ops[0]);
    assert id in Next(start, ops[0]).released;
  }

  /** A checkpoint may be redone from, whatever batch follows, exactly when it has no hold pending. */
  lemma RedoSafeExactly(start: GateState)
    requires Inv(start)
    ensures (forall ops: seq<Op>, k: nat | k <= |ops| :: RedoSafe(start, ops, k)) <==> start.pending == {}
  {
    if start.pending == {} {
      forall ops: seq<Op>, k: nat | k <= |ops| ensures RedoSafe(start, ops, k) { Redo(start, ops, k); }
    } else {
      var id :| id in start.pending;
      PendingHoldIsLost(start, id);
    }
  }
}
