/**
  The gate as a pure state machine: the simple form of soundgate/src/lib.rs that
  formal/verus/gate_model.rs gives, with whole runs, the exact invariant and the
  safety of every run.
 */
module GateModel {
  import opened Options
  import opened Texts

  type Run = Text
  type Id = (Text, Text)  // (run_id, effect_key)

  datatype Verdict = Release | HeldForApproval | RefusedCancelled | RefusedDuplicate | RefusedRejected

  datatype GateState = GateState(
    released: set<Id>,
    rejected: set<Id>,
    pending: set<Id>,
    cancelled: set<Run>,
    closed: set<Run>)
  {
    predicate Fenced(r: Run) { r in cancelled || r in closed }

    /** What a restart keeps: everything but the holds. */
    function Durable(): GateState { this.(pending := {}) }

    function Submit(id: Id, needsApproval: bool): (GateState, Verdict) {
      if Fenced(id.0) then (this, RefusedCancelled)
      else if id in released then (this, RefusedDuplicate)
      else if id in rejected then (this, RefusedRejected)
      else if id in pending then (this, HeldForApproval)
      else if needsApproval then (this.(pending := pending + {id}), HeldForApproval)
      else (this.(released := released + {id}), Release)
    }

    function Decide(id: Id, approved: bool): (GateState, Verdict) {
      if id in pending then
        var s := this.(pending := pending - {id});
        if s.Fenced(id.0) then (s, RefusedCancelled)
        else if approved then (s.(released := s.released + {id}), Release)
        else (s.(rejected := s.rejected + {id}), RefusedRejected)
      else if Fenced(id.0) then (this, RefusedCancelled)
      else if id in released then (this, RefusedDuplicate)
      else if !approved then (this.(rejected := rejected + {id}), RefusedRejected)
      else (this, RefusedDuplicate)
    }

    function Cancel(r: Run): GateState {
      this.(cancelled := cancelled + {r}, pending := Outside(pending, r))
    }

    function CloseRun(r: Run): GateState {
      GateState(Outside(released, r), Outside(rejected, r), Outside(pending, r), cancelled, closed + {r})
    }
  }

  /** The identities of `s` that belong to another run. */
  function Outside(s: set<Id>, r: Run): set<Id> { set id | id in s && id.0 != r }

  const EMPTY := GateState({}, {}, {}, {}, {})

  datatype Op =
    | Submit(id: Id, needsApproval: bool)
    | Decide(id: Id, approved: bool)
    | Cancel(run: Run)
    | CloseRun(run: Run)

  function Next(g: GateState, op: Op): GateState {
    match op
    case Submit(id, na) => g.Submit(id, na).0
    case Decide(id, ap) => g.Decide(id, ap).0
    case Cancel(r) => g.Cancel(r)
    case CloseRun(r) => g.CloseRun(r)
  }

  /** The verdict of a submit or a decide; a cancel and a close have none. */
  function VerdictOf(g: GateState, op: Op): Option<Verdict> {
    match op
    case Submit(id, na) => Some(g.Submit(id, na).1)
    case Decide(id, ap) => Some(g.Decide(id, ap).1)
    case _ => None
  }

  function After(g: GateState, ops: seq<Op>): GateState {
    if ops == [] then g else Next(After(g, ops[..|ops| - 1]), ops[|ops| - 1])
  }

  /** The verdict operation `i` of the run receives. */
  function VerdictAt(ops: seq<Op>, i: nat): Option<Verdict>
    requires i < |ops|
  {
    VerdictOf(After(EMPTY, ops[..i]), ops[i])
  }

  lemma {:induction false} AfterConcat(g: GateState, a: seq<Op>, b: seq<Op>)
    ensures After(g, a + b) == After(After(g, a), b)
    decreases |b|
  {
    if b == [] {
      assert a + b == a;
    } else {
      var m := |b| - 1;
      assert (a + b)[..|a + b| - 1] == a + b[..m];
      AfterConcat(g, a, b[..m]);
    }
  }

  // ---- The invariant, and exactly which states a run can reach ----

  ghost predicate Inv(g: GateState) {
    && g.released !! g.rejected                                                        // (I1)
    && g.pending !! g.released && g.pending !! g.rejected                              // (I2)
    && (forall id <- g.released + g.rejected + g.pending :: id.0 !in g.closed)         // (I3)
    && (forall id <- g.pending :: id.0 !in g.cancelled)                                // (I4)
  }

  lemma InvKept(g: GateState, op: Op)
    requires Inv(g)
    ensures Inv(Next(g, op))
  {
  }

  lemma {:induction false} InvAfter(g: GateState, ops: seq<Op>)
    requires Inv(g)
    ensures Inv(After(g, ops))
    decreases |ops|
  {
    if ops != [] {
      InvAfter(g, ops[..|ops| - 1]);
      InvKept(After(g, ops[..|ops| - 1]), ops[|ops| - 1]);
    }
  }

  ghost predicate Reachable(g: GateState) { exists ops :: After(EMPTY, ops) == g }

  function Size(g: GateState): nat {
    |g.released| + |g.rejected| + |g.pending| + |g.cancelled| + |g.closed|
  }

  lemma ReachableNext(g: GateState, op: Op)
    requires Reachable(g)
    ensures Reachable(Next(g, op))
  {
    var ops :| After(EMPTY, ops) == g;
    assert (ops + [op])[..|ops|] == ops;
    assert After(EMPTY, ops + [op]) == Next(g, op);
  }

  lemma OutsideAll(s: set<Id>, r: Run)
    requires forall id <- s :: id.0 != r
    ensures Outside(s, r) == s
  {
  }

  /** A close taken off a state that holds nothing of the run can be put back by one operation. */
  lemma UndoClose(g: GateState, r: Run)
    requires Inv(g) && r in g.closed
    ensures var before := g.(closed := g.closed - {r});
            Inv(before) && Size(before) < Size(g) && before.CloseRun(r) == g
  {
    OutsideAll(g.released, r);
    OutsideAll(g.rejected, r);
    OutsideAll(g.pending, r);
    assert g.closed - {r} + {r} == g.closed;
  }

  lemma UndoCancel(g: GateState, r: Run)
    requires Inv(g) && r in g.cancelled
    ensures var before := g.(cancelled := g.cancelled - {r});
            Inv(before) && Size(before) < Size(g) && before.Cancel(r) == g
  {
    OutsideAll(g.pending, r);
    assert g.cancelled - {r} + {r} == g.cancelled;
  }

  /** In a state without fences any one release, rejection or hold can be the last. */
  lemma UndoRelease(g: GateState, id: Id)
    requires Inv(g) && g.closed == g.cancelled == {} && id in g.released
    ensures var before := g.(released := g.released - {id});
            Inv(before) && Size(before) < Size(g) && before.Submit(id, false).0 == g
  {
    assert g.released - {id} + {id} == g.released;
  }

  lemma UndoRejection(g: GateState, id: Id)
    requires Inv(g) && g.closed == g.cancelled == {} && id in g.rejected
    ensures var before := g.(rejected := g.rejected - {id});
            Inv(before) && Size(before) < Size(g) && before.Decide(id, false).0 == g
  {
    assert g.rejected - {id} + {id} == g.rejected;
  }

  lemma UndoHold(g: GateState, id: Id)
    requires Inv(g) && g.closed == g.cancelled == {} && id in g.pending
    ensures var before := g.(pending := g.pending - {id});
            Inv(before) && Size(before) < Size(g) && before.Submit(id, true).0 == g
  {
    assert g.pending - {id} + {id} == g.pending;
  }

  /** Undoes one operation: the state it leaves is smaller, and one operation leads back. */
  lemma Undo(g: GateState) returns (before: GateState, op: Op)
    requires Inv(g) && g != EMPTY
    ensures Inv(before) && Size(before) < Size(g) && Next(before, op) == g
  {
    hide Inv;
    hide Size;
    if g.closed != {} {
      var r :| r in g.closed;
      UndoClose(g, r);
      before, op := g.(closed := g.closed - {r}), CloseRun(r);
    } else if g.cancelled != {} {
      var r :| r in g.cancelled;
      UndoCancel(g, r);
      before, op := g.(cancelled := g.cancelled - {r}), Cancel(r);
    } else if g.released != {} {
      var id :| id in g.released;
      UndoRelease(g, id);
      before, op := g.(released := g.released - {id}), Submit(id, false);
    } else if g.rejected != {} {
      var id :| id in g.rejected;
      UndoRejection(g, id);
      before, op := g.(rejected := g.rejected - {id}), Decide(id, false);
    } else {
      var id :| id in g.pending;
      UndoHold(g, id);
      before, op := g.(pending := g.pending - {id}), Submit(id, true);
    }
  }

  lemma {:induction false} InvReachable(g: GateState)
    requires Inv(g)
    ensures Reachable(g)
    decreases Size(g)
  {
    if g == EMPTY {
      assert After(EMPTY, []) == EMPTY;
    } else {
      var before, op := Undo(g);
      InvReachable(before);
      ReachableNext(before, op);
    }
  }

  /** The invariant is exact: it holds of the reachable states and of no others. */
  lemma ReachableExactly(g: GateState)
    ensures Reachable(g) <==> Inv(g)
  {
    if Reachable(g) {
      var ops :| After(EMPTY, ops) == g;
      InvAfter(EMPTY, ops);
    }
    if Inv(g) { InvReachable(g); }
  }

  /** The fence branch of `decide` after a hold was removed is never taken. */
  lemma HeldRunIsOpen(g: GateState, id: Id)
    requires Reachable(g) && id in g.pending
    ensures !g.Fenced(id.0)
    ensures forall ap :: g.Decide(id, ap).1 == (if ap then Release else RefusedRejected)
  {
    ReachableExactly(g);
  }

  // ---- Safety of every run ----

  /** No later operation can release `id`. */
  ghost predicate Settled(g: GateState, id: Id) {
    id in g.released || id in g.rejected || g.Fenced(id.0)
  }

  lemma SettledKept(g: GateState, op: Op, id: Id)
    requires Inv(g) && Settled(g, id)
    ensures Settled(Next(g, op), id)
    ensures Names(op, id) ==> VerdictOf(g, op) != Some(Release)
  {
  }

  predicate Names(op: Op, id: Id) { (op.Submit? || op.Decide?) && op.id == id }

  /** Operation `op`, answered `v`, is the last word on `id`. */
  predicate Settles(op: Op, v: Option<Verdict>, id: Id) {
    || (Names(op, id) && (v == Some(Release) || v == Some(RefusedRejected)))
    || ((op.Cancel? || op.CloseRun?) && op.run == id.0)
  }

  lemma SettlesNow(g: GateState, op: Op, id: Id)
    requires Inv(g) && Settles(op, VerdictOf(g, op), id)
    ensures Settled(Next(g, op), id)
  {
  }

  lemma LastOperation(ops: seq<Op>, j: nat)
    requires 0 < j <= |ops|
    ensures After(EMPTY, ops[..j]) == Next(After(EMPTY, ops[..j - 1]), ops[j - 1])
  {
    hide Next;
    assert ops[..j][..j - 1] == ops[..j - 1];
  }

  lemma {:induction false} SettledAfter(ops: seq<Op>, i: nat, j: nat, id: Id)
    requires i < j <= |ops| && Settles(ops[i], VerdictAt(ops, i), id)
    ensures Inv(After(EMPTY, ops[..j])) && Settled(After(EMPTY, ops[..j]), id)
    decreases j
  {
    InvEmpty();
    hide Inv;
    hide Settled;
    hide Settles;
    hide Next;
    hide After;
    hide VerdictOf;
    InvAfter(EMPTY, ops[..j - 1]);
    InvAfter(EMPTY, ops[..j]);
    LastOperation(ops, j);
    var g, op := After(EMPTY, ops[..j - 1]), ops[j - 1];
    if i < j - 1 {
      SettledAfter(ops, i, j - 1, id);
      SettledKept(g, op, id);
    } else {
      SettlesNow(g, op, id);
    }
  }

  lemma InvEmpty()
    ensures Inv(EMPTY)
  {
  }

  /**
    Over any run an identity is released at most once, even after `close_run` erased
    the released set, and never after its rejection, its run's cancel or its run's close.
   */
  lemma NoReleaseAfterSettling(ops: seq<Op>, i: nat, j: nat, id: Id)
    requires i < j < |ops|
    requires Settles(ops[i], VerdictAt(ops, i), id)
    requires Names(ops[j], id)
    ensures VerdictAt(ops, j) != Some(Release)
  {
    SettledAfter(ops, i, j, id);
    SettledKept(After(EMPTY, ops[..j]), ops[j], id);
  }

  ghost predicate HeldOrSettled(g: GateState, id: Id) { id in g.pending || Settled(g, id) }

  lemma HeldOrSettledKept(g: GateState, op: Op, id: Id)
    requires Inv(g)
    requires HeldOrSettled(g, id) || (Names(op, id) && VerdictOf(g, op) == Some(HeldForApproval))
    ensures HeldOrSettled(Next(g, op), id)
  {
    if Settled(g, id) { SettledKept(g, op, id); }
  }

  lemma {:induction false} HeldAfter(ops: seq<Op>, i: nat, j: nat, id: Id)
    requires i < j <= |ops| && Names(ops[i], id) && VerdictAt(ops, i) == Some(HeldForApproval)
    ensures var g := After(EMPTY, ops[..j]); Inv(g) && HeldOrSettled(g, id)
    decreases j
  {
    InvEmpty();
    hide Inv;
    hide HeldOrSettled;
    hide Next;
    hide After;
    hide VerdictOf;
    InvAfter(EMPTY, ops[..j - 1]);
    InvAfter(EMPTY, ops[..j]);
    LastOperation(ops, j);
    if i < j - 1 { HeldAfter(ops, i, j - 1, id); }
    HeldOrSettledKept(After(EMPTY, ops[..j - 1]), ops[j - 1], id);
  }

  /** Once held, an identity is released only by an approving decide, whatever is resubmitted. */
  lemma HeldNeedsApproval(ops: seq<Op>, i: nat, j: nat, id: Id)
    requires i < j < |ops|
    requires Names(ops[i], id) && VerdictAt(ops, i) == Some(HeldForApproval)
    requires Names(ops[j], id) && VerdictAt(ops, j) == Some(Release)
    ensures ops[j] == Decide(id, true)
  {
    HeldAfter(ops, i, j, id);
  }
}
