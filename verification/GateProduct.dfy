/**
  The gate is a product of independent automata, one for each identity: what an
  identity is told depends only on the operations that name it and on the cancels
  and closes of its run.
 */
module GateProduct {
  import opened Options
  import opened Texts
  import opened GateModel

  datatype Phase = Fresh | Held | Released | Rejected

  /** All that one identity's automaton remembers. */
  datatype Cell = Cell(phase: Phase, cancelled: bool, closed: bool) {
    predicate Fenced() { cancelled || closed }
  }

  const START := Cell(Fresh, false, false)

  function CellNext(c: Cell, op: Op): Cell {
    match op
    case Submit(_, needsApproval) =>
      if c.Fenced() || c.phase != Fresh then c
      else c.(phase := if needsApproval then Held else Released)
    case Decide(_, approved) =>
      if c.Fenced() then c
      else if c.phase == Held && approved then c.(phase := Released)
      else if c.phase != Released && !approved then c.(phase := Rejected)
      else c
    case Cancel(_) => c.(phase := if c.phase == Held then Fresh else c.phase, cancelled := true)
    case CloseRun(_) => c.(phase := Fresh, closed := true)
  }

  function CellVerdict(c: Cell, op: Op): Verdict
    requires op.Submit? || op.Decide?
  {
    if c.Fenced() then RefusedCancelled
    else if c.phase == Released then RefusedDuplicate
    else match op
      case Submit(_, needsApproval) =>
        if c.phase == Rejected then RefusedRejected
        else if c.phase == Held || needsApproval then HeldForApproval
        else Release
      case Decide(_, approved) =>
        if !approved then RefusedRejected
        else if c.phase == Held then Release
        else RefusedDuplicate
  }

  function CellAfter(ops: seq<Op>): Cell {
    if ops == [] then START else CellNext(CellAfter(ops[..|ops| - 1]), ops[|ops| - 1])
  }

  predicate Concerns(op: Op, id: Id) {
    Names(op, id) || ((op.Cancel? || op.CloseRun?) && op.run == id.0)
  }

  /** The operations that concern `id`, in order. */
  function Only(ops: seq<Op>, id: Id): seq<Op> {
    if ops == [] then []
    else
      var m := |ops| - 1;
      if Concerns(ops[m], id) then Only(ops[..m], id) + [ops[m]] else Only(ops[..m], id)
  }

  /** The verdicts the whole gate gives to the operations naming `id`. */
  function Verdicts(ops: seq<Op>, id: Id): seq<Verdict> {
    if ops == [] then []
    else
      var m := |ops| - 1;
      var told := VerdictOf(After(EMPTY, ops[..m]), ops[m]);
      if Names(ops[m], id) && told.Some? then Verdicts(ops[..m], id) + [told.value]
      else Verdicts(ops[..m], id)
  }

  /** The verdicts one identity's automaton gives. */
  function CellVerdicts(ops: seq<Op>, id: Id): seq<Verdict> {
    if ops == [] then []
    else
      var m := |ops| - 1;
      if Names(ops[m], id) then CellVerdicts(ops[..m], id) + [CellVerdict(CellAfter(ops[..m]), ops[m])]
      else CellVerdicts(ops[..m], id)
  }

  /** What a gate holds about `id`. */
  function View(g: GateState, id: Id): Cell {
    Cell(if id in g.released then Released
         else if id in g.rejected then Rejected
         else if id in g.pending then Held
         else Fresh,
         id.0 in g.cancelled, id.0 in g.closed)
  }

  lemma ViewNext(g: GateState, op: Op, id: Id)
    requires Inv(g)
    ensures View(Next(g, op), id) == if Concerns(op, id) then CellNext(View(g, id), op) else View(g, id)
    ensures Names(op, id) ==> VerdictOf(g, op) == Some(CellVerdict(View(g, id), op))
  {
  }

  /** The state and the verdicts of an identity are those of its own automaton on its own operations. */
  lemma {:induction false} GateIsAProduct(ops: seq<Op>, id: Id)
    ensures View(After(EMPTY, ops), id) == CellAfter(Only(ops, id))
    ensures Verdicts(ops, id) == CellVerdicts(Only(ops, id), id)
    decreases |ops|
  {
    if ops != [] {
      var m := |ops| - 1;
      GateIsAProduct(ops[..m], id);
      InvAfter(EMPTY, ops[..m]);
      ViewNext(After(EMPTY, ops[..m]), ops[m], id);
      var before := Only(ops[..m], id);
      assert (before + [ops[m]])[..|before|] == before;
    }
  }

  lemma {:induction false} OnlyTwice(ops: seq<Op>, id: Id)
    ensures Only(Only(ops, id), id) == Only(ops, id)
    decreases |ops|
  {
    if ops != [] {
      var m := |ops| - 1;
      OnlyTwice(ops[..m], id);
      var before := Only(ops[..m], id);
      assert (before + [ops[m]])[..|before|] == before;
    }
  }

  /** Leaving out every operation on other identities and other runs changes nothing for `id`. */
  lemma OthersAreInvisible(ops: seq<Op>, id: Id)
    ensures View(After(EMPTY, ops), id) == View(After(EMPTY, Only(ops, id)), id)
    ensures Verdicts(ops, id) == Verdicts(Only(ops, id), id)
  {
    GateIsAProduct(ops, id);
    GateIsAProduct(Only(ops, id), id);
    OnlyTwice(ops, id);
  }

  /** The cells determine the gate: nothing is shared between identities. */
  lemma CellsDetermineTheGate(g: GateState, h: GateState)
    requires Inv(g) && Inv(h)
    requires forall id :: View(g, id) == View(h, id)
    ensures g == h
  {
    forall r: Run ensures (r in g.cancelled <==> r in h.cancelled) && (r in g.closed <==> r in h.closed) {
      var id: Id := (r, []);
      assert View(g, id) == View(h, id);
    }
    forall id ensures id in g.released <==> id in h.released {
      assert View(g, id) == View(h, id);
    }
    forall id ensures id in g.rejected <==> id in h.rejected {
      assert View(g, id) == View(h, id);
    }
    forall id ensures id in g.pending <==> id in h.pending {
      assert View(g, id) == View(h, id);
    }
  }
}
