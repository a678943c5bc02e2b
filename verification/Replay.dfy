/**
  Replaying logged events (`apply`), the events the handlers log (`event_for`,
  `fence_for`), and the snapshot that compaction writes (`durable_events`).
 */
module Replay {
  import opened Options
  import opened Texts
  import opened Sorting
  import opened GateModel

  datatype Event =
    | Released(id: Id)
    | Rejected(id: Id)
    | Cancelled(run: Run)
    | Closed(run: Run)

  function Apply(g: GateState, ev: Event): GateState {
    match ev
    case Released(id) => if id.0 in g.closed then g else g.(released := g.released + {id})
    case Rejected(id) => if id.0 in g.closed then g else g.(rejected := g.rejected + {id})
    case Cancelled(r) => g.Cancel(r)
    case Closed(r) => g.CloseRun(r)
  }

  function Replayed(g: GateState, log: seq<Event>): GateState {
    if log == [] then g else Apply(Replayed(g, log[..|log| - 1]), log[|log| - 1])
  }

  // ---- What a set of events means, whatever its order ----

  /** A set of events as a state: closes absorb the records of their run. */
  function Meaning(events: set<Event>): GateState {
    GateState(
      set ev <- events | ev.Released? && Closed(ev.id.0) !in events :: ev.id,
      set ev <- events | ev.Rejected? && Closed(ev.id.0) !in events :: ev.id,
      {},
      set ev <- events | ev.Cancelled? :: ev.run,
      set ev <- events | ev.Closed? :: ev.run)
  }

  function Elements(log: seq<Event>): set<Event> { set ev | ev in log }

  lemma MeaningOfMore(events: set<Event>, ev: Event)
    ensures Meaning(events + {ev}) == Apply(Meaning(events), ev)
  {
    var m, n := Meaning(events + {ev}), Apply(Meaning(events), ev);
    assert forall id :: id in m.released <==> id in n.released;
    assert forall id :: id in m.rejected <==> id in n.rejected;
    assert forall r :: r in m.cancelled <==> r in n.cancelled;
    assert forall r :: r in m.closed <==> r in n.closed;
  }

  /** Replay depends only on which events are in the log, not on their order or number. */
  lemma {:induction false} ReplayIsMeaning(log: seq<Event>)
    ensures Replayed(EMPTY, log) == Meaning(Elements(log))
    decreases |log|
  {
    if log != [] {
      var m := |log| - 1;
      ReplayIsMeaning(log[..m]);
      MeaningOfMore(Elements(log[..m]), log[m]);
      assert log == log[..m] + [log[m]];
      assert Elements(log) == Elements(log[..m]) + {log[m]};
    } else {
      assert Elements(log) == {};
    }
  }

  /** No identity is both released and rejected. */
  ghost predicate Consistent(events: set<Event>) {
    forall id :: Released(id) in events ==> Rejected(id) !in events
  }

  lemma MeaningIsInv(events: set<Event>)
    requires Consistent(events)
    ensures Inv(Meaning(events)) && Meaning(events).Durable() == Meaning(events)
  {
  }

  /** An event after which `id` is never released. */
  predicate SettlingEvent(ev: Event, id: Id) {
    ev == Released(id) || ev == Rejected(id) || ev == Cancelled(id.0) || ev == Closed(id.0)
  }

  // ---- What the handlers log ----

  /** The event a submit, decide, cancel or close leaves behind, given its answer. */
  function EventFor(op: Op, told: Option<Verdict>): Option<Event> {
    match op
    case Submit(id, _) => if told == Some(Release) then Some(Released(id)) else None
    case Decide(id, _) =>
      if told == Some(Release) then Some(Released(id))
      else if told == Some(RefusedRejected) then Some(Rejected(id))
      else None
    case Cancel(r) => Some(Cancelled(r))
    case CloseRun(r) => Some(Closed(r))
  }

  function Logged(g: GateState, op: Op): set<Event> {
    var ev := EventFor(op, VerdictOf(g, op));
    if ev.Some? then {ev.value} else {}
  }

  /** All events that the operations of a run leave behind. */
  function LoggedBy(ops: seq<Op>): set<Event> {
    if ops == [] then {}
    else LoggedBy(ops[..|ops| - 1]) + Logged(After(EMPTY, ops[..|ops| - 1]), ops[|ops| - 1])
  }

  lemma LoggedKeepsMeaning(g: GateState, op: Op, events: set<Event>)
    requires Inv(g) && g.Durable() == Meaning(events)
    ensures Next(g, op).Durable() == Meaning(events + Logged(g, op))
  {
    var logged := EventFor(op, VerdictOf(g, op));
    if logged.Some? {
      MeaningOfMore(events, logged.value);
    } else {
      assert events + {} == events;
    }
  }

  lemma {:induction false} LoggedIsDurableState(ops: seq<Op>)
    ensures After(EMPTY, ops).Durable() == Meaning(LoggedBy(ops))
    decreases |ops|
  {
    if ops != [] {
      var m := |ops| - 1;
      LoggedIsDurableState(ops[..m]);
      InvAfter(EMPTY, ops[..m]);
      LoggedKeepsMeaning(After(EMPTY, ops[..m]), ops[m], LoggedBy(ops[..m]));
    }
  }

  /**
    Replaying what the handlers logged, in whatever order and with whatever repetitions
    it reached the log, rebuilds the durable state of the live gate.
   */
  lemma AnyLogOrderRebuilds(ops: seq<Op>, log: seq<Event>)
    requires forall ev :: ev in log <==> ev in LoggedBy(ops)
    ensures Replayed(EMPTY, log) == After(EMPTY, ops).Durable()
  {
    ReplayIsMeaning(log);
    LoggedIsDurableState(ops);
    assert Elements(log) == LoggedBy(ops);
  }

  // ---- Covering: when one set of events makes another redundant ----

  /** `ev` is in `events`, or its run's close is. */
  predicate Covered(ev: Event, events: set<Event>) {
    ev in events || ((ev.Released? || ev.Rejected?) && Closed(ev.id.0) in events)
  }

  predicate Covers(events: set<Event>, needed: set<Event>) {
    forall ev <- needed :: Covered(ev, events)
  }

  lemma CoversTransitive(a: set<Event>, b: set<Event>, c: set<Event>)
    requires Covers(a, b) && Covers(b, c)
    ensures Covers(a, c)
  {
    forall ev <- c ensures Covered(ev, a) {
      assert Covered(ev, b);
      if ev !in b { assert Covered(Closed(ev.id.0), a); }
    }
  }

  /** Dropping what is covered loses nothing. */
  lemma CoveringSubset(events: set<Event>, all: set<Event>)
    requires events <= all && Covers(events, all)
    ensures Meaning(events) == Meaning(all)
  {
    var m, n := Meaning(events), Meaning(all);
    assert forall r :: Closed(r) in all ==> Covered(Closed(r), events);
    assert forall r :: Cancelled(r) in all ==> Covered(Cancelled(r), events);
    assert forall id :: Released(id) in all ==> Covered(Released(id), events);
    assert forall id :: Rejected(id) in all ==> Covered(Rejected(id), events);
    assert forall id :: id in m.released <==> id in n.released;
    assert forall id :: id in m.rejected <==> id in n.rejected;
    assert m.cancelled == n.cancelled;
    assert m.closed == n.closed;
  }

  // ---- The snapshot ----

  /** One event for each fact of the durable state. */
  function Facts(g: GateState): set<Event> {
    (set r <- g.closed :: Closed(r)) + (set r <- g.cancelled :: Cancelled(r))
    + (set id <- g.released :: Released(id)) + (set id <- g.rejected :: Rejected(id))
  }

  lemma FactsOfMeaning(events: set<Event>)
    ensures Facts(Meaning(events)) <= events
    ensures Covers(Facts(Meaning(events)), events)
  {
    forall ev <- events ensures Covered(ev, Facts(Meaning(events))) {
      if (ev.Released? || ev.Rejected?) && Closed(ev.id.0) in events {
        assert ev.id.0 in Meaning(events).closed;
      }
    }
  }

  lemma MeaningOfFacts(g: GateState)
    requires Inv(g)
    ensures Meaning(Facts(g)) == g.Durable()
  {
    var m := Meaning(Facts(g));
    assert forall r :: Closed(r) in Facts(g) <==> r in g.closed;
    assert forall id :: Released(id) in Facts(g) <==> id in g.released;
    assert forall id :: Rejected(id) in Facts(g) <==> id in g.rejected;
    assert forall r :: Cancelled(r) in Facts(g) <==> r in g.cancelled;
    assert m.released == g.released && m.rejected == g.rejected;
    assert m.cancelled == g.cancelled && m.closed == g.closed;
  }

  predicate TextBelow(a: Text, b: Text) { Below(a, b) }

  predicate IdBelow(a: Id, b: Id) {
    if a.0 != b.0 then Below(a.0, b.0) else Below(a.1, b.1)
  }

  /** The order of the snapshot: closes, cancels, releases, rejections, each sorted. */
  function Rank(ev: Event): int {
    match ev
    case Closed(_) => 0
    case Cancelled(_) => 1
    case Released(_) => 2
    case Rejected(_) => 3
  }

  predicate EventBelow(a: Event, b: Event) {
    if Rank(a) != Rank(b) then Rank(a) < Rank(b)
    else match a
      case Closed(r) => b.Closed? && TextBelow(r, b.run)
      case Cancelled(r) => b.Cancelled? && TextBelow(r, b.run)
      case Released(id) => b.Released? && IdBelow(id, b.id)
      case Rejected(id) => b.Rejected? && IdBelow(id, b.id)
  }

  lemma TextBelowIsStrictOrder()
    ensures StrictOrder(TextBelow)
  {
    forall a: Text ensures !TextBelow(a, a) { BelowIrreflexive(a); }
    forall a: Text, b: Text, c: Text | TextBelow(a, b) && TextBelow(b, c) ensures TextBelow(a, c) {
      BelowTransitive(a, b, c);
    }
    forall a: Text, b: Text ensures a == b || TextBelow(a, b) || TextBelow(b, a) { BelowTotal(a, b); }
  }

  lemma IdBelowIsStrictOrder()
    ensures StrictOrder(IdBelow)
  {
    forall a: Id ensures !IdBelow(a, a) { BelowIrreflexive(a.1); }
    forall a: Id, b: Id, c: Id | IdBelow(a, b) && IdBelow(b, c) ensures IdBelow(a, c) {
      if a.0 == c.0 && a.0 != b.0 {
        BelowTransitive(a.0, b.0, c.0);
        BelowIrreflexive(a.0);
      } else if a.0 != b.0 && b.0 != c.0 {
        BelowTransitive(a.0, b.0, c.0);
      } else if a.0 == c.0 {
        BelowTransitive(a.1, b.1, c.1);
      }
    }
    forall a: Id, b: Id ensures a == b || IdBelow(a, b) || IdBelow(b, a) {
      BelowTotal(a.0, b.0);
      BelowTotal(a.1, b.1);
    }
  }

  lemma EventBelowIsStrictOrder()
    ensures StrictOrder(EventBelow)
  {
    TextBelowIsStrictOrder();
    IdBelowIsStrictOrder();
  }

  /** `log` is what `durable_events` returns for `g`. */
  ghost predicate IsSnapshot(g: GateState, log: seq<Event>) {
    SortedBy(EventBelow, log) && Elements(log) == Facts(g)
  }

  /** Closes come first, then cancels, then releases, then rejections; each kind by run, then by key. */
  lemma SnapshotOrder(g: GateState, log: seq<Event>, i: nat, j: nat)
    requires IsSnapshot(g, log) && i < j < |log|
    ensures log[j].Closed? ==> log[i].Closed? && Below(log[i].run, log[j].run)
    ensures log[j].Cancelled? ==> log[i].Closed? || (log[i].Cancelled? && Below(log[i].run, log[j].run))
    ensures log[j].Released? ==> log[i].Closed? || log[i].Cancelled? || log[i].Released?
    ensures (log[i].Released? && log[j].Released?) || (log[i].Rejected? && log[j].Rejected?) ==>
              Below(log[i].id.0, log[j].id.0) || (log[i].id.0 == log[j].id.0 && Below(log[i].id.1, log[j].id.1))
  {
    assert EventBelow(log[i], log[j]);
  }

  /** A snapshot rebuilds exactly the durable state, with no holds, and replaying it twice changes nothing. */
  lemma SnapshotRebuilds(g: GateState, log: seq<Event>)
    requires Inv(g) && IsSnapshot(g, log)
    ensures Replayed(EMPTY, log) == g.Durable()
    ensures Replayed(EMPTY, log + log) == g.Durable()
  {
    ReplayIsMeaning(log);
    ReplayIsMeaning(log + log);
    assert Elements(log + log) == Elements(log);
    MeaningOfFacts(g);
  }

  /** Equal durable states have the same snapshot, record for record. */
  lemma SnapshotIsCanonical(g: GateState, h: GateState, a: seq<Event>, b: seq<Event>)
    requires IsSnapshot(g, a) && IsSnapshot(h, b) && g.Durable() == h.Durable()
    ensures a == b
  {
    EventBelowIsStrictOrder();
    assert Facts(g) == Facts(h);
    assert forall ev :: ev in a <==> ev in Elements(a);
    assert forall ev :: ev in b <==> ev in Elements(b);
    SortedUnique(EventBelow, a, b);
  }

  lemma {:induction false} DistinctElements(less: (Event, Event) -> bool, log: seq<Event>)
    requires StrictOrder(less) && SortedBy(less, log)
    ensures |Elements(log)| == |log|
    decreases |log|
  {
    if log != [] {
      var m := |log| - 1;
      DistinctElements(less, log[..m]);
      assert log == log[..m] + [log[m]];
      assert log[m] !in log[..m];
      assert Elements(log) == Elements(log[..m]) + {log[m]};
    } else {
      assert Elements(log) == {};
    }
  }

  lemma {:induction false} ElementsAtMost(log: seq<Event>)
    ensures |Elements(log)| <= |log|
    decreases |log|
  {
    if log != [] {
      var m := |log| - 1;
      ElementsAtMost(log[..m]);
      assert log == log[..m] + [log[m]];
      assert Elements(log) == Elements(log[..m]) + {log[m]};
    } else {
      assert Elements(log) == {};
    }
  }

  lemma SubsetSize<T>(a: set<T>, b: set<T>)
    requires a <= b
    ensures |a| <= |b|
  {
    assert b == a + (b - a);
  }

  /** No log that rebuilds the same durable state is shorter than the snapshot. */
  lemma SnapshotIsMinimal(g: GateState, log: seq<Event>, other: seq<Event>)
    requires IsSnapshot(g, log)
    requires Replayed(EMPTY, other).Durable() == g.Durable()
    ensures |log| == |Facts(g)| <= |other|
  {
    EventBelowIsStrictOrder();
    DistinctElements(EventBelow, log);
    ReplayIsMeaning(other);
    FactsOfMeaning(Elements(other));
    assert Facts(g) == Facts(Meaning(Elements(other)));
    SubsetSize(Facts(g), Elements(other));
    ElementsAtMost(other);
  }
}
