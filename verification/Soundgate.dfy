/**
  The admission core as the source has it: an object whose methods update its
  fields in place. Every method is proved against the pure gate.
 */
module Soundgate {
  import opened Options
  import opened Texts
  import opened Sorting
  import opened GateModel
  import opened Replay

  datatype Effect = Effect(runId: Text, effectKey: Text, needsApproval: bool) {
    function Id(): GateModel.Id { (runId, effectKey) }
  }

  class Gate {
    var released: set<Id>
    var cancelled: set<Run>
    var pending: map<Id, Effect>
    var rejected: set<Id>
    var closed: set<Run>

    /** Every hold is filed under its own identity. */
    ghost predicate Valid()
      reads this
    {
      forall id <- pending :: pending[id].Id() == id
    }

    ghost function State(): GateState
      reads this
    {
      GateState(released, rejected, pending.Keys, cancelled, closed)
    }

    constructor ()
      ensures Valid() && State() == EMPTY
    {
      released, cancelled, pending, rejected, closed := {}, {}, map[], {}, {};
    }

    method Submit(e: Effect) returns (v: Verdict)
      requires Valid()
      modifies this
      ensures Valid() && (State(), v) == old(State()).Submit(e.Id(), e.needsApproval)
    {
      if e.runId in cancelled || e.runId in closed { return RefusedCancelled; }
      var id := e.Id();
      if id in released { return RefusedDuplicate; }
      if id in rejected { return RefusedRejected; }
      if id in pending { return HeldForApproval; }
      if e.needsApproval {
        pending := pending[id := e];
        assert pending.Keys == old(pending.Keys) + {id};
        return HeldForApproval;
      } else {
        released := released + {id};
        return Release;
      }
    }

    method Decide(runId: Text, effectKey: Text, approved: bool) returns (v: Verdict)
      requires Valid()
      modifies this
      ensures Valid() && (State(), v) == old(State()).Decide((runId, effectKey), approved)
    {
      var id: Id := (runId, effectKey);
      if id !in pending {
        if runId in cancelled || runId in closed { return RefusedCancelled; }
        if id in released { return RefusedDuplicate; }
        if !approved {
          rejected := rejected + {id};
          return RefusedRejected;
        }
        return RefusedDuplicate;
      }
      var effect := pending[id];
      pending := pending - {id};
      if effect.runId in cancelled || effect.runId in closed { return RefusedCancelled; }
      if approved {
        released := released + {id};
        return Release;
      } else {
        rejected := rejected + {id};
        return RefusedRejected;
      }
    }

    /** Collects the holds of the run and then removes them one by one. */
    method DropHolds(runId: Text)
      requires Valid()
      modifies this`pending
      ensures Valid() && pending.Keys == Outside(old(pending.Keys), runId)
    {
      var dropped: seq<Id> := [];
      var keys := pending.Keys;
      while keys != {}
        invariant keys <= pending.Keys && pending == old(pending)
        invariant forall id :: id in dropped <==> id in pending.Keys - keys && id.0 == runId
        decreases keys
      {
        var k :| k in keys;
        keys := keys - {k};
        if k.0 == runId { dropped := dropped + [k]; }
      }
      for i := 0 to |dropped|
        invariant Valid()
        invariant forall id :: id in pending <==> id in old(pending) && id !in dropped[..i]
      {
        pending := pending - {dropped[i]};
      }
      assert dropped[..|dropped|] == dropped;
    }

    method Cancel(runId: Text)
      requires Valid()
      modifies this
      ensures Valid() && State() == old(State()).Cancel(runId)
    {
      cancelled := cancelled + {runId};
      DropHolds(runId);
    }

    method CloseRun(runId: Text)
      requires Valid()
      modifies this
      ensures Valid() && State() == old(State()).CloseRun(runId)
    {
      closed := closed + {runId};
      released := set id <- released | id.0 != runId;
      rejected := set id <- rejected | id.0 != runId;
      DropHolds(runId);
    }

    method Apply(ev: Event)
      requires Valid()
      modifies this
      ensures Valid() && State() == Replay.Apply(old(State()), ev)
    {
      match ev
      case Released(id) => if id.0 !in closed { released := released + {id}; }
      case Rejected(id) => if id.0 !in closed { rejected := rejected + {id}; }
      case Cancelled(r) => Cancel(r);
      case Closed(r) => CloseRun(r);
    }

    method DurableEvents() returns (log: seq<Event>)
      ensures IsSnapshot(State(), log)
    {
      TextBelowIsStrictOrder();
      IdBelowIsStrictOrder();
      var closedRuns := SortSet(TextBelow, closed);
      var cancelledRuns := SortSet(TextBelow, cancelled);
      var releasedIds := SortSet(IdBelow, released);
      var rejectedIds := SortSet(IdBelow, rejected);
      var a := Wrapped(closedRuns, r => Closed(r));
      var b := Wrapped(cancelledRuns, r => Cancelled(r));
      var c := Wrapped(releasedIds, id => Released(id));
      var d := Wrapped(rejectedIds, id => Rejected(id));
      log := a + b + c + d;
      SortedChain(a, b, c, d);
      forall ev ensures ev in log <==> ev in Facts(State()) {
        WrappedElements(closedRuns, r => Closed(r), ev);
        WrappedElements(cancelledRuns, r => Cancelled(r), ev);
        WrappedElements(releasedIds, id => Released(id), ev);
        WrappedElements(rejectedIds, id => Rejected(id), ev);
      }
    }
  }

  function Wrapped<T>(s: seq<T>, wrap: T -> Event): (log: seq<Event>)
    ensures |log| == |s| && forall i :: 0 <= i < |s| ==> log[i] == wrap(s[i])
  {
    seq(|s|, i requires 0 <= i < |s| => wrap(s[i]))
  }

  lemma WrappedElements<T>(s: seq<T>, wrap: T -> Event, ev: Event)
    ensures ev in Wrapped(s, wrap) <==> exists x :: x in s && wrap(x) == ev
  {
    var log := Wrapped(s, wrap);
    if x :| x in s && wrap(x) == ev {
      var i :| 0 <= i < |s| && s[i] == x;
      assert log[i] == ev;
    }
  }

  /** Sorted lists of growing rank chain into one sorted list. */
  lemma SortedChain(a: seq<Event>, b: seq<Event>, c: seq<Event>, d: seq<Event>)
    requires SortedBy(EventBelow, a) && SortedBy(EventBelow, b) && SortedBy(EventBelow, c) && SortedBy(EventBelow, d)
    requires forall i :: 0 <= i < |a| ==> Rank(a[i]) == 0
    requires forall i :: 0 <= i < |b| ==> Rank(b[i]) == 1
    requires forall i :: 0 <= i < |c| ==> Rank(c[i]) == 2
    requires forall i :: 0 <= i < |d| ==> Rank(d[i]) == 3
    ensures SortedBy(EventBelow, a + b + c + d)
  {
    var log := a + b + c + d;
    forall i, j | 0 <= i < j < |log| ensures EventBelow(log[i], log[j]) {
      assert Rank(log[i]) <= Rank(log[j]);
      if Rank(log[i]) == Rank(log[j]) {
        var ra, rb, rc := |a|, |a| + |b|, |a| + |b| + |c|;
        if j < ra {
        } else if j < rb {
          assert EventBelow(b[i - ra], b[j - ra]);
        } else if j < rc {
          assert EventBelow(c[i - rb], c[j - rb]);
        } else {
          assert EventBelow(d[i - rc], d[j - rc]);
        }
      }
    }
  }
}
