/**
  A replica of the gate as values: the fences it has recorded, the gate they rebuild, and
  what it saved about the log. Committed entries, restarts, crashes inside a batch and
  snapshots from other replicas are its actions.
 */
module FenceLog {
  import opened Options
  import opened Texts
  import opened GateModel
  import opened Replay
  import opened Reapply

  datatype LogId = LogId(term: nat, node: nat, index: nat)

  /** A cluster configuration, of which only the identity matters here. */
  datatype Membership = Membership(at: Option<LogId>, config: nat)

  datatype GateOp =
    | Submit(id: Id, needsApproval: bool)
    | Decide(id: Id, approved: bool)
    | Cancel(run: Run)

  function ToOp(op: GateOp): Op {
    match op
    case Submit(id, na) => Op.Submit(id, na)
    case Decide(id, ap) => Op.Decide(id, ap)
    case Cancel(r) => Op.Cancel(r)
  }

  /** The fence of an operation and its answer: the event the server would log. */
  function FenceFor(op: GateOp, told: Option<Verdict>): Option<Event> { EventFor(ToOp(op), told) }

  datatype Payload = Blank | Config(config: nat) | Normal(op: GateOp)

  datatype Entry = Entry(logId: LogId, payload: Payload)

  datatype Replica = Replica(
    fences: seq<Event>,           // the fence tree, in key order
    gate: GateState,
    lastApplied: Option<LogId>,
    membership: Membership,
    savedApplied: Option<LogId>,
    savedMembership: Membership)

  datatype Snapshot = Snapshot(lastLogId: Option<LogId>, membership: Membership, fences: seq<Event>)

  const FRESH := Replica([], EMPTY, None, Membership(None, 0), None, Membership(None, 0))

  function Fences(g: GateState, op: GateOp): (fences: seq<Event>)
    ensures |fences| <= 1
  {
    var ev := FenceFor(op, VerdictOf(g, ToOp(op)));
    if ev.Some? then [ev.value] else []
  }

  function ApplyEntry(n: Replica, e: Entry): Replica {
    var applied := n.(lastApplied := Some(e.logId));
    match e.payload
    case Blank => applied
    case Config(config) =>
      var m := Membership(Some(e.logId), config);
      applied.(membership := m, savedMembership := m)
    case Normal(op) =>
      applied.(gate := Next(n.gate, ToOp(op)), fences := n.fences + Fences(n.gate, op))
  }

  function ApplyEntries(n: Replica, entries: seq<Entry>): Replica {
    if entries == [] then n
    else ApplyEntry(ApplyEntries(n, entries[..|entries| - 1]), entries[|entries| - 1])
  }

  /** A whole batch: only at its end is the position saved. */
  function ApplyBatch(n: Replica, entries: seq<Entry>): Replica {
    var m := ApplyEntries(n, entries);
    if entries == [] then m else m.(savedApplied := Some(entries[|entries| - 1].logId))
  }

  function Restart(n: Replica): Replica {
    n.(gate := Replayed(EMPTY, n.fences), lastApplied := n.savedApplied, membership := n.savedMembership)
  }

  function Build(n: Replica): Snapshot { Snapshot(n.lastApplied, n.membership, n.fences) }

  /**
    A snapshot builder keeps the position it was cloned at but reads the shared tree: what it
    builds after `more` was applied holds fences ahead of its position.
   */
  function BuildLate(n: Replica, more: seq<Entry>): Snapshot {
    Snapshot(n.lastApplied, n.membership, ApplyEntries(n, more).fences)
  }

  function Install(s: Snapshot): Replica {
    Replica(s.fences, Replayed(EMPTY, s.fences), s.lastLogId, s.membership, s.lastLogId, s.membership)
  }

  /**
    A restart after dying inside an installation: the tree was cleared and the first `kept` fences of the
    snapshot were recorded again; if all were, its position, but not its membership, may have been saved.
   */
  function DiedInstalling(n: Replica, s: Snapshot, kept: nat, applied: bool): Replica {
    if kept < |s.fences| then Restart(n.(fences := s.fences[..kept]))
    else Restart(n.(fences := s.fences, savedApplied := if applied then s.lastLogId else n.savedApplied))
  }

  // ---- Every history ----

  datatype Step =
    | Batch(entries: seq<Entry>)
    | CrashIn(entries: seq<Entry>, done: nat)   // dies after `done` entries, restarts
    | InstallFrom(donor: seq<Step>, late: seq<Entry>)  // a snapshot of another replica, built while it applied `late`
    | DieInstalling(donor: seq<Step>, late: seq<Entry>, kept: nat, applied: bool)

  /** The replica after a history; a crash may come anywhere in a batch. */
  function History(steps: seq<Step>): Replica
    decreases steps
  {
    if steps == [] then FRESH
    else
      var before := History(steps[..|steps| - 1]);
      match steps[|steps| - 1]
      case Batch(entries) => ApplyBatch(before, entries)
      case CrashIn(entries, done) =>
        Restart(ApplyEntries(before, if done <= |entries| then entries[..done] else entries))
      case InstallFrom(donor, late) => Install(BuildLate(History(donor), late))
      case DieInstalling(donor, late, kept, applied) =>
        DiedInstalling(before, BuildLate(History(donor), late), kept, applied)
  }

  predicate IsClose(ev: Event) { ev.Closed? }

  /** No fence is a close: the replicated gate has no such operation. */
  ghost predicate NoCloses(fences: seq<Event>) { forall ev <- fences :: !IsClose(ev) }

  /** Replaying the fence tree in key order gives the gate's durable state. */
  ghost predicate FencesAreTheGate(n: Replica) {
    Inv(n.gate) && Replayed(EMPTY, n.fences) == n.gate.Durable()
  }

  lemma ReplayMore(log: seq<Event>, more: seq<Event>)
    requires |more| <= 1
    ensures Replayed(EMPTY, log + more) ==
            if more == [] then Replayed(EMPTY, log) else Apply(Replayed(EMPTY, log), more[0])
  {
    if more == [] {
      assert log + more == log;
    } else {
      assert (log + more)[..|log|] == log;
    }
  }

  /** An operation changes the durable state as its fence, if any, does. */
  lemma FenceIsTheChange(g: GateState, op: GateOp)
    requires Inv(g)
    ensures var d, fences := Next(g, ToOp(op)).Durable(), Fences(g, op);
            d == if fences == [] then g.Durable() else Apply(g.Durable(), fences[0])
  {
    match op {
      case Submit(id, na) =>
      case Decide(id, ap) =>
      case Cancel(r) =>
    }
  }

  lemma EntryKeepsFences(n: Replica, e: Entry)
    requires FencesAreTheGate(n)
    ensures FencesAreTheGate(ApplyEntry(n, e))
  {
    if e.payload.Normal? {
      var op := e.payload.op;
      hide Inv;
      hide Apply;
      hide Next;
      hide Fences;
      InvKept(n.gate, ToOp(op));
      FenceIsTheChange(n.gate, op);
      ReplayMore(n.fences, Fences(n.gate, op));
    }
  }

  lemma {:induction false} EntriesKeepFences(n: Replica, entries: seq<Entry>)
    requires FencesAreTheGate(n)
    ensures FencesAreTheGate(ApplyEntries(n, entries))
    decreases |entries|
  {
    if entries != [] {
      var m := |entries| - 1;
      EntriesKeepFences(n, entries[..m]);
      EntryKeepsFences(ApplyEntries(n, entries[..m]), entries[m]);
    }
  }

  lemma DurableIsInv(g: GateState)
    requires Inv(g)
    ensures Inv(g.Durable()) && g.Durable().Durable() == g.Durable()
  {
  }

  lemma {:induction false} EntriesKeepOpen(n: Replica, entries: seq<Entry>)
    requires NoCloses(n.fences)
    ensures NoCloses(ApplyEntries(n, entries).fences)
    decreases |entries|
  {
    if entries != [] { EntriesKeepOpen(n, entries[..|entries| - 1]); }
  }

  /** Without closes, fences that replay to a sound gate never settle an identity twice over. */
  lemma FencesAreConsistent(n: Replica)
    requires FencesAreTheGate(n) && NoCloses(n.fences)
    ensures Consistent(Elements(n.fences))
  {
    ReplayIsMeaning(n.fences);
    var g := Meaning(Elements(n.fences));
    forall id | Released(id) in Elements(n.fences) ensures Rejected(id) !in Elements(n.fences) {
      assert IsClose(Closed(id.0));
      assert id in g.released && id !in g.rejected;
    }
  }

  /** Whatever part of sound fences a tree holds, the gate rebuilt from it is sound, and is what they replay to. */
  lemma PartOfFences(n: Replica, m: Replica)
    requires FencesAreTheGate(n) && NoCloses(n.fences)
    requires m.fences <= n.fences && m.gate == Replayed(EMPTY, m.fences)
    ensures FencesAreTheGate(m) && NoCloses(m.fences)
  {
    FencesAreConsistent(n);
    assert forall ev :: ev in m.fences ==> ev in n.fences;
    assert Elements(m.fences) <= Elements(n.fences);
    ReplayIsMeaning(m.fences);
    MeaningIsInv(Elements(m.fences));
  }

  lemma {:induction false} HistoryKeepsFences(steps: seq<Step>)
    ensures FencesAreTheGate(History(steps)) && NoCloses(History(steps).fences)
    decreases steps
  {
    hide Replayed;
    hide FencesAreTheGate;
    if steps == [] {
      NothingRecorded();
    } else {
      var before := History(steps[..|steps| - 1]);
      HistoryKeepsFences(steps[..|steps| - 1]);
      match steps[|steps| - 1] {
        case Batch(entries) =>
          EntriesKeepFences(before, entries);
          EntriesKeepOpen(before, entries);
          SameFences(ApplyEntries(before, entries), ApplyBatch(before, entries));
        case CrashIn(entries, done) =>
          var part := if done <= |entries| then entries[..done] else entries;
          EntriesKeepFences(before, part);
          EntriesKeepOpen(before, part);
          PartOfFences(ApplyEntries(before, part), History(steps));
        case InstallFrom(donor, late) =>
          HistoryKeepsFences(donor);
          EntriesKeepFences(History(donor), late);
          EntriesKeepOpen(History(donor), late);
          PartOfFences(ApplyEntries(History(donor), late), History(steps));
        case DieInstalling(donor, late, kept, applied) =>
          HistoryKeepsFences(donor);
          EntriesKeepFences(History(donor), late);
          EntriesKeepOpen(History(donor), late);
          PartOfFences(ApplyEntries(History(donor), late), History(steps));
      }
    }
  }

  lemma NothingRecorded()
    ensures FencesAreTheGate(FRESH)
  {
  }

  lemma SameFences(n: Replica, m: Replica)
    requires FencesAreTheGate(n) && m.fences == n.fences && m.gate == n.gate
    ensures FencesAreTheGate(m)
  {
  }

  /** Installing the snapshot a replica built reproduces its durable gate and positions, also after a restart. */
  lemma InstallReproduces(donor: seq<Step>)
    ensures var n := History(donor);
            var m := Install(Build(n));
            && m.gate == n.gate.Durable() && m.lastApplied == n.lastApplied && m.membership == n.membership
            && Restart(m) == m
  {
    HistoryKeepsFences(donor);
  }

  // ---- Crashing inside a batch and applying it again ----

  function OpsOf(entries: seq<Entry>): seq<Op> {
    if entries == [] then []
    else
      var m := |entries| - 1;
      if entries[m].payload.Normal? then OpsOf(entries[..m]) + [ToOp(entries[m].payload.op)] else OpsOf(entries[..m])
  }

  lemma {:induction false} EntriesAreOps(n: Replica, entries: seq<Entry>)
    ensures ApplyEntries(n, entries).gate == After(n.gate, OpsOf(entries))
    ensures ApplyEntries(n, entries).lastApplied
         == if entries == [] then n.lastApplied else Some(entries[|entries| - 1].logId)
    ensures ApplyEntries(n, entries).savedApplied == n.savedApplied
    decreases |entries|
  {
    if entries != [] {
      var m := |entries| - 1;
      EntriesAreOps(n, entries[..m]);
      var ops := OpsOf(entries[..m]);
      if entries[m].payload.Normal? {
        assert (ops + [ToOp(entries[m].payload.op)])[..|ops|] == ops;
      }
    }
  }

  lemma {:induction false} OpsOfPrefix(entries: seq<Entry>, k: nat)
    requires k <= |entries|
    ensures OpsOf(entries[..k]) <= OpsOf(entries)
    decreases |entries|
  {
    if k == |entries| {
      assert entries[..k] == entries;
    } else {
      var m := |entries| - 1;
      assert entries[..m][..k] == entries[..k];
      OpsOfPrefix(entries[..m], k);
    }
  }

  /** The membership after a batch: that of its last configuration entry, if it has one. */
  function MembershipAfter(before: Membership, entries: seq<Entry>): Membership {
    if entries == [] then before
    else
      var m := |entries| - 1;
      if entries[m].payload.Config? then Membership(Some(entries[m].logId), entries[m].payload.config)
      else MembershipAfter(before, entries[..m])
  }

  lemma {:induction false} EntriesSetMembership(n: Replica, entries: seq<Entry>)
    ensures ApplyEntries(n, entries).membership == MembershipAfter(n.membership, entries)
    ensures ApplyEntries(n, entries).savedMembership == MembershipAfter(n.savedMembership, entries)
    decreases |entries|
  {
    if entries != [] { EntriesSetMembership(n, entries[..|entries| - 1]); }
  }

  lemma {:induction false} MembershipAgain(before: Membership, entries: seq<Entry>, k: nat)
    requires k <= |entries|
    ensures MembershipAfter(MembershipAfter(before, entries[..k]), entries) == MembershipAfter(before, entries)
    decreases |entries|
  {
    if k == |entries| {
      assert entries[..k] == entries;
      MembershipTwice(before, entries);
    } else {
      var m := |entries| - 1;
      assert entries[..m][..k] == entries[..k];
      MembershipAgain(before, entries[..m], k);
    }
  }

  lemma {:induction false} MembershipTwice(before: Membership, entries: seq<Entry>)
    ensures MembershipAfter(MembershipAfter(before, entries), entries) == MembershipAfter(before, entries)
    decreases |entries|
  {
    if entries != [] {
      var m := |entries| - 1;
      if !entries[m].payload.Config? { MembershipTwice(before, entries[..m]); }
    }
  }

  /** The replica after several attempts at the batch that each died before the position was saved. */
  function Attempts(n: Replica, entries: seq<Entry>, crashes: seq<nat>): Replica
    requires Within(crashes, |entries|)
  {
    if crashes == [] then n
    else
      var m := |crashes| - 1;
      Restart(ApplyEntries(Attempts(n, entries, crashes[..m]), entries[..crashes[m]]))
  }

  /** A position to come back to: everything applied is saved and nothing is held. */
  ghost predicate Checkpoint(n: Replica) {
    && FencesAreTheGate(n) && n.gate.pending == {}
    && n.savedApplied == n.lastApplied && n.savedMembership == n.membership
  }

  /** The operations each attempt got through. */
  function OpCrashes(entries: seq<Entry>, crashes: seq<nat>): (c: seq<nat>)
    requires Within(crashes, |entries|)
    ensures |c| == |crashes|
  {
    if crashes == [] then []
    else OpCrashes(entries, crashes[..|crashes| - 1]) + [|OpsOf(entries[..crashes[|crashes| - 1]])|]
  }

  lemma {:induction false} OpCrashesWithin(entries: seq<Entry>, crashes: seq<nat>)
    requires Within(crashes, |entries|)
    ensures Within(OpCrashes(entries, crashes), |OpsOf(entries)|)
    decreases |crashes|
  {
    if crashes != [] {
      var m := |crashes| - 1;
      OpCrashesWithin(entries, crashes[..m]);
      OpsOfPrefix(entries, crashes[m]);
    }
  }

  lemma {:induction false} AttemptsLeaveCheckpoint(n: Replica, entries: seq<Entry>, crashes: seq<nat>)
    requires Checkpoint(n) && Within(crashes, |entries|)
    ensures var m := Attempts(n, entries, crashes);
            && Checkpoint(m) && m.lastApplied == n.lastApplied
            && MembershipAfter(m.membership, entries) == MembershipAfter(n.membership, entries)
    ensures var ops := OpsOf(entries);
            && Within(OpCrashes(entries, crashes), |ops|)
            && Attempts(n, entries, crashes).gate == AfterCrashes(n.gate, ops, OpCrashes(entries, crashes))
    decreases |crashes|
  {
    OpCrashesWithin(entries, crashes);
    if crashes != [] {
      var m := |crashes| - 1;
      var before := Attempts(n, entries, crashes[..m]);
      var part := entries[..crashes[m]];
      AttemptsLeaveCheckpoint(n, entries, crashes[..m]);
      EntriesKeepFences(before, part);
      DurableIsInv(ApplyEntries(before, part).gate);
      EntriesAreOps(before, part);
      EntriesSetMembership(before, part);
      MembershipAgain(before.membership, entries, crashes[m]);
      OpsOfPrefix(entries, crashes[m]);
      var ops, counts := OpsOf(entries), OpCrashes(entries, crashes);
      assert counts[..m] == OpCrashes(entries, crashes[..m]);
      assert OpsOf(part) == ops[..counts[m]];
    }
  }

  /**
    However often a replica dies between recording the fences of part of a batch and saving
    its position, applying the batch again leaves the gate, position, membership and durable
    fences of an uninterrupted run, provided nothing was held at the checkpoint.
   */
  lemma ReapplyAfterCrashes(n: Replica, entries: seq<Entry>, crashes: seq<nat>)
    requires Checkpoint(n) && Within(crashes, |entries|)
    ensures Attempts(n, entries, crashes).lastApplied == n.lastApplied
    ensures var clean, redone := ApplyBatch(n, entries), ApplyBatch(Attempts(n, entries, crashes), entries);
            && redone.gate == clean.gate && Replayed(EMPTY, redone.fences) == Replayed(EMPTY, clean.fences)
            && redone.lastApplied == clean.lastApplied && redone.savedApplied == clean.savedApplied
            && redone.membership == clean.membership && redone.savedMembership == clean.savedMembership
  {
    var m := Attempts(n, entries, crashes);
    AttemptsLeaveCheckpoint(n, entries, crashes);
    RedoAfterCrashes(n.gate, OpsOf(entries), OpCrashes(entries, crashes));
    EntriesAreOps(n, entries);
    EntriesAreOps(m, entries);
    EntriesSetMembership(n, entries);
    EntriesSetMembership(m, entries);
    EntriesKeepFences(n, entries);
    EntriesKeepFences(m, entries);
  }

  // ---- Snapshots built late ----

  /** Installing a snapshot built after `entries[..k]` and applying `entries` gives the uninterrupted state. */
  ghost predicate LateSafe(n: Replica, entries: seq<Entry>, k: nat)
    requires k <= |entries|
  {
    ApplyEntries(Install(BuildLate(n, entries[..k])), entries).gate.Durable() == ApplyEntries(n, entries).gate.Durable()
  }

  /** The gate a late snapshot installs is that of a restart after the entries it is ahead by. */
  lemma LateInstall(n: Replica, entries: seq<Entry>, k: nat)
    requires FencesAreTheGate(n) && k <= |entries|
    ensures var m, ops, done := Install(BuildLate(n, entries[..k])), OpsOf(entries), |OpsOf(entries[..k])|;
            && done <= |ops| && FencesAreTheGate(m) && m.gate == After(n.gate, ops[..done]).Durable()
            && ApplyEntries(m, entries).gate == After(m.gate, ops)
            && ApplyEntries(n, entries).gate == After(n.gate, ops)
  {
    hide Replayed;
    var late := ApplyEntries(n, entries[..k]);
    EntriesKeepFences(n, entries[..k]);
    DurableIsInv(late.gate);
    EntriesAreOps(n, entries[..k]);
    OpsOfPrefix(entries, k);
    assert OpsOf(entries[..k]) == OpsOf(entries)[..|OpsOf(entries[..k])|];
    EntriesAreOps(n, entries);
    EntriesAreOps(Install(BuildLate(n, entries[..k])), entries);
  }

  /**
    With nothing held where the builder was cloned, a replica that installs the late snapshot and
    applies the entries from its position on is the uninterrupted replica, holds included.
   */
  lemma LateSnapshot(n: Replica, entries: seq<Entry>, k: nat)
    requires FencesAreTheGate(n) && n.gate.pending == {} && k <= |entries|
    ensures var m, clean := ApplyEntries(Install(BuildLate(n, entries[..k])), entries), ApplyEntries(n, entries);
            && m.gate == clean.gate && Replayed(EMPTY, m.fences) == Replayed(EMPTY, clean.fences)
            && m.lastApplied == clean.lastApplied && m.membership == clean.membership
  {
    hide Replayed;
    var installed := Install(BuildLate(n, entries[..k]));
    LateInstall(n, entries, k);
    Redo(n.gate, OpsOf(entries), |OpsOf(entries[..k])|);
    EntriesKeepFences(n, entries);
    EntriesKeepFences(installed, entries);
    EntriesAreOps(n, entries);
    EntriesAreOps(installed, entries);
    EntriesSetMembership(n, entries);
    EntriesSetMembership(installed, entries);
  }

  lemma HeldAtClone(n: Replica, id: Id)
    requires FencesAreTheGate(n) && id in n.gate.pending
    ensures !LateSafe(n, [Entry(LogId(0, 0, 0), Normal(GateOp.Decide(id, true)))], 0)
  {
    var entries := [Entry(LogId(0, 0, 0), Normal(GateOp.Decide(id, true)))];
    LateInstall(n, entries, 0);
    assert entries[..0] == [] && OpsOf(entries[..0]) == [];
    assert OpsOf(entries) == [Op.Decide(id, true)];
    PendingHoldIsLost(n.gate, id);
  }

  /** Late snapshots are safe, whatever is applied, exactly when nothing was held where the builder was cloned. */
  lemma LateSafeExactly(n: Replica)
    requires FencesAreTheGate(n)
    ensures (forall entries: seq<Entry>, k: nat | k <= |entries| :: LateSafe(n, entries, k)) <==> n.gate.pending == {}
  {
    if n.gate.pending == {} {
      forall entries: seq<Entry>, k: nat | k <= |entries| ensures LateSafe(n, entries, k) {
        LateSnapshot(n, entries, k);
      }
    } else {
      var id :| id in n.gate.pending;
      HeldAtClone(n, id);
    }
  }

  // ---- Dying inside an installation ----

  /**
    What the restart after it finds: the meaning of the fences recorded again, alone, beside the old
    membership and, unless all were recorded and it was saved, the old position. It releases an effect
    exactly when none of these fences settles it, whatever the replica had fenced before.
   */
  lemma DiedInstallingFinds(n: Replica, s: Snapshot, kept: nat, applied: bool, id: Id)
    ensures var m := DiedInstalling(n, s, kept, applied);
            var again := if kept < |s.fences| then s.fences[..kept] else s.fences;
            && m.fences == again && m.gate == Meaning(Elements(again))
            && m.lastApplied == (if kept >= |s.fences| && applied then s.lastLogId else n.savedApplied)
            && m.membership == n.savedMembership
            && (m.gate.Submit(id, false).1 == Release <==> forall ev <- again :: !SettlingEvent(ev, id))
  {
    hide Replayed;
    var again := if kept < |s.fences| then s.fences[..kept] else s.fences;
    ReplayIsMeaning(again);
    ReleasesUnsettled(Elements(again), id);
    assert forall ev :: ev in again <==> ev in Elements(again);
  }

  lemma ReleasesUnsettled(events: set<Event>, id: Id)
    ensures Meaning(events).Submit(id, false).1 == Release <==> forall ev <- events :: !SettlingEvent(ev, id)
  {
    var g := Meaning(events);
    assert Closed(id.0) in events <==> id.0 in g.closed;
    assert Cancelled(id.0) in events <==> id.0 in g.cancelled;
    assert Released(id) in events && Closed(id.0) !in events <==> id in g.released;
    assert Rejected(id) in events && Closed(id.0) !in events <==> id in g.rejected;
  }
}
