/**
  The replicated store as the source has it: an ordered tree of fences under 8-byte keys,
  a gate, and positions that its methods update. Proved against the replica of FenceLog.
 */
module FenceStore {
  import opened Options
  import opened Texts
  import opened BigEndianBytes
  import opened Sorting
  import opened GateModel
  import opened Replay
  import opened FenceLog
  import opened Recovery
  import RecordCodec
  import Soundgate

  // ---- Keys ----

  function LogKey(n: nat): seq<Byte> { BigEndian(n, 8) }

  lemma LogKeyOrder(a: nat, b: nat)
    requires a < U64 && b < U64
    ensures Below(LogKey(a), LogKey(b)) <==> a < b
    ensures Number(LogKey(a)) == a
    ensures LogKey(a) == LogKey(b) <==> a == b
  {
    U64IsEightBytes();
    KeyOrder(a, b, 8);
    NumberOfKey(a, 8);
    NumberOfKey(b, 8);
  }

  // ---- The tree ----

  type Key = seq<Byte>
  type Value = seq<Byte>

  predicate KeyBelow(a: Key, b: Key) { Below(a, b) }

  lemma KeyBelowIsStrictOrder()
    ensures StrictOrder(KeyBelow)
  {
    forall a: Key ensures !KeyBelow(a, a) { BelowIrreflexive(a); }
    forall a: Key, b: Key, c: Key | KeyBelow(a, b) && KeyBelow(b, c) ensures KeyBelow(a, c) {
      BelowTransitive(a, b, c);
    }
    forall a: Key, b: Key ensures a == b || KeyBelow(a, b) || KeyBelow(b, a) { BelowTotal(a, b); }
  }

  class Tree {
    var entries: map<Key, Value>

    constructor ()
      ensures entries == map[]
    {
      entries := map[];
    }

    method Insert(k: Key, v: Value)
      modifies this
      ensures entries == old(entries)[k := v]
    {
      entries := entries[k := v];
    }

    method Clear()
      modifies this
      ensures entries == map[]
    {
      entries := map[];
    }

    /** The keys in order, as iteration visits them. */
    method Keys() returns (keys: seq<Key>)
      ensures InKeyOrder(entries, keys)
    {
      KeyBelowIsStrictOrder();
      keys := SortSet(KeyBelow, entries.Keys);
    }
  }

  ghost predicate InKeyOrder(entries: map<Key, Value>, keys: seq<Key>) {
    SortedBy(KeyBelow, keys) && forall k :: k in keys <==> k in entries
  }

  // ---- Reading a tree ----

  /** The events of the values that parse, in the order of the keys given. */
  function EventsUnder(entries: map<Key, Value>, keys: seq<Key>): seq<Event>
    requires forall k <- keys :: k in entries
  {
    if keys == [] then []
    else
      var m := |keys| - 1;
      assert forall k <- keys[..m] :: k in keys;
      var before := EventsUnder(entries, keys[..m]);
      var ev := RecordCodec.Decode(entries[keys[m]]);
      if ev.Some? then before + [ev.value] else before
  }

  /** One more than the largest number under an 8-byte key. */
  function NextSeq(keys: seq<Key>): nat {
    if keys == [] then 0
    else
      var m := |keys| - 1;
      var before, n := NextSeq(keys[..m]), Number(keys[m]) + 1;
      if |keys[m]| == 8 && n > before then n else before
  }

  /** The tree holds exactly `events`, under the keys 0, 1, 2, ... */
  ghost predicate Holds(entries: map<Key, Value>, events: seq<Event>) {
    && |events| <= U64
    && (forall k :: k in entries <==> exists i :: 0 <= i < |events| && k == LogKey(i))
    && (forall i :: 0 <= i < |events| ==> entries[LogKey(i)] == RecordCodec.Encode(events[i]))
  }

  /** The next number is above all numbers under 8-byte keys, and the least such. */
  lemma {:induction false} NextSeqIsLeast(keys: seq<Key>)
    ensures forall k <- keys :: |k| == 8 ==> Number(k) < NextSeq(keys)
    ensures NextSeq(keys) > 0 ==> exists k <- keys :: |k| == 8 && Number(k) + 1 == NextSeq(keys)
    decreases |keys|
  {
    hide Number;
    if keys != [] {
      var m := |keys| - 1;
      NextSeqIsLeast(keys[..m]);
      assert keys == keys[..m] + [keys[m]];
    }
  }

  /** Every value that parses is read, and nothing else. */
  lemma {:induction false} EventsUnderAre(entries: map<Key, Value>, keys: seq<Key>)
    requires forall k <- keys :: k in entries
    ensures forall ev ::
              ev in EventsUnder(entries, keys) <==> exists k <- keys :: RecordCodec.Decode(entries[k]) == Some(ev)
    decreases |keys|
  {
    hide RecordCodec.Decode;
    if keys != [] {
      var m := |keys| - 1;
      assert forall k <- keys[..m] :: k in keys;
      EventsUnderAre(entries, keys[..m]);
      assert keys == keys[..m] + [keys[m]];
    }
  }

  function LogKeys(n: nat): (keys: seq<Key>)
    ensures |keys| == n && forall i :: 0 <= i < n ==> keys[i] == LogKey(i)
  {
    seq(n, i requires 0 <= i < n => LogKey(i))
  }

  lemma KeysInOrder(entries: map<Key, Value>, events: seq<Event>, keys: seq<Key>)
    requires Holds(entries, events) && InKeyOrder(entries, keys)
    ensures keys == LogKeys(|events|)
  {
    hide RecordCodec.Encode;
    var n := |events|;
    var ideal := LogKeys(n);
    KeyBelowIsStrictOrder();
    forall i, j | 0 <= i < j < n ensures KeyBelow(ideal[i], ideal[j]) { LogKeyOrder(i, j); }
    forall k ensures k in keys <==> k in ideal {
      if k in keys {
        var i :| 0 <= i < n && k == LogKey(i);
        assert ideal[i] == k;
      }
    }
    SortedUnique(KeyBelow, keys, ideal);
  }

  lemma {:induction false} ReadBack(entries: map<Key, Value>, events: seq<Event>, n: nat)
    requires Holds(entries, events) && n <= |events|
    requires forall k <- LogKeys(n) :: k in entries
    ensures EventsUnder(entries, LogKeys(n)) == events[..n]
    ensures NextSeq(LogKeys(n)) == n
    decreases n
  {
    hide RecordCodec.Encode;
    hide RecordCodec.Decode;
    hide BigEndian;
    if n > 0 {
      assert LogKeys(n)[..n - 1] == LogKeys(n - 1);
      ReadBack(entries, events, n - 1);
      LogKeyOrder(n - 1, n - 1);
      RecordCodec.RoundTrip(events[n - 1]);
      assert events[..n] == events[..n - 1] + [events[n - 1]];
    }
  }

  /** Iterating a tree that holds `events` yields them in order, and the next free number. */
  lemma IterationReadsEvents(entries: map<Key, Value>, events: seq<Event>, keys: seq<Key>)
    requires Holds(entries, events) && InKeyOrder(entries, keys)
    ensures EventsUnder(entries, keys) == events && NextSeq(keys) == |events|
  {
    hide RecordCodec.Encode;
    hide RecordCodec.Decode;
    KeysInOrder(entries, events, keys);
    ReadBack(entries, events, |events|);
    assert events[..|events|] == events;
  }

  /** Recording under the next number: the key is new, and the order of the others is kept. */
  lemma HoldsOneMore(entries: map<Key, Value>, events: seq<Event>, ev: Event)
    requires Holds(entries, events) && |events| < U64
    ensures LogKey(|events|) !in entries
    ensures Holds(entries[LogKey(|events|) := RecordCodec.Encode(ev)], events + [ev])
  {
    hide RecordCodec.Encode;
    var n := |events|;
    var key := LogKey(n);
    forall i | 0 <= i < n ensures LogKey(i) != key { LogKeyOrder(i, n); }
    var more, log := entries[key := RecordCodec.Encode(ev)], events + [ev];
    forall k ensures k in more <==> exists i :: 0 <= i < |log| && k == LogKey(i) {
      if k in more && k != key {
        var i :| 0 <= i < n && k == LogKey(i);
        assert 0 <= i < |log| && k == LogKey(i);
      }
      if k == key { assert 0 <= n < |log| && k == LogKey(n); }
    }
  }

  // ---- The store ----

  /** What a clone of the store keeps for itself, and the tree it shares. */
  class SnapshotBuilder {
    const fences: Tree
    const lastApplied: Option<LogId>
    const membership: FenceLog.Membership

    constructor (fences: Tree, lastApplied: Option<LogId>, membership: FenceLog.Membership)
      ensures this.fences == fences && this.lastApplied == lastApplied && this.membership == membership
    {
      this.fences, this.lastApplied, this.membership := fences, lastApplied, membership;
    }

    /** Dumps the tree as it is now, under the position of the clone. */
    method BuildSnapshot(ghost events: seq<Event>) returns (s: Snapshot)
      requires Holds(fences.entries, events)
      ensures s == Snapshot(lastApplied, membership, events)
    {
      hide RecordCodec.Encode;
      hide RecordCodec.Decode;
      var dump := DumpTree(fences);
      ghost var keys :| InKeyOrder(fences.entries, keys) && dump == EventsUnder(fences.entries, keys);
      IterationReadsEvents(fences.entries, events, keys);
      s := Snapshot(lastApplied, membership, dump);
    }
  }

  class SoundGateStore {
    const fences: Tree
    var gate: Soundgate.Gate
    var fenceSeq: nat
    var lastApplied: Option<LogId>
    var membership: FenceLog.Membership
    var savedApplied: Option<LogId>
    var savedMembership: FenceLog.Membership
    ghost var events: seq<Event>

    ghost predicate Valid()
      reads this, fences, gate
    {
      && gate.Valid() && fenceSeq == |events| && Holds(fences.entries, events)
    }

    ghost function View(): Replica
      reads this, gate
    {
      Replica(events, gate.State(), lastApplied, membership, savedApplied, savedMembership)
    }

    /**
      Opens the store on whatever tree a previous process left: values that do not parse and
      keys of another length are passed over. On a tree the store itself wrote, it recovers exactly `events`.
     */
    constructor (fences: Tree, savedApplied: Option<LogId>, savedMembership: FenceLog.Membership,
                 ghost events: seq<Event>)
      ensures gate.Valid() && fresh(gate) && this.fences == fences
      ensures exists keys :: InKeyOrder(fences.entries, keys) && fenceSeq == NextSeq(keys)
                          && gate.State() == Replayed(EMPTY, EventsUnder(fences.entries, keys))
      ensures Holds(fences.entries, events) ==>
        && Valid()
        && View() == Replica(events, Replayed(EMPTY, events),
                             savedApplied, savedMembership, savedApplied, savedMembership)
    {
      hide RecordCodec.Encode;
      hide RecordCodec.Decode;
      var recovered, next := ReadTree(fences);
      this.fences := fences;
      this.gate, this.fenceSeq := recovered, next;
      this.lastApplied, this.membership := savedApplied, savedMembership;
      this.savedApplied, this.savedMembership := savedApplied, savedMembership;
      this.events := events;
      new;
      ghost var keys :| InKeyOrder(fences.entries, keys) && next == NextSeq(keys)
               && recovered.State() == Replayed(EMPTY, EventsUnder(fences.entries, keys));
      if Holds(fences.entries, events) { IterationReadsEvents(fences.entries, events, keys); }
    }

    method RecordFence(ev: Event)
      requires Valid() && fenceSeq < U64 - 1
      modifies this`fenceSeq, this`events, fences
      ensures Valid() && events == old(events) + [ev]
      ensures LogKey(old(fenceSeq)) !in old(fences.entries)
    {
      hide RecordCodec.Encode;
      hide Holds;
      hide LogKey;
      HoldsOneMore(fences.entries, events, ev);
      var key := LogKey(fenceSeq);
      fenceSeq := fenceSeq + 1;
      fences.Insert(key, RecordCodec.Encode(ev));
      events := events + [ev];
    }

    method ApplyOp(op: GateOp) returns (told: Option<Verdict>)
      requires gate.Valid()
      modifies gate
      ensures gate.Valid() && gate.State() == Next(old(gate.State()), ToOp(op))
      ensures told == VerdictOf(old(gate.State()), ToOp(op))
      ensures op.Submit? ==> (gate.State(), told) == Answered(old(gate.State()).Submit(op.id, op.needsApproval))
      ensures op.Decide? ==> (gate.State(), told) == Answered(old(gate.State()).Decide(op.id, op.approved))
      ensures op.Cancel? ==> (gate.State(), told) == (old(gate.State()).Cancel(op.run), None)
    {
      match op
      case Submit(id, needsApproval) =>
        var v := gate.Submit(Soundgate.Effect(id.0, id.1, needsApproval));
        told := Some(v);
      case Decide(id, approved) =>
        var v := gate.Decide(id.0, id.1, approved);
        told := Some(v);
      case Cancel(r) =>
        gate.Cancel(r);
        told := None;
    }

    /** One committed entry; nothing is saved about the position yet. */
    method ApplyOne(entry: Entry) returns (response: Option<Verdict>)
      requires Valid() && fenceSeq < U64 - 1
      modifies this, fences, gate
      ensures gate == old(gate) && Valid() && fenceSeq <= old(fenceSeq) + 1
      ensures View() == ApplyEntry(old(View()), entry)
      ensures response == Response(old(gate.State()), entry)
      ensures entry.payload.Normal? && entry.payload.op.Submit? ==>
                var op := entry.payload.op;
                (gate.State(), response) == Answered(old(gate.State()).Submit(op.id, op.needsApproval))
      ensures entry.payload.Normal? && entry.payload.op.Decide? ==>
                var op := entry.payload.op;
                (gate.State(), response) == Answered(old(gate.State()).Decide(op.id, op.approved))
      ensures entry.payload.Normal? && entry.payload.op.Cancel? ==>
                (gate.State(), response) == (old(gate.State()).Cancel(entry.payload.op.run), None)
      ensures !entry.payload.Normal? ==> (gate.State(), response) == (old(gate.State()), None)
    {
      hide Holds;
      response := None;
      match entry.payload {
        case Blank =>
        case Config(config) =>
          membership := FenceLog.Membership(Some(entry.logId), config);
          savedMembership := membership;
        case Normal(op) =>
          response := ApplyOp(op);
          var ev := FenceFor(op, response);
          if ev.Some? { RecordFence(ev.value); }
      }
      lastApplied := Some(entry.logId);
    }

    lemma ViewHasGate()
      ensures View().gate == gate.State()
    {
    }

    method SaveApplied(newest: Option<LogId>)
      requires Valid()
      modifies this`savedApplied
      ensures Valid() && View() == old(View()).(savedApplied := newest)
    {
      savedApplied := newest;
    }

    method ApplyToStateMachine(entries: seq<Entry>) returns (responses: seq<Option<Verdict>>)
      requires Valid() && fenceSeq + |entries| < U64
      modifies this, fences, gate
      ensures gate == old(gate) && Valid() && |responses| == |entries|
      ensures View() == ApplyBatch(old(View()), entries)
      ensures forall i :: 0 <= i < |entries| ==>
                responses[i] == Response(ApplyEntries(old(View()), entries[..i]).gate, entries[i])
      ensures forall i :: 0 <= i < |entries| && entries[i].payload.Normal? && entries[i].payload.op.Submit? ==>
                var op := entries[i].payload.op;
                responses[i] == Some(After(old(gate.State()), OpsOf(entries[..i])).Submit(op.id, op.needsApproval).1)
      ensures forall i :: 0 <= i < |entries| && entries[i].payload.Normal? && entries[i].payload.op.Decide? ==>
                var op := entries[i].payload.op;
                responses[i] == Some(After(old(gate.State()), OpsOf(entries[..i])).Decide(op.id, op.approved).1)
      ensures forall i :: 0 <= i < |entries| && (entries[i].payload.Normal? ==> entries[i].payload.op.Cancel?) ==>
                responses[i] == None
    {
      hide Holds;
      hide ApplyEntry;
      hide Response;
      hide View;
      hide GateState.Submit;
      hide GateState.Decide;
      ViewHasGate();
      ghost var start := View();
      responses := [];
      var newest: Option<LogId> := None;
      for i := 0 to |entries|
        invariant gate == old(gate) && Valid() && |responses| == i && fenceSeq <= old(fenceSeq) + i
        invariant View() == ApplyEntries(start, entries[..i])
        invariant newest == if i == 0 then None else Some(entries[i - 1].logId)
        invariant forall k :: 0 <= k < i ==>
                    responses[k] == Response(ApplyEntries(start, entries[..k]).gate, entries[k])
      {
        assert entries[..i + 1][..i] == entries[..i];
        ViewHasGate();
        var response := ApplyOne(entries[i]);
        newest := Some(entries[i].logId);
        responses := responses + [response];
      }
      assert entries[..|entries|] == entries;
      if newest.Some? { SaveApplied(newest); }
      ResponsesAfter(start, entries, responses);
    }

    /** A copy that keeps this moment's position and shares the tree. */
    method GetSnapshotBuilder() returns (builder: SnapshotBuilder)
      ensures fresh(builder) && builder.fences == fences
      ensures builder.lastApplied == lastApplied && builder.membership == membership
    {
      builder := new SnapshotBuilder(fences, lastApplied, membership);
    }

    method BuildSnapshot() returns (s: Snapshot)
      requires Valid()
      ensures s == Build(View())
    {
      var builder := GetSnapshotBuilder();
      s := builder.BuildSnapshot(events);
    }

    /** A builder cloned before a batch and run after it dumps the fences of that batch under its old position. */
    method BuildAround(entries: seq<Entry>) returns (s: Snapshot)
      requires Valid() && fenceSeq + |entries| < U64
      modifies this, fences, gate
      ensures Valid() && View() == ApplyBatch(old(View()), entries) && s == BuildLate(old(View()), entries)
    {
      hide Holds;
      hide ApplyEntries;
      var builder := GetSnapshotBuilder();
      var _ := ApplyToStateMachine(entries);
      s := builder.BuildSnapshot(events);
    }

    /** Clears the tree and records `done` fences again from number 0: all of them, or as far as a crash lets it. */
    method RewriteFences(log: seq<Event>, done: nat)
      requires done <= |log| < U64
      modifies this`fenceSeq, this`events, fences
      ensures fenceSeq == done && events == log[..done] && Holds(fences.entries, events)
    {
      hide RecordCodec.Encode;
      fences.Clear();
      fenceSeq, events := 0, [];
      assert Holds(fences.entries, events);
      hide Holds;
      hide LogKey;
      for i := 0 to done
        invariant fenceSeq == i && events == log[..i] && Holds(fences.entries, events)
      {
        HoldsOneMore(fences.entries, events, log[i]);
        var key := LogKey(fenceSeq);
        fenceSeq := fenceSeq + 1;
        fences.Insert(key, RecordCodec.Encode(log[i]));
        events := events + [log[i]];
        assert log[..i + 1] == log[..i] + [log[i]];
      }
    }

    method InstallSnapshot(s: Snapshot)
      requires Valid() && |s.fences| < U64
      modifies this, fences
      ensures Valid() && fresh(gate) && View() == Install(s)
    {
      hide Holds;
      hide Replayed;
      var rebuilt := new Soundgate.Gate();
      var _ := ReplayInto(rebuilt, s.fences);
      RewriteFences(s.fences, |s.fences|);
      assert s.fences[..|s.fences|] == s.fences;
      gate := rebuilt;
      savedApplied, savedMembership := s.lastLogId, s.membership;
      lastApplied, membership := s.lastLogId, s.membership;
    }
  }

  /** A process that dies inside an installation as DiedInstalling says, and the one started after it. */
  method DieInstalling(store: SoundGateStore, s: Snapshot, kept: nat, applied: bool) returns (next: SoundGateStore)
    requires store.Valid() && |s.fences| < U64
    modifies store, store.fences
    ensures fresh(next) && next.Valid() && next.fences == store.fences
    ensures next.View() == DiedInstalling(old(store.View()), s, kept, applied)
  {
    hide Holds;
    hide Replayed;
    var done := if kept < |s.fences| then kept else |s.fences|;
    store.RewriteFences(s.fences, done);
    assert s.fences[..|s.fences|] == s.fences;
    if done == |s.fences| && applied { store.savedApplied := s.lastLogId; }
    next := new SoundGateStore(store.fences, store.savedApplied, store.savedMembership, store.events);
  }

  function Answered(r: (GateState, Verdict)): (GateState, Option<Verdict>) { (r.0, Some(r.1)) }

  /** What entry `i` of a batch is to be answered after those before it. */
  predicate ResponseRight(g: GateState, entries: seq<Entry>, i: nat, response: Option<Verdict>)
    requires i < |entries|
  {
    var before := After(g, OpsOf(entries[..i]));
    match entries[i].payload
    case Normal(Submit(id, na)) => response == Some(before.Submit(id, na).1)
    case Normal(Decide(id, ap)) => response == Some(before.Decide(id, ap).1)
    case _ => response == None
  }

  lemma ResponseAfter(n: Replica, entries: seq<Entry>, i: nat)
    requires i < |entries|
    ensures ResponseRight(n.gate, entries, i, Response(ApplyEntries(n, entries[..i]).gate, entries[i]))
  {
    EntriesAreOps(n, entries[..i]);
  }

  lemma ResponsesAfter(n: Replica, entries: seq<Entry>, responses: seq<Option<Verdict>>)
    requires |responses| == |entries|
    requires forall i :: 0 <= i < |entries| ==>
               responses[i] == Response(ApplyEntries(n, entries[..i]).gate, entries[i])
    ensures forall i :: 0 <= i < |entries| && entries[i].payload.Normal? && entries[i].payload.op.Submit? ==>
              var op := entries[i].payload.op;
              responses[i] == Some(After(n.gate, OpsOf(entries[..i])).Submit(op.id, op.needsApproval).1)
    ensures forall i :: 0 <= i < |entries| && entries[i].payload.Normal? && entries[i].payload.op.Decide? ==>
              var op := entries[i].payload.op;
              responses[i] == Some(After(n.gate, OpsOf(entries[..i])).Decide(op.id, op.approved).1)
    ensures forall i :: 0 <= i < |entries| && (entries[i].payload.Normal? ==> entries[i].payload.op.Cancel?) ==>
              responses[i] == None
  {
    hide ApplyEntries;
    hide Response;
    hide After;
    hide OpsOf;
    hide GateState.Submit;
    hide GateState.Decide;
    forall i | 0 <= i < |entries| ensures ResponseRight(n.gate, entries, i, responses[i]) {
      ResponseAfter(n, entries, i);
    }
  }

  function Response(g: GateState, e: Entry): Option<Verdict> {
    if e.payload.Normal? then VerdictOf(g, ToOp(e.payload.op)) else None
  }

  /** Reading one more key. */
  lemma EventsUnderMore(entries: map<Key, Value>, keys: seq<Key>, i: nat)
    requires i < |keys| && forall k <- keys :: k in entries
    ensures (forall k <- keys[..i] :: k in entries) && (forall k <- keys[..i + 1] :: k in entries)
    ensures var before, ev := EventsUnder(entries, keys[..i]), RecordCodec.Decode(entries[keys[i]]);
            EventsUnder(entries, keys[..i + 1]) == if ev.Some? then before + [ev.value] else before
  {
    hide RecordCodec.Decode;
    assert keys[..i + 1][..i] == keys[..i];
  }

  lemma NextSeqMore(keys: seq<Key>, i: nat)
    requires i < |keys|
    ensures var before, n := NextSeq(keys[..i]), Number(keys[i]) + 1;
            NextSeq(keys[..i + 1]) == if |keys[i]| == 8 && n > before then n else before
  {
    hide Number;
    assert keys[..i + 1][..i] == keys[..i];
  }

  lemma ReplayedMore(log: seq<Event>, ev: Event)
    ensures Replayed(EMPTY, log + [ev]) == Apply(Replayed(EMPTY, log), ev)
  {
    hide Apply;
    assert (log + [ev])[..|log|] == log;
  }

  /** Replays every value that parses, in key order, and finds the next number to record under. */
  method ReadTree(fences: Tree) returns (gate: Soundgate.Gate, next: nat)
    ensures fresh(gate) && gate.Valid()
    ensures exists keys :: InKeyOrder(fences.entries, keys) && next == NextSeq(keys)
                        && gate.State() == Replayed(EMPTY, EventsUnder(fences.entries, keys))
  {
    hide RecordCodec.Decode;
    hide Apply;
    hide BigEndianBytes.Number;
    gate := new Soundgate.Gate();
    next := 0;
    var keys := fences.Keys();
    assert keys[..0] == [];
    assert gate.State() == Replayed(EMPTY, EventsUnder(fences.entries, keys[..0]));
    assert forall k <- keys :: k in fences.entries;
    hide *;
    for i := 0 to |keys|
      invariant gate.Valid() && fresh(gate) && next == NextSeq(keys[..i])
      invariant forall k <- keys[..i] :: k in fences.entries
      invariant gate.State() == Replayed(EMPTY, EventsUnder(fences.entries, keys[..i]))
    {
      EventsUnderMore(fences.entries, keys, i);
      NextSeqMore(keys, i);
      if |keys[i]| == 8 && Number(keys[i]) + 1 > next { next := Number(keys[i]) + 1; }
      var ev := RecordCodec.Decode(fences.entries[keys[i]]);
      if ev.Some? {
        ReplayedMore(EventsUnder(fences.entries, keys[..i]), ev.value);
        gate.Apply(ev.value);
      }
    }
    assert keys[..|keys|] == keys;
  }

  method DumpTree(fences: Tree) returns (dump: seq<Event>)
    ensures exists keys :: InKeyOrder(fences.entries, keys) && dump == EventsUnder(fences.entries, keys)
  {
    hide RecordCodec.Decode;
    dump := [];
    var keys := fences.Keys();
    for i := 0 to |keys|
      invariant forall k <- keys[..i] :: k in fences.entries
      invariant dump == EventsUnder(fences.entries, keys[..i])
    {
      EventsUnderMore(fences.entries, keys, i);
      var ev := RecordCodec.Decode(fences.entries[keys[i]]);
      if ev.Some? { dump := dump + [ev.value]; }
    }
    assert keys[..|keys|] == keys;
  }
}
