/**
  What holds in every execution of the durable server: the log always covers what was
  acknowledged, a quiet server's log is its gate, and no promise is ever taken back.
 */
module ServerSafety {
  import opened Options
  import opened Texts
  import opened GateModel
  import opened Replay
  import opened Recovery
  import opened Server

  // ---- The invariant, in groups ----

  /** Every event any admission step ever produced. */
  function Ever(seen: seq<Observation>): set<Event> {
    set o <- seen | o.Admission? && o.Event().Some? :: o.Event().value
  }

  /** Admitted events on their way to the disk. */
  function InFlight(s: State): set<Event> {
    EventsIn(s.writing) + EventsIn(s.queue) + UnsentEvents(s.handlers)
  }

  /** The gate's durable state is the meaning of what was recovered and admitted since. */
  ghost predicate GateInv(s: State) {
    if s.up then
      && Inv(s.gate) && s.gate.Durable() == Meaning(s.known)
      && Covers(s.known, s.acked) && s.known <= Ever(s.seen) && Consistent(s.known)
    else s.writing == [] && s.queue == [] && s.handlers == map[] && s.known == {}
  }

  /** The file is a log, at most cut short by a crash; it covers what was acknowledged and invents nothing. */
  ghost predicate DiskInv(s: State) {
    var log := OnDisk(s.file);
    && Recover(s.file) == Recovered(EncodeLog(log), log)
    && (s.up ==> s.file == EncodeLog(log) && Elements(log) <= s.known)
    && Covers(Elements(log), s.acked) && Elements(log) <= Ever(s.seen) && Consistent(Elements(log))
  }

  /** Acknowledged by the time the queue's request `i` is handled. */
  function HandledBefore(s: State, i: nat): set<Event>
    requires i < |s.queue|
  {
    s.acked + EventsIn(s.writing) + EventsIn(s.queue[..i])
  }

  /** Still to be written after the queue's request `i`. */
  function WrittenAfter(s: State, i: nat): set<Event>
    requires i < |s.queue|
  {
    EventsIn(s.queue[i + 1..]) + UnsentEvents(s.handlers)
  }

  /** A queued snapshot covers what is acknowledged before it is swapped in, and loses nothing with what follows it. */
  ghost predicate SnapshotInv(s: State, i: nat)
    requires i < |s.queue| && s.queue[i].Compact?
  {
    var snapshot := Elements(s.queue[i].snapshot);
    && snapshot <= s.known
    && Covers(snapshot, HandledBefore(s, i))
    && Covers(snapshot + WrittenAfter(s, i), s.known)
  }

  ghost predicate QueueInv(s: State) {
    && AllAppends(s.writing)
    && InFlight(s) <= s.known
    && (s.up ==> Covers(Elements(OnDisk(s.file)) + InFlight(s), s.known))
    && forall i :: 0 <= i < |s.queue| && s.queue[i].Compact? ==> SnapshotInv(s, i)
  }

  predicate HandlerOk(s: State, h: nat)
    requires h in s.handlers
  {
    var ev := s.handlers[h].Event();
    && h < s.next
    && (ev.None? ==> s.handlers[h].phase == Ready)
    && (ev.Some? ==> ev.value in s.known && (s.handlers[h].phase == Ready ==> ev.value in s.acked))
  }

  predicate MessageOk(s: State, m: Msg) {
    m.Append? ==>
      && m.handler < s.next
      && (m.handler in s.handlers ==>
        s.handlers[m.handler].Event() == Some(m.ev) && s.handlers[m.handler].phase != Unsent)
  }

  ghost predicate HandlerInv(s: State) {
    && (forall h <- s.handlers :: HandlerOk(s, h))
    && (forall m <- s.writing :: MessageOk(s, m))
    && (forall m <- s.queue :: MessageOk(s, m))
  }

  /** A reply that promises something is sent only for an acknowledged record. */
  predicate Promised(s: State, o: Observation) {
    o.Sent? && o.Event().Some? ==> o.Event().value in s.acked
  }

  /** A reply after which `id` must never be released. */
  predicate Forbids(o: Observation, id: Id) {
    o.Sent? && o.Event().Some? && SettlingEvent(o.Event().value, id)
  }

  predicate Releases(o: Observation, id: Id) { o.Event() == Some(Released(id)) }

  /** No admission step releases what an earlier reply settled. */
  ghost predicate OrderInv(seen: seq<Observation>) {
    forall i, j, id :: 0 <= i < j < |seen| && Forbids(seen[i], id) && seen[j].Admission? ==> !Releases(seen[j], id)
  }

  /** At most one release reply for an identity. */
  ghost predicate OnceInv(seen: seq<Observation>) {
    forall i, j, id ::
      0 <= i < j < |seen| && seen[i].Sent? && seen[j].Sent? && Releases(seen[i], id) ==> !Releases(seen[j], id)
  }

  /** A release not yet replied to is the only one of its identity, and none was replied to before. */
  ghost predicate PendingInv(handlers: map<nat, Handler>, seen: seq<Observation>) {
    && (forall h <- handlers, k <- handlers, id ::
          handlers[h].Event() == Some(Released(id)) && handlers[k].Event() == Some(Released(id)) ==> h == k)
    && (forall h <- handlers, o <- seen, id ::
          handlers[h].Event() == Some(Released(id)) && o.Sent? ==> !Releases(o, id))
  }

  ghost predicate PromiseInv(s: State) { forall o <- s.seen :: Promised(s, o) }

  ghost predicate Safe(s: State) {
    && GateInv(s) && DiskInv(s) && QueueInv(s) && HandlerInv(s)
    && PromiseInv(s) && OrderInv(s.seen) && OnceInv(s.seen) && PendingInv(s.handlers, s.seen)
  }

  // ---- Sets of events in the queue ----

  lemma EventsInConcat(a: seq<Msg>, b: seq<Msg>)
    ensures EventsIn(a + b) == EventsIn(a) + EventsIn(b)
    ensures Writers(a + b) == Writers(a) + Writers(b)
  {
    assert forall m :: m in a + b <==> m in a || m in b;
  }

  lemma EventListElements(msgs: seq<Msg>)
    requires AllAppends(msgs)
    ensures Elements(EventList(msgs)) == EventsIn(msgs)
  {
    var log := EventList(msgs);
    forall ev ensures ev in Elements(log) <==> ev in EventsIn(msgs) {
      if ev in EventsIn(msgs) {
        var m :| m in msgs && m.Append? && m.ev == ev;
        var i :| 0 <= i < |msgs| && msgs[i] == m;
        assert log[i] == ev;
      }
    }
  }

  lemma ElementsConcat(a: seq<Event>, b: seq<Event>)
    ensures Elements(a + b) == Elements(a) + Elements(b)
  {
  }

  lemma CoversMore(a: set<Event>, b: set<Event>, c: set<Event>)
    requires Covers(a, c) && a <= b
    ensures Covers(b, c)
  {
  }

  /** The gate releases only what no known event settles. */
  lemma ReleaseIsFresh(g: GateState, known: set<Event>, req: Request, id: Id, ev: Event)
    requires Inv(g) && g.Durable() == Meaning(known)
    requires EventOf(req, Answer(g, req)) == Some(Released(id)) && SettlingEvent(ev, id)
    ensures !Covered(ev, known)
  {
    assert id !in g.Durable().released && id !in g.Durable().rejected;
    assert Closed(id.0) in known ==> id.0 in Meaning(known).closed;
    assert Cancelled(id.0) in known ==> id.0 in Meaning(known).cancelled;
    assert Released(id) in known && Closed(id.0) !in known ==> id in Meaning(known).released;
    assert Rejected(id) in known && Closed(id.0) !in known ==> id in Meaning(known).rejected;
  }

  lemma AdmittedIsConsistent(g: GateState, known: set<Event>, req: Request)
    requires Inv(g) && g.Durable() == Meaning(known) && Consistent(known)
    ensures var ev := EventOf(req, Answer(g, req));
            Consistent(known + (if ev.Some? then {ev.value} else {}))
  {
    var ev := EventOf(req, Answer(g, req));
    if ev.Some? && ev.value.Released? {
      ReleaseIsFresh(g, known, req, ev.value.id, Rejected(ev.value.id));
    }
    if ev.Some? && ev.value.Rejected? {
      var id := ev.value.id;
      assert id !in g.Durable().released && id.0 !in g.Durable().closed;
      assert Closed(id.0) in known ==> id.0 in Meaning(known).closed;
      assert Released(id) in known && Closed(id.0) !in known ==> id in Meaning(known).released;
    }
  }

  /** `event_for` logs exactly the events of the gate's operations. */
  lemma EventOfIsLogged(g: GateState, req: Request)
    ensures var ev := EventOf(req, Answer(g, req));
            (if ev.Some? then {ev.value} else {}) == (if OpOf(req).Some? then Logged(g, OpOf(req).value) else {})
  {
  }

  lemma EverMore(seen: seq<Observation>, o: Observation)
    ensures Ever(seen + [o]) == Ever(seen) + (if o.Admission? && o.Event().Some? then {o.Event().value} else {})
  {
    assert forall x :: x in seen + [o] <==> x in seen || x == o;
  }

  lemma SnapshotFacts(g: GateState, known: set<Event>, snapshot: seq<Event>)
    requires g.Durable() == Meaning(known) && IsSnapshot(g, snapshot)
    ensures Elements(snapshot) <= known && Covers(Elements(snapshot), known)
  {
    FactsOfMeaning(known);
    assert Facts(g) == Facts(Meaning(known));
  }

  /** A snapshot stays good while less comes before it and all new events come after it. */
  lemma SnapshotStays(s: State, i: nat, t: State, j: nat)
    requires i < |s.queue| && s.queue[i].Compact? && SnapshotInv(s, i)
    requires j < |t.queue| && t.queue[j] == s.queue[i]
    requires HandledBefore(t, j) <= HandledBefore(s, i)
    requires s.known <= t.known && WrittenAfter(s, i) + (t.known - s.known) <= WrittenAfter(t, j)
    ensures SnapshotInv(t, j)
  {
    hide OnDisk;
    hide HandledBefore;
    hide WrittenAfter;
  }

  // ---- The lock section ----

  lemma AdmitKeepsGate(s: State, req: Request, compact: bool, snapshot: seq<Event>)
    requires GateInv(s) && Enabled(s, Admit(req, compact, snapshot))
    ensures GateInv(DoAdmit(s, req, compact, snapshot))
  {
    var t := DoAdmit(s, req, compact, snapshot);
    EventOfIsLogged(s.gate, req);
    if OpOf(req).Some? {
      InvKept(s.gate, OpOf(req).value);
      LoggedKeepsMeaning(s.gate, OpOf(req).value, s.known);
    } else {
      assert t.known == s.known;
    }
    CoversMore(s.known, t.known, s.acked);
    AdmittedIsConsistent(s.gate, s.known, req);
    EverMore(s.seen, Admission(req, Answer(s.gate, req)));
  }

  lemma AdmittedEvents(s: State, req: Request, compact: bool, snapshot: seq<Event>)
    requires HandlerInv(s)
    ensures var t := DoAdmit(s, req, compact, snapshot);
            var ev := EventOf(req, Answer(s.gate, req));
            var added := if ev.Some? then {ev.value} else {};
            && UnsentEvents(t.handlers) == UnsentEvents(s.handlers) + added
            && EventsIn(t.queue) == EventsIn(s.queue)
            && t.known == s.known + added
  {
    var t := DoAdmit(s, req, compact, snapshot);
    assert forall h <- s.handlers :: HandlerOk(s, h) && h != s.next;
    assert forall h <- s.handlers :: h in t.handlers && t.handlers[h] == s.handlers[h];
    assert s.next in t.handlers;
    EventsInConcat(s.queue, [Compact(snapshot)]);
  }

  lemma OldSnapshotKept(s: State, req: Request, compact: bool, snapshot: seq<Event>, i: nat)
    requires QueueInv(s) && HandlerInv(s) && i < |s.queue| && s.queue[i].Compact?
    ensures SnapshotInv(DoAdmit(s, req, compact, snapshot), i)
  {
    hide SnapshotInv;
    hide Recover;
    hide EncodeLog;
    hide OnDisk;
    hide Answer;
    hide EventOf;
    hide GateAfter;
    var t := DoAdmit(s, req, compact, snapshot);
    AdmittedEvents(s, req, compact, snapshot);
    assert t.queue[..i] == s.queue[..i];
    EventsInConcat(s.queue[i + 1..], t.queue[|s.queue|..]);
    assert t.queue[i + 1..] == s.queue[i + 1..] + t.queue[|s.queue|..];
    SnapshotStays(s, i, t, i);
  }

  lemma NewSnapshotOk(t: State, i: nat)
    requires i < |t.queue| && t.queue[i].Compact? && IsSnapshot(t.gate, t.queue[i].snapshot)
    requires GateInv(t) && t.up && EventsIn(t.writing) + EventsIn(t.queue[..i]) <= t.known
    ensures SnapshotInv(t, i)
  {
    var snapshot := Elements(t.queue[i].snapshot);
    SnapshotFacts(t.gate, t.known, t.queue[i].snapshot);
    assert Covers(t.known, HandledBefore(t, i));
    CoversTransitive(snapshot, t.known, HandledBefore(t, i));
    CoversMore(snapshot, snapshot + WrittenAfter(t, i), t.known);
  }

  lemma AdmitKeepsQueue(s: State, req: Request, compact: bool, snapshot: seq<Event>)
    requires GateInv(s) && QueueInv(s) && HandlerInv(s) && Enabled(s, Admit(req, compact, snapshot))
    ensures QueueInv(DoAdmit(s, req, compact, snapshot))
  {
    hide OnDisk;
    hide SnapshotInv;
    hide GateInv;
    var t := DoAdmit(s, req, compact, snapshot);
    AdmittedEvents(s, req, compact, snapshot);
    AdmitKeepsGate(s, req, compact, snapshot);
    forall i | 0 <= i < |t.queue| && t.queue[i].Compact? ensures SnapshotInv(t, i) {
      if i < |s.queue| {
        OldSnapshotKept(s, req, compact, snapshot, i);
      } else {
        assert t.queue[..i] == s.queue;
        NewSnapshotOk(t, i);
      }
    }
  }

  lemma AdmitKeepsHandlers(s: State, req: Request, compact: bool, snapshot: seq<Event>)
    requires HandlerInv(s) && PromiseInv(s)
    ensures var t := DoAdmit(s, req, compact, snapshot); HandlerInv(t) && PromiseInv(t)
  {
    var t := DoAdmit(s, req, compact, snapshot);
    forall h <- t.handlers ensures HandlerOk(t, h) {
      if h != s.next { assert HandlerOk(s, h); }
    }
    forall m <- t.queue ensures MessageOk(t, m) {
      if m in s.queue { assert MessageOk(s, m); }
    }
    forall m <- t.writing ensures MessageOk(t, m) { assert MessageOk(s, m); }
    forall o <- t.seen ensures Promised(t, o) {
      if o in s.seen { assert Promised(s, o); }
    }
  }

  /** What the lock section releases, no earlier reply forbids and no other handler holds. */
  lemma AdmitReleasesFresh(s: State, req: Request, id: Id)
    requires Safe(s) && s.up && EventOf(req, Answer(s.gate, req)) == Some(Released(id))
    ensures forall o <- s.seen :: !Forbids(o, id)
    ensures forall h <- s.handlers :: s.handlers[h].Event() != Some(Released(id))
  {
    hide OnDisk;
    forall o <- s.seen ensures !Forbids(o, id) {
      assert Promised(s, o);
      if Forbids(o, id) { ReleaseIsFresh(s.gate, s.known, req, id, o.Event().value); }
    }
    forall h <- s.handlers ensures s.handlers[h].Event() != Some(Released(id)) {
      assert HandlerOk(s, h);
      ReleaseIsFresh(s.gate, s.known, req, id, Released(id));
    }
  }

  lemma OneMoreAdmission(seen: seq<Observation>, o: Observation)
    requires OrderInv(seen) && OnceInv(seen) && o.Admission?
    requires forall x <- seen, id :: Releases(o, id) ==> !Forbids(x, id)
    ensures OrderInv(seen + [o]) && OnceInv(seen + [o])
  {
    var more := seen + [o];
    assert forall i :: 0 <= i < |seen| ==> more[i] == seen[i] && seen[i] in seen;
  }

  lemma OneMoreHandler(handlers: map<nat, Handler>, seen: seq<Observation>, n: nat, handler: Handler, o: Observation)
    requires PendingInv(handlers, seen) && n !in handlers && o.Admission?
    requires forall id | handler.Event() == Some(Released(id)) ::
               && (forall x <- seen :: !Forbids(x, id))
               && (forall h <- handlers :: handlers[h].Event() != Some(Released(id)))
    ensures PendingInv(handlers[n := handler], seen + [o])
  {
    hide EventOf;
    var more := seen + [o];
    assert forall x <- more :: x.Sent? ==> x in seen;
    assert forall x: Observation, id :: x.Sent? && Releases(x, id) ==> Forbids(x, id);
  }

  lemma AdmitKeepsOrder(s: State, req: Request, compact: bool, snapshot: seq<Event>)
    requires Safe(s) && s.up
    ensures var t := DoAdmit(s, req, compact, snapshot);
            OrderInv(t.seen) && OnceInv(t.seen) && PendingInv(t.handlers, t.seen)
  {
    hide OnDisk;
    hide OrderInv;
    hide OnceInv;
    hide PendingInv;
    hide Answer;
    hide EventOf;
    var t := DoAdmit(s, req, compact, snapshot);
    var o := Admission(req, Answer(s.gate, req));
    forall id | Releases(o, id)
      ensures (forall x <- s.seen :: !Forbids(x, id))
      ensures forall h <- s.handlers :: s.handlers[h].Event() != Some(Released(id))
    {
      AdmitReleasesFresh(s, req, id);
    }
    OneMoreAdmission(s.seen, o);
    NextIsNew(s);
    OneMoreHandler(s.handlers, s.seen, s.next, t.handlers[s.next], o);
  }

  lemma NextIsNew(s: State)
    requires HandlerInv(s)
    ensures s.next !in s.handlers
  {
    forall h <- s.handlers ensures h != s.next { assert HandlerOk(s, h); }
  }

  lemma AdmitIsSafe(s: State, req: Request, compact: bool, snapshot: seq<Event>)
    requires Safe(s) && Enabled(s, Admit(req, compact, snapshot))
    ensures Safe(DoAdmit(s, req, compact, snapshot))
  {
    hide OnDisk;
    AdmitKeepsGate(s, req, compact, snapshot);
    AdmitKeepsQueue(s, req, compact, snapshot);
    AdmitKeepsHandlers(s, req, compact, snapshot);
    AdmitKeepsOrder(s, req, compact, snapshot);
    EverMore(s.seen, Admission(req, Answer(s.gate, req)));
  }

  // ---- Queueing a decided event ----

  lemma SendMovesEvent(s: State, h: nat)
    requires Enabled(s, Send(h))
    ensures var t := DoSend(s, h);
            && UnsentEvents(t.handlers) + {s.handlers[h].Event().value} == UnsentEvents(s.handlers)
            && EventsIn(t.queue) == EventsIn(s.queue) + {s.handlers[h].Event().value}
  {
    var t := DoSend(s, h);
    var ev := s.handlers[h].Event().value;
    EventsInConcat(s.queue, [Append(ev, h)]);
    assert EventsIn([Append(ev, h)]) == {ev} by { assert Append(ev, h) in [Append(ev, h)]; }
    forall e ensures e in UnsentEvents(t.handlers) + {ev} <==> e in UnsentEvents(s.handlers) {
      if e in UnsentEvents(s.handlers) && e != ev {
        var k :| k in s.handlers && s.handlers[k].phase == Unsent && s.handlers[k].Event() == Some(e);
        assert k in t.handlers && t.handlers[k] == s.handlers[k];
      }
    }
  }

  lemma SendKeepsSnapshot(s: State, h: nat, i: nat)
    requires Enabled(s, Send(h)) && i < |s.queue| && s.queue[i].Compact? && SnapshotInv(s, i)
    ensures SnapshotInv(DoSend(s, h), i)
  {
    hide OnDisk;
    hide EventOf;
    hide SnapshotInv;
    var t := DoSend(s, h);
    var more := [Append(s.handlers[h].Event().value, h)];
    SendMovesEvent(s, h);
    EventsInConcat(s.queue[i + 1..], more);
    assert more[0] in more;
    assert t.queue[..i] == s.queue[..i];
    assert t.queue[i + 1..] == s.queue[i + 1..] + more;
    SnapshotStays(s, i, t, i);
  }

  lemma SendKeepsQueue(s: State, h: nat)
    requires QueueInv(s) && Enabled(s, Send(h))
    ensures QueueInv(DoSend(s, h))
  {
    hide OnDisk;
    hide EventOf;
    var t := DoSend(s, h);
    SendMovesEvent(s, h);
    assert InFlight(t) == InFlight(s);
    hide SnapshotInv;
    forall i | 0 <= i < |t.queue| && t.queue[i].Compact? ensures SnapshotInv(t, i) {
      SendKeepsSnapshot(s, h, i);
    }
  }

  lemma SendKeepsHandlers(s: State, h: nat)
    requires HandlerInv(s) && PendingInv(s.handlers, s.seen) && Enabled(s, Send(h))
    ensures var t := DoSend(s, h); HandlerInv(t) && PendingInv(t.handlers, t.seen)
  {
    hide EventOf;
    var t := DoSend(s, h);
    forall k <- t.handlers ensures HandlerOk(t, k) { assert HandlerOk(s, k); }
    forall m <- t.queue ensures MessageOk(t, m) {
      if m in s.queue { assert MessageOk(s, m); }
    }
    forall m <- t.writing ensures MessageOk(t, m) { assert MessageOk(s, m); }
  }

  lemma SendIsSafe(s: State, h: nat)
    requires Safe(s) && Enabled(s, Send(h))
    ensures Safe(DoSend(s, h))
  {
    hide OnDisk;
    SendKeepsQueue(s, h);
    SendKeepsHandlers(s, h);
    assert forall o <- s.seen :: Promised(s, o) ==> Promised(DoSend(s, h), o);
  }

  // ---- The writer ----

  lemma StartKeepsQueue(s: State, n: nat)
    requires QueueInv(s) && Enabled(s, StartBatch(n))
    ensures QueueInv(Do(s, StartBatch(n)))
  {
    hide Recover;
    hide EncodeLog;
    hide OnDisk;
    var t := Do(s, StartBatch(n));
    assert s.queue == t.writing + t.queue;
    EventsInConcat(t.writing, t.queue);
    assert EventsIn(s.writing) == {};
    assert InFlight(t) == InFlight(s);
    forall i | 0 <= i < |t.queue| && t.queue[i].Compact? ensures SnapshotInv(t, i) {
      StartKeepsSnapshot(s, n, i);
    }
  }

  lemma StartKeepsSnapshot(s: State, n: nat, i: nat)
    requires QueueInv(s) && Enabled(s, StartBatch(n))
    requires i < |s.queue[n..]| && s.queue[n..][i].Compact?
    ensures SnapshotInv(Do(s, StartBatch(n)), i)
  {
    hide SnapshotInv;
    hide Recover;
    hide EncodeLog;
    hide OnDisk;
    var t := Do(s, StartBatch(n));
    assert EventsIn(s.writing) == {};
    assert s.queue[..n + i] == t.writing + t.queue[..i];
    EventsInConcat(t.writing, t.queue[..i]);
    assert s.queue[n + i + 1..] == t.queue[i + 1..];
    SnapshotStays(s, n + i, t, i);
  }

  lemma StartBatchIsSafe(s: State, n: nat)
    requires Safe(s) && Enabled(s, StartBatch(n))
    ensures Safe(Do(s, StartBatch(n)))
  {
    hide Recover;
    hide EncodeLog;
    var t := Do(s, StartBatch(n));
    StartKeepsQueue(s, n);
    hide OnDisk;
    hide QueueInv;
    forall h <- t.handlers ensures HandlerOk(t, h) { assert HandlerOk(s, h); }
    forall m <- t.queue ensures MessageOk(t, m) { assert m in s.queue && MessageOk(s, m); }
    forall m <- t.writing ensures MessageOk(t, m) { assert m in s.queue && MessageOk(s, m); }
    forall o <- t.seen ensures Promised(t, o) { assert Promised(s, o); }
  }

  lemma FinishKeepsDisk(s: State)
    requires GateInv(s) && DiskInv(s) && QueueInv(s) && Enabled(s, FinishBatch)
    ensures var t := DoFinishBatch(s);
            DiskInv(t) && GateInv(t) && Elements(OnDisk(t.file)) == Elements(OnDisk(s.file)) + EventsIn(s.writing)
  {
    hide EncodeLog;
    hide Recover;
    var log, batch := OnDisk(s.file), EventList(s.writing);
    EncodeLogConcat(log, batch);
    RecoverWholeLog(log + batch);
    ElementsConcat(log, batch);
    EventListElements(s.writing);
  }

  lemma FinishKeepsUnsent(s: State)
    requires HandlerInv(s) && Enabled(s, FinishBatch)
    ensures UnsentEvents(DoFinishBatch(s).handlers) == UnsentEvents(s.handlers)
  {
    hide EventOf;
    hide EncodeLog;
    var t := DoFinishBatch(s);
    forall m <- s.writing | m.Append? && m.handler in s.handlers
      ensures s.handlers[m.handler].phase != Unsent
    {
      assert MessageOk(s, m);
    }
    assert forall h <- s.handlers :: s.handlers[h].phase == Unsent ==> t.handlers[h] == s.handlers[h];
  }

  lemma FinishKeepsSnapshot(s: State, i: nat)
    requires QueueInv(s) && HandlerInv(s) && Enabled(s, FinishBatch)
    requires i < |s.queue| && s.queue[i].Compact?
    ensures SnapshotInv(DoFinishBatch(s), i)
  {
    hide SnapshotInv;
    FinishKeepsUnsent(s);
    hide OnDisk;
    hide EncodeLog;
    hide UnsentEvents;
    var t := DoFinishBatch(s);
    assert EventsIn(t.writing) == {};
    SnapshotStays(s, i, t, i);
  }

  /** The batch moves from the queue's side to the disk's side. */
  lemma FinishMovesEvents(s: State, t: State)
    requires t.writing == [] && t.queue == s.queue
    requires Elements(OnDisk(t.file)) == Elements(OnDisk(s.file)) + EventsIn(s.writing)
    requires UnsentEvents(t.handlers) == UnsentEvents(s.handlers)
    ensures Elements(OnDisk(t.file)) + InFlight(t) == Elements(OnDisk(s.file)) + InFlight(s)
    ensures InFlight(t) <= InFlight(s)
  {
    hide OnDisk;
    hide UnsentEvents;
    assert EventsIn(t.writing) == {};
  }

  lemma StillQueued(s: State, t: State)
    requires QueueInv(s) && t.writing == [] && t.queue == s.queue && t.known == s.known && t.up == s.up
    requires InFlight(t) <= InFlight(s)
    requires Elements(OnDisk(t.file)) + InFlight(t) == Elements(OnDisk(s.file)) + InFlight(s)
    requires forall i :: 0 <= i < |t.queue| && t.queue[i].Compact? ==> SnapshotInv(t, i)
    ensures QueueInv(t)
  {
    hide OnDisk;
    hide InFlight;
    hide SnapshotInv;
  }

  lemma FinishKeepsQueue(s: State)
    requires GateInv(s) && DiskInv(s) && QueueInv(s) && HandlerInv(s) && Enabled(s, FinishBatch)
    ensures QueueInv(DoFinishBatch(s))
  {
    hide *;
    FinishedFields(s);
    var t := DoFinishBatch(s);
    FinishKeepsDisk(s);
    FinishKeepsUnsent(s);
    FinishMovesEvents(s, t);
    forall i | 0 <= i < |t.queue| && t.queue[i].Compact? ensures SnapshotInv(t, i) {
      FinishKeepsSnapshot(s, i);
    }
    StillQueued(s, t);
  }

  lemma FinishedFields(s: State)
    requires Enabled(s, FinishBatch)
    ensures AllAppends(s.writing)
    ensures var t := DoFinishBatch(s);
            t.writing == [] && t.queue == s.queue && t.known == s.known && t.up == s.up
  {
  }

  lemma FinishKeepsHandler(s: State, h: nat)
    requires HandlerInv(s) && Enabled(s, FinishBatch) && h in s.handlers
    ensures HandlerOk(DoFinishBatch(s), h)
  {
    hide Recover;
    hide EventOf;
    hide EncodeLog;
    assert HandlerOk(s, h);
    if h in Writers(s.writing) {
      var m :| m in s.writing && m.Append? && m.handler == h;
      assert MessageOk(s, m) && m.ev in EventsIn(s.writing);
    }
  }

  lemma FinishKeepsMessage(s: State, m: Msg)
    requires Enabled(s, FinishBatch) && MessageOk(s, m)
    ensures MessageOk(DoFinishBatch(s), m)
  {
    hide Recover;
    hide EventOf;
    hide EncodeLog;
  }

  /** The acknowledged handlers still hold what they held. */
  lemma FinishKeepsPending(s: State)
    requires PendingInv(s.handlers, s.seen) && Enabled(s, FinishBatch)
    ensures var t := DoFinishBatch(s); PendingInv(t.handlers, t.seen)
  {
    hide Recover;
    hide EventOf;
    hide EncodeLog;
    hide Writers;
    assert forall h <- s.handlers :: DoFinishBatch(s).handlers[h].Event() == s.handlers[h].Event();
  }

  lemma FinishKeepsHandlers(s: State)
    requires QueueInv(s) && HandlerInv(s) && PendingInv(s.handlers, s.seen) && PromiseInv(s) && Enabled(s, FinishBatch)
    ensures var t := DoFinishBatch(s); HandlerInv(t) && PendingInv(t.handlers, t.seen) && PromiseInv(t)
  {
    hide Recover;
    hide EventOf;
    hide EncodeLog;
    hide QueueInv;
    hide PendingInv;
    hide HandlerOk;
    hide MessageOk;
    var t := DoFinishBatch(s);
    FinishKeepsPending(s);
    forall h <- t.handlers ensures HandlerOk(t, h) { FinishKeepsHandler(s, h); }
    forall m <- t.queue ensures MessageOk(t, m) { FinishKeepsMessage(s, m); }
    forall o <- t.seen ensures Promised(t, o) { assert Promised(s, o); }
  }

  lemma FinishBatchIsSafe(s: State)
    requires Safe(s) && Enabled(s, FinishBatch)
    ensures Safe(DoFinishBatch(s))
  {
    hide OnDisk;
    FinishKeepsDisk(s);
    FinishKeepsQueue(s);
    FinishKeepsHandlers(s);
  }

  /** The snapshots further back are as good once the first request is gone. */
  lemma SnapshotsBehind(s: State, t: State, i: nat)
    requires QueueInv(s) && s.queue != [] && s.queue[0].Compact?
    requires t == s.(queue := s.queue[1..], file := t.file) && i < |t.queue| && t.queue[i].Compact?
    ensures SnapshotInv(t, i)
  {
    hide SnapshotInv;
    hide Recover;
    hide EncodeLog;
    hide OnDisk;
    assert s.queue[..i + 1] == [s.queue[0]] + t.queue[..i];
    EventsInConcat([s.queue[0]], t.queue[..i]);
    assert s.queue[i + 2..] == t.queue[i + 1..];
    SnapshotStays(s, i + 1, t, i);
  }

  lemma CompactionTaken(s: State, t: State)
    requires QueueInv(s) && HandlerInv(s) && PromiseInv(s) && s.queue != [] && s.queue[0].Compact?
    requires t == s.(queue := s.queue[1..], file := t.file)
    ensures EventsIn(t.queue) == EventsIn(s.queue) && InFlight(t) == InFlight(s)
    ensures HandlerInv(t) && PromiseInv(t)
    ensures forall i :: 0 <= i < |t.queue| && t.queue[i].Compact? ==> SnapshotInv(t, i)
  {
    hide OnDisk;
    hide SnapshotInv;
    assert s.queue == [s.queue[0]] + t.queue;
    EventsInConcat([s.queue[0]], t.queue);
    assert EventsIn([s.queue[0]]) == {};
    forall h <- t.handlers ensures HandlerOk(t, h) { assert HandlerOk(s, h); }
    forall m <- t.queue ensures MessageOk(t, m) { assert m in s.queue && MessageOk(s, m); }
    forall m <- t.writing ensures MessageOk(t, m) { assert MessageOk(s, m); }
    forall o <- t.seen ensures Promised(t, o) { assert Promised(s, o); }
    forall i | 0 <= i < |t.queue| && t.queue[i].Compact? ensures SnapshotInv(t, i) {
      SnapshotsBehind(s, t, i);
    }
  }

  /** The snapshot at the head of the queue may replace the file. */
  lemma SwapKeepsDisk(s: State, snapshot: seq<Event>)
    requires GateInv(s) && DiskInv(s) && QueueInv(s) && s.up && s.writing == []
    requires s.queue != [] && s.queue[0] == Compact(snapshot)
    ensures OnDisk(EncodeLog(snapshot)) == snapshot
    ensures DiskInv(s.(file := EncodeLog(snapshot)))
    ensures Covers(Elements(snapshot) + InFlight(s), s.known)
  {
    hide EncodeLog;
    hide Recover;
    RecoverWholeLog(snapshot);
    assert SnapshotInv(s, 0);
    assert EventsIn(s.queue[..0]) == {} && EventsIn(s.writing) == {};
    assert s.queue == [s.queue[0]] + s.queue[1..];
    EventsInConcat([s.queue[0]], s.queue[1..]);
  }

  lemma SwapIsSafe(s: State)
    requires Safe(s) && Enabled(s, Swap)
    ensures Safe(s.(file := EncodeLog(s.queue[0].snapshot), queue := s.queue[1..]))
  {
    hide EncodeLog;
    hide Recover;
    var t := s.(file := EncodeLog(s.queue[0].snapshot), queue := s.queue[1..]);
    SwapKeepsDisk(s, s.queue[0].snapshot);
    CompactionTaken(s, t);
    hide OnDisk;
    assert DiskInv(t);
  }

  lemma KeepOldIsSafe(s: State)
    requires Safe(s) && Enabled(s, KeepOld)
    ensures Safe(s.(queue := s.queue[1..]))
  {
    hide EncodeLog;
    hide Recover;
    hide OnDisk;
    CompactionTaken(s, s.(queue := s.queue[1..]));
  }

  // ---- Replies ----

  lemma RespondKeepsQueue(s: State, h: nat, delivered: bool)
    requires QueueInv(s) && Enabled(s, Respond(h, delivered))
    ensures QueueInv(DoRespond(s, h, delivered))
  {
    hide OnDisk;
    hide EventOf;
    var t := DoRespond(s, h, delivered);
    forall ev ensures ev in UnsentEvents(t.handlers) <==> ev in UnsentEvents(s.handlers) {
      if ev in UnsentEvents(s.handlers) {
        var k :| k in s.handlers && s.handlers[k].phase == Unsent && s.handlers[k].Event() == Some(ev);
        assert k in t.handlers && t.handlers[k] == s.handlers[k];
      }
    }
    assert InFlight(t) == InFlight(s);
    forall i | 0 <= i < |t.queue| && t.queue[i].Compact? ensures SnapshotInv(t, i) {
      SnapshotStays(s, i, t, i);
    }
  }

  lemma RespondKeepsHandlers(s: State, h: nat, delivered: bool)
    requires HandlerInv(s) && PromiseInv(s) && Enabled(s, Respond(h, delivered))
    ensures var t := DoRespond(s, h, delivered); HandlerInv(t) && PromiseInv(t)
  {
    hide EventOf;
    var t := DoRespond(s, h, delivered);
    forall k <- t.handlers ensures HandlerOk(t, k) { assert HandlerOk(s, k); }
    forall m <- t.queue ensures MessageOk(t, m) { assert MessageOk(s, m); }
    forall m <- t.writing ensures MessageOk(t, m) { assert MessageOk(s, m); }
    assert HandlerOk(s, h);
    forall x <- t.seen ensures Promised(t, x) {
      if x in s.seen { assert Promised(s, x); }
    }
  }

  lemma RespondKeepsOrder(s: State, h: nat, delivered: bool)
    requires OrderInv(s.seen) && OnceInv(s.seen) && PendingInv(s.handlers, s.seen)
    requires Enabled(s, Respond(h, delivered))
    ensures var t := DoRespond(s, h, delivered);
            OrderInv(t.seen) && OnceInv(t.seen) && PendingInv(t.handlers, t.seen)
  {
    hide EventOf;
    var t := DoRespond(s, h, delivered);
    var n := |s.seen|;
    assert forall i :: 0 <= i < n ==> t.seen[i] == s.seen[i] && s.seen[i] in s.seen;
    assert forall x <- t.seen :: x in s.seen || x == t.seen[n];
  }

  lemma RespondIsSafe(s: State, h: nat, delivered: bool)
    requires Safe(s) && Enabled(s, Respond(h, delivered))
    ensures Safe(DoRespond(s, h, delivered))
  {
    hide Recover;
    hide EncodeLog;
    RespondKeepsQueue(s, h, delivered);
    RespondKeepsHandlers(s, h, delivered);
    RespondKeepsOrder(s, h, delivered);
    EverMore(s.seen, Sent(s.handlers[h].req, s.handlers[h].reply));
    hide OnDisk;
    hide EventOf;
  }

  // ---- Crashes and restarts ----

  lemma CrashKeepsDisk(s: State, cut: nat)
    requires GateInv(s) && DiskInv(s) && QueueInv(s) && Enabled(s, Crash(cut))
    ensures DiskInv(Do(s, Crash(cut)))
  {
    hide EncodeLog;
    hide Recover;
    var log, batch := OnDisk(s.file), EventList(s.writing);
    RecoverTornAppend(log, batch, cut);
    var kept := log + batch[..Whole(batch, cut)];
    EventListElements(s.writing);
    ElementsConcat(log, batch[..Whole(batch, cut)]);
    assert Elements(batch[..Whole(batch, cut)]) <= Elements(batch);
  }

  lemma DownIsSafe(s: State, file: seq<Byte>)
    requires Safe(s) && DiskInv(Down(s, file))
    ensures Safe(Down(s, file))
  {
    hide OnDisk;
    hide Recover;
    hide EncodeLog;
    var t := Down(s, file);
    assert UnsentEvents(t.handlers) == {};
    forall o <- t.seen ensures Promised(t, o) { assert Promised(s, o); }
  }

  lemma RestartReadsTheLog(s: State, snapshot: seq<Event>)
    requires DiskInv(s) && Recover(s.file).Recovered?
    ensures var t, log := DoRestart(s, snapshot), OnDisk(s.file);
            && t.up && t.gate == Replayed(EMPTY, log) && t.known == Elements(log)
            && (t.file == EncodeLog(log) || t.file == EncodeLog(snapshot))
            && t.acked == s.acked && t.seen == s.seen
  {
    hide EncodeLog;
    hide Recover;
    hide Replayed;
  }

  /** A log without a close is kept byte for byte after its repair; any other is replaced by the snapshot. */
  lemma RestartCompactsClosedLogs(s: State, snapshot: seq<Event>)
    requires DiskInv(s) && Recover(s.file).Recovered?
    ensures var t, log := DoRestart(s, snapshot), OnDisk(s.file);
            && ((exists r :: Closed(r) in log) ==> t.file == EncodeLog(snapshot))
            && ((forall r :: Closed(r) !in log) ==> t.file == Recover(s.file).file == EncodeLog(log))
  {
    hide EncodeLog;
    hide Recover;
    hide Replayed;
    var log := OnDisk(s.file);
    if r :| Closed(r) in log {
      assert IsClosed(Closed(r));
    } else {
      assert forall ev: Event :: IsClosed(ev) ==> ev == Closed(ev.run);
    }
  }

  lemma RestartKeepsDisk(s: State, snapshot: seq<Event>)
    requires Safe(s) && Enabled(s, Restart(snapshot))
    ensures var t := DoRestart(s, snapshot); GateInv(t) && DiskInv(t) && Covers(Elements(OnDisk(t.file)), t.known)
  {
    hide EncodeLog;
    hide Recover;
    hide Replayed;
    var log, t := OnDisk(s.file), DoRestart(s, snapshot);
    RestartReadsTheLog(s, snapshot);
    hide DoRestart;
    ReplayIsMeaning(log);
    MeaningIsInv(Elements(log));
    SnapshotFacts(t.gate, t.known, snapshot);
    RecoverWholeLog(log);
    RecoverWholeLog(snapshot);
    CoversTransitive(Elements(snapshot), t.known, t.acked);
  }

  lemma JustStarted(t: State)
    requires t.writing == [] && t.queue == [] && t.handlers == map[]
    requires Covers(Elements(OnDisk(t.file)), t.known)
    ensures QueueInv(t) && HandlerInv(t) && PendingInv(t.handlers, t.seen)
  {
    hide OnDisk;
    assert InFlight(t) == {};
    CoversMore(Elements(OnDisk(t.file)), Elements(OnDisk(t.file)) + InFlight(t), t.known);
  }

  lemma SafeMeans(s: State)
    ensures Safe(s) <==>
              && GateInv(s) && DiskInv(s) && QueueInv(s) && HandlerInv(s)
              && PromiseInv(s) && OrderInv(s.seen) && OnceInv(s.seen) && PendingInv(s.handlers, s.seen)
  {
    hide OnDisk;
    hide GateInv;
    hide DiskInv;
    hide QueueInv;
    hide HandlerInv;
    hide PendingInv;
  }

  lemma SamePromises(s: State, t: State)
    requires PromiseInv(s) && t.seen == s.seen && t.acked == s.acked
    ensures PromiseInv(t)
  {
    hide EventOf;
    forall o <- t.seen ensures Promised(t, o) { assert Promised(s, o); }
  }

  lemma RestartStartsFresh(s: State, snapshot: seq<Event>)
    requires GateInv(s) && Enabled(s, Restart(snapshot))
    ensures var t := DoRestart(s, snapshot); t.writing == [] && t.queue == [] && t.handlers == map[]
    ensures Recover(s.file).Recovered?
  {
    hide Recover;
    hide EncodeLog;
    hide Replayed;
    hide IsSnapshot;
  }

  lemma RestartIsSafe(s: State, snapshot: seq<Event>)
    requires Safe(s) && Enabled(s, Restart(snapshot))
    ensures Safe(DoRestart(s, snapshot))
  {
    hide *;
    SafeMeans(s);
    RestartStartsFresh(s, snapshot);
    var t := DoRestart(s, snapshot);
    RestartKeepsDisk(s, snapshot);
    RestartReadsTheLog(s, snapshot);
    JustStarted(t);
    SamePromises(s, t);
    SafeMeans(t);
  }

  lemma RepairIsSafe(s: State)
    requires Safe(s) && Enabled(s, Repair)
    ensures Safe(Do(s, Repair))
  {
    hide EncodeLog;
    hide Recover;
    RecoverWholeLog(OnDisk(s.file));
    forall o <- s.seen ensures Promised(Do(s, Repair), o) { assert Promised(s, o); }
  }

  // ---- Every execution ----

  lemma StepIsSafe(s: State, a: Action)
    requires Safe(s) && Enabled(s, a)
    ensures Safe(Do(s, a))
  {
    hide Safe;
    match a {
      case Admit(req, compact, snapshot) => AdmitIsSafe(s, req, compact, snapshot);
      case Send(h) => SendIsSafe(s, h);
      case StartBatch(n) => StartBatchIsSafe(s, n);
      case FinishBatch => FinishBatchIsSafe(s);
      case Swap => SwapIsSafe(s);
      case KeepOld => KeepOldIsSafe(s);
      case Respond(h, delivered) => RespondIsSafe(s, h, delivered);
      case Crash(cut) => CrashIsSafe(s, cut);
      case CrashAfterSwap => CrashAfterSwapIsSafe(s);
      case Repair => RepairIsSafe(s);
      case Restart(snapshot) => RestartIsSafe(s, snapshot);
    }
  }

  lemma CrashIsSafe(s: State, cut: nat)
    requires Safe(s) && Enabled(s, Crash(cut))
    ensures Safe(Do(s, Crash(cut)))
  {
    CrashKeepsDisk(s, cut);
    DownIsSafe(s, Do(s, Crash(cut)).file);
  }

  lemma CrashAfterSwapIsSafe(s: State)
    requires Safe(s) && Enabled(s, CrashAfterSwap)
    ensures Safe(Do(s, CrashAfterSwap))
  {
    SwapKeepsDisk(s, s.queue[0].snapshot);
    DownIsSafe(s, EncodeLog(s.queue[0].snapshot));
  }

  lemma InitialIsSafe()
    ensures Safe(INITIAL)
  {
    RecoverWholeLog([]);
    assert Elements([]) == {};
    assert EventsIn([]) == {} && UnsentEvents(map[]) == {};
  }

  lemma {:induction false} AlwaysSafe(actions: seq<Action>)
    requires Possible(actions)
    ensures Safe(Execute(actions))
    decreases |actions|
  {
    hide Safe;
    if actions == [] {
      InitialIsSafe();
    } else {
      var m := |actions| - 1;
      AlwaysSafe(actions[..m]);
      StepIsSafe(Execute(actions[..m]), actions[m]);
    }
  }

  /** Across crashes, restarts and compactions an identity gets at most one `release` reply. */
  lemma OneReleaseReply(actions: seq<Action>, i: nat, j: nat, id: Id)
    requires Possible(actions)
    requires i < |Execute(actions).seen| && j < |Execute(actions).seen|
    requires var a, b := Execute(actions).seen[i], Execute(actions).seen[j];
             a.Sent? && b.Sent? && a.reply == b.reply == Told(Release) && Releases(a, id) && Releases(b, id)
    ensures i == j
  {
    AlwaysSafe(actions);
    hide OnDisk;
    var seen := Execute(actions).seen;
    assert OnceInv(seen);
  }

  /**
    After the release reply of an identity, the `refused_rejected` reply of its decide, or the
    `ack` of its run's cancel or close, no admission step ever releases it.
   */
  lemma PromisesAreKept(actions: seq<Action>, i: nat, j: nat, id: Id)
    requires Possible(actions)
    requires i < j < |Execute(actions).seen|
    requires Forbids(Execute(actions).seen[i], id)
    requires Execute(actions).seen[j].Admission?
    ensures !Releases(Execute(actions).seen[j], id)
  {
    AlwaysSafe(actions);
    hide OnDisk;
    assert OrderInv(Execute(actions).seen);
  }

  /**
    At every point a restart would be accepted, and would find every acknowledged record, or
    the close of its run; it would find nothing that no admission step decided.
   */
  lemma AckedRecordsAreOnDisk(actions: seq<Action>)
    requires Possible(actions)
    ensures var s := Execute(actions);
            && Recover(s.file).Recovered?
            && (forall ev <- s.acked :: Covered(ev, Elements(OnDisk(s.file))))
            && (forall ev <- OnDisk(s.file) :: exists o <- s.seen :: o.Admission? && o.Event() == Some(ev))
  {
    AlwaysSafe(actions);
    hide EventOf;
    hide Recover;
    var s := Execute(actions);
    assert DiskInv(s);
    forall ev <- OnDisk(s.file) ensures exists o <- s.seen :: o.Admission? && o.Event() == Some(ev) {
      assert ev in Elements(OnDisk(s.file));
      assert ev in Ever(s.seen);
    }
  }

  /** When nothing is in flight, replaying the log gives exactly the durable state of the live gate. */
  lemma QuietLogIsTheGate(actions: seq<Action>)
    requires Possible(actions)
    requires var s := Execute(actions); s.up && InFlight(s) == {}
    ensures var s := Execute(actions); Replayed(EMPTY, OnDisk(s.file)) == s.gate.Durable()
  {
    AlwaysSafe(actions);
    hide Recover;
    var s := Execute(actions);
    assert GateInv(s) && DiskInv(s) && QueueInv(s);
    var log := Elements(OnDisk(s.file));
    assert log + InFlight(s) == log;
    CoveringSubset(log, s.known);
    ReplayIsMeaning(OnDisk(s.file));
  }
}
