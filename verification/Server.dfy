/**
  The durable server as a protocol: request handlers, the queue, the group-commit writer,
  compactions, crashes at any byte and restarts, interleaved in any order.
 */
module Server {
  import opened Options
  import opened Texts
  import opened GateModel
  import opened Replay
  import opened Recovery
  import GroupCommit

  datatype Request =
    | Submit(id: Id, needsApproval: bool)
    | Decide(id: Id, approved: bool, authentic: bool)  // authentic: no secret is set, or the tag verifies
    | Cancel(run: Run)
    | Close(run: Run)
    | Ping
    | Malformed

  datatype Reply = Told(verdict: Verdict) | Ack | Pong | Error

  /** The operation a request performs on the gate, if it reaches it. */
  function OpOf(req: Request): Option<Op> {
    match req
    case Submit(id, na) => Some(Op.Submit(id, na))
    case Decide(id, ap, authentic) => if authentic then Some(Op.Decide(id, ap)) else None
    case Cancel(r) => Some(Op.Cancel(r))
    case Close(r) => Some(Op.CloseRun(r))
    case _ => None
  }

  function GateAfter(g: GateState, req: Request): GateState {
    if OpOf(req).Some? then Next(g, OpOf(req).value) else g
  }

  function Answer(g: GateState, req: Request): Reply {
    match req
    case Submit(id, na) => Told(g.Submit(id, na).1)
    case Decide(id, ap, authentic) => if authentic then Told(g.Decide(id, ap).1) else Error
    case Cancel(_) => Ack
    case Close(_) => Ack
    case Ping => Pong
    case Malformed => Error
  }

  /** The event a request and its reply leave in the log. */
  function EventOf(req: Request, reply: Reply): Option<Event> {
    match req
    case Submit(id, _) => if reply == Told(Release) then Some(Released(id)) else None
    case Decide(id, _, _) =>
      if reply == Told(Release) then Some(Released(id))
      else if reply == Told(RefusedRejected) then Some(Rejected(id))
      else None
    case Cancel(r) => if reply == Ack then Some(Cancelled(r)) else None
    case Close(r) => if reply == Ack then Some(Closed(r)) else None
    case _ => None
  }

  datatype Msg = Append(ev: Event, handler: nat) | Compact(snapshot: seq<Event>)

  /** Unsent: decided under the lock, not yet queued. Ready: nothing left but the reply. */
  datatype Phase = Unsent | Queued | Ready

  datatype Handler = Handler(req: Request, reply: Reply, phase: Phase) {
    function Event(): Option<Replay.Event> { EventOf(req, reply) }
  }

  /** What an observer sees: the admission step under the lock, and the reply on the wire. */
  datatype Observation = Admission(req: Request, reply: Reply) | Sent(req: Request, reply: Reply) {
    function Event(): Option<Replay.Event> { EventOf(req, reply) }
  }

  datatype State = State(
    up: bool,
    gate: GateState,
    file: seq<Byte>,
    writing: seq<Msg>,            // the batch being written, not yet synced
    queue: seq<Msg>,
    handlers: map<nat, Handler>,
    next: nat,                    // the number of the next request
    known: set<Event>,            // history: recovered at start, or admitted since
    acked: set<Event>,            // history: every record ever acknowledged to a handler
    seen: seq<Observation>)       // history: admissions and replies, in order

  const INITIAL := State(false, EMPTY, [], [], [], map[], 0, {}, {}, [])

  predicate AllAppends(msgs: seq<Msg>) { forall m <- msgs :: m.Append? }

  function EventList(msgs: seq<Msg>): (log: seq<Event>)
    requires AllAppends(msgs)
    ensures |log| == |msgs| && forall i :: 0 <= i < |msgs| ==> log[i] == msgs[i].ev
  {
    seq(|msgs|, i requires 0 <= i < |msgs| => msgs[i].ev)
  }

  function EventsIn(msgs: seq<Msg>): set<Event> { set m <- msgs | m.Append? :: m.ev }

  function Writers(msgs: seq<Msg>): set<nat> { set m <- msgs | m.Append? :: m.handler }

  /** Decided events that are not in the queue yet. */
  function UnsentEvents(handlers: map<nat, Handler>): set<Event> {
    set h <- handlers | handlers[h].phase == Unsent && handlers[h].Event().Some? :: handlers[h].Event().value
  }

  /** The records a restart would find. */
  function OnDisk(file: seq<Byte>): seq<Event> {
    match Recover(file)
    case Recovered(_, events) => events
    case RefuseToStart => []
  }

  datatype Action =
    | Admit(req: Request, compact: bool, snapshot: seq<Event>)  // the lock section; a close may queue a compaction
    | Send(h: nat)
    | StartBatch(n: nat)
    | FinishBatch
    | Swap
    | KeepOld                     // the compaction failed before its rename
    | Respond(h: nat, delivered: bool)
    | Crash(cut: nat)             // `cut` bytes of the batch being written survive
    | CrashAfterSwap              // the new file could not be reopened
    | Repair                      // a restart that dies before it serves
    | Restart(snapshot: seq<Event>)

  ghost predicate Enabled(s: State, a: Action) {
    match a
    case Admit(req, compact, snapshot) =>
      s.up && (compact ==> req.Close? && IsSnapshot(GateAfter(s.gate, req), snapshot))
    case Send(h) => s.up && h in s.handlers && s.handlers[h].phase == Unsent && s.handlers[h].Event().Some?
    case StartBatch(n) =>
      s.up && s.writing == [] && 1 <= n <= GroupCommit.WAL_BATCH && n <= |s.queue| && AllAppends(s.queue[..n])
    case FinishBatch => s.up && s.writing != [] && AllAppends(s.writing)
    case Swap => s.up && s.writing == [] && s.queue != [] && s.queue[0].Compact?
    case KeepOld => s.up && s.writing == [] && s.queue != [] && s.queue[0].Compact?
    case Respond(h, _) => s.up && h in s.handlers && s.handlers[h].phase == Ready
    case Crash(cut) => s.up && AllAppends(s.writing) && cut <= |EncodeLog(EventList(s.writing))|
    case CrashAfterSwap => s.up && s.writing == [] && s.queue != [] && s.queue[0].Compact?
    case Repair => !s.up && Recover(s.file).Recovered?
    case Restart(snapshot) =>
      && !s.up && Recover(s.file).Recovered?
      && IsSnapshot(Replayed(EMPTY, OnDisk(s.file)), snapshot)
  }

  function Down(s: State, file: seq<Byte>): State {
    s.(up := false, file := file, gate := EMPTY, writing := [], queue := [], handlers := map[], known := {})
  }

  function DoAdmit(s: State, req: Request, compact: bool, snapshot: seq<Event>): State {
    var reply := Answer(s.gate, req);
    var ev := EventOf(req, reply);
    s.(gate := GateAfter(s.gate, req),
       handlers := s.handlers[s.next := Handler(req, reply, if ev.Some? then Unsent else Ready)],
       next := s.next + 1,
       queue := if compact then s.queue + [Compact(snapshot)] else s.queue,
       known := s.known + (if ev.Some? then {ev.value} else {}),
       seen := s.seen + [Admission(req, reply)])
  }

  function DoSend(s: State, h: nat): State
    requires h in s.handlers && s.handlers[h].Event().Some?
  {
    s.(queue := s.queue + [Append(s.handlers[h].Event().value, h)],
       handlers := s.handlers[h := s.handlers[h].(phase := Queued)])
  }

  /** The handlers once those in `done` have their acknowledgement. */
  function Readied(handlers: map<nat, Handler>, done: set<nat>): map<nat, Handler> {
    map h <- handlers :: if h in done then handlers[h].(phase := Ready) else handlers[h]
  }

  function DoFinishBatch(s: State): State
    requires AllAppends(s.writing)
  {
    s.(file := s.file + EncodeLog(EventList(s.writing)),
       acked := s.acked + EventsIn(s.writing),
       handlers := Readied(s.handlers, Writers(s.writing)),
       writing := [])
  }

  function DoRespond(s: State, h: nat, delivered: bool): State
    requires h in s.handlers
  {
    s.(handlers := s.handlers - {h},
       seen := if delivered then s.seen + [Sent(s.handlers[h].req, s.handlers[h].reply)] else s.seen)
  }

  /** A log with a close in it is compacted at start; any other is kept byte for byte. */
  function DoRestart(s: State, snapshot: seq<Event>): State
    requires Recover(s.file).Recovered?
  {
    var r := Recover(s.file);
    s.(up := true,
       gate := Replayed(EMPTY, r.events),
       file := if exists ev <- r.events :: IsClosed(ev) then EncodeLog(snapshot) else r.file,
       known := Elements(r.events))
  }

  ghost function Do(s: State, a: Action): State
    requires Enabled(s, a)
  {
    match a
    case Admit(req, compact, snapshot) => DoAdmit(s, req, compact, snapshot)
    case Send(h) => DoSend(s, h)
    case StartBatch(n) => s.(writing := s.queue[..n], queue := s.queue[n..])
    case FinishBatch => DoFinishBatch(s)
    case Swap => s.(file := EncodeLog(s.queue[0].snapshot), queue := s.queue[1..])
    case KeepOld => s.(queue := s.queue[1..])
    case Respond(h, delivered) => DoRespond(s, h, delivered)
    case Crash(cut) => Down(s, s.file + EncodeLog(EventList(s.writing))[..cut])
    case CrashAfterSwap => Down(s, EncodeLog(s.queue[0].snapshot))
    case Repair => s.(file := Recover(s.file).file)
    case Restart(snapshot) => DoRestart(s, snapshot)
  }

  /** The actions can happen in this order from `s`. */
  ghost predicate PossibleFrom(s: State, actions: seq<Action>)
    decreases |actions|, 0
  {
    actions == [] ||
    var m := |actions| - 1;
    PossibleFrom(s, actions[..m]) && Enabled(ExecuteFrom(s, actions[..m]), actions[m])
  }

  ghost function ExecuteFrom(s: State, actions: seq<Action>): State
    requires PossibleFrom(s, actions)
    decreases |actions|, 1
  {
    if actions == [] then s
    else Do(ExecuteFrom(s, actions[..|actions| - 1]), actions[|actions| - 1])
  }

  /** The actions can happen in this order from an empty log. */
  ghost predicate Possible(actions: seq<Action>) { PossibleFrom(INITIAL, actions) }

  ghost function Execute(actions: seq<Action>): State
    requires Possible(actions)
  {
    ExecuteFrom(INITIAL, actions)
  }

  lemma OneMoreAction(s: State, actions: seq<Action>, a: Action)
    requires PossibleFrom(s, actions) && Enabled(ExecuteFrom(s, actions), a)
    ensures PossibleFrom(s, actions + [a])
    ensures ExecuteFrom(s, actions + [a]) == Do(ExecuteFrom(s, actions), a)
  {
    hide Enabled;
    hide Do;
    assert (actions + [a])[..|actions|] == actions;
  }

  lemma {:induction false} ActionsConcat(s: State, a: seq<Action>, b: seq<Action>)
    requires PossibleFrom(s, a) && PossibleFrom(ExecuteFrom(s, a), b)
    ensures PossibleFrom(s, a + b)
    ensures ExecuteFrom(s, a + b) == ExecuteFrom(ExecuteFrom(s, a), b)
    decreases |b|
  {
    hide Enabled;
    hide Do;
    if b == [] {
      assert a + b == a;
    } else {
      var m := |b| - 1;
      ActionsConcat(s, a, b[..m]);
      OneMoreAction(s, a + b[..m], b[m]);
      assert a + b == a + b[..m] + [b[m]];
    }
  }
}
