/**
  The group-commit writer refines the protocol: whatever it does with a queue is a run of
  the protocol's writer steps on that queue, and wherever it stops is where a crash may leave
  the protocol.
 */
module WriterSteps {
  import opened Options
  import opened Texts
  import opened GateModel
  import opened Replay
  import opened Recovery
  import opened Server
  import ServerSafety
  import RecordCodec
  import G = GroupCommit

  /** Records as the writer writes them. */
  function LinesOf(log: seq<Event>): seq<G.Line> {
    if log == [] then [] else LinesOf(log[..|log| - 1]) + [RecordCodec.Encode(log[|log| - 1])]
  }

  lemma {:induction false} JoinedLines(log: seq<Event>)
    ensures G.Joined(LinesOf(log)) == EncodeLog(log)
    decreases |log|
  {
    hide RecordCodec.Encode;
    if log != [] {
      var m := |log| - 1;
      JoinedLines(log[..m]);
      var before := LinesOf(log[..m]);
      assert (before + [RecordCodec.Encode(log[m])])[..|before|] == before;
    }
  }

  /** A queued message as the writer receives it: records already encoded. */
  function Encoded(m: Msg): G.WalMsg {
    match m
    case Append(ev, _) => G.Append(RecordCodec.Encode(ev))
    case Compact(snapshot) => G.Compact(LinesOf(snapshot))
  }

  function AllEncoded(msgs: seq<Msg>): (wal: seq<G.WalMsg>)
    ensures |wal| == |msgs| && forall i :: 0 <= i < |msgs| ==> wal[i] == Encoded(msgs[i])
  {
    seq(|msgs|, i requires 0 <= i < |msgs| => Encoded(msgs[i]))
  }

  predicate GoodAction(a: G.Action) { a.Wrote? ==> 1 <= |a.batch| <= G.WAL_BATCH }

  /** The protocol's steps for what the writer did. */
  function StepsFor(a: G.Action): seq<Action> {
    match a
    case Wrote(batch) => [StartBatch(|batch|), FinishBatch]
    case Swapped(_) => [Swap]
    case KeptOld(_) => [KeepOld]
  }

  function StepsOf(trace: seq<G.Action>): seq<Action> {
    if trace == [] then [] else StepsOf(trace[..|trace| - 1]) + StepsFor(trace[|trace| - 1])
  }

  /** The protocol once the first `n` messages are off the queue and acknowledged. */
  function Handled(s: State, n: nat, file: seq<Byte>): State
    requires n <= |s.queue|
  {
    s.(file := file,
       queue := s.queue[n..],
       acked := s.acked + EventsIn(s.queue[..n]),
       handlers := Readied(s.handlers, Writers(s.queue[..n])))
  }

  lemma HandledMore(s: State, n: nat, file: seq<Byte>, k: nat, now: seq<Byte>)
    requires n + k <= |s.queue|
    ensures Handled(Handled(s, n, file), k, now) == Handled(s, n + k, now)
  {
    var rest := s.queue[n..];
    assert s.queue[..n + k] == s.queue[..n] + rest[..k];
    ServerSafety.EventsInConcat(s.queue[..n], rest[..k]);
    assert rest[k..] == s.queue[n + k..];
    var a, b := Handled(Handled(s, n, file), k, now), Handled(s, n + k, now);
    assert a.acked == b.acked;
    assert a.handlers == b.handlers;
  }

  lemma {:induction false} LinesAre(log: seq<Event>)
    ensures |LinesOf(log)| == |log| && forall i :: 0 <= i < |log| ==> LinesOf(log)[i] == RecordCodec.Encode(log[i])
    decreases |log|
  {
    hide RecordCodec.Encode;
    if log != [] { LinesAre(log[..|log| - 1]); }
  }

  /** The lines of a batch are its records. */
  lemma LinesInHand(msgs: seq<Msg>, lines: seq<G.Line>)
    requires AllEncoded(msgs) == G.Appends(lines)
    ensures AllAppends(msgs) && EncodeLog(EventList(msgs)) == G.Joined(lines)
  {
    hide RecordCodec.Encode;
    forall i | 0 <= i < |msgs| ensures Encoded(msgs[i]) == G.Append(lines[i]) {
      assert AllEncoded(msgs)[i] == G.Appends(lines)[i];
    }
    LinesAre(EventList(msgs));
    assert LinesOf(EventList(msgs)) == lines;
    JoinedLines(EventList(msgs));
  }

  /** The lines of a compaction are its snapshot. */
  lemma CompactionStep(s: State, a: G.Action)
    requires s.up && s.writing == [] && !a.Wrote? && G.MessagesOf(a) <= AllEncoded(s.queue)
    ensures s.queue != [] && s.queue[0].Compact? && G.Joined(a.snapshot) == EncodeLog(s.queue[0].snapshot)
  {
    hide RecordCodec.Encode;
    assert Encoded(s.queue[0]) == G.MessagesOf(a)[0];
    JoinedLines(s.queue[0].snapshot);
  }

  /** A batch of the writer is a batch of the protocol. */
  lemma BatchIsTwoSteps(s: State, batch: seq<G.Line>)
    requires s.up && s.writing == [] && 1 <= |batch| <= G.WAL_BATCH
    requires |batch| <= |s.queue| && AllEncoded(s.queue[..|batch|]) == G.Appends(batch)
    ensures AllAppends(s.queue[..|batch|]) && EncodeLog(EventList(s.queue[..|batch|])) == G.Joined(batch)
    ensures PossibleFrom(s, [StartBatch(|batch|)])
    ensures ExecuteFrom(s, [StartBatch(|batch|)]) == s.(writing := s.queue[..|batch|], queue := s.queue[|batch|..])
  {
    hide Encoded;
    hide EncodeLog;
    hide Recover;
    LinesInHand(s.queue[..|batch|], batch);
    OneMoreAction(s, [], StartBatch(|batch|));
    assert [] + [StartBatch(|batch|)] == [StartBatch(|batch|)];
  }

  lemma ActionIsARun(s: State, a: G.Action)
    requires s.up && s.writing == [] && GoodAction(a)
    requires G.MessagesOf(a) <= AllEncoded(s.queue)
    ensures PossibleFrom(s, StepsFor(a))
    ensures ExecuteFrom(s, StepsFor(a)) == Handled(s, |G.MessagesOf(a)|, G.Effect(s.file, a))
  {
    hide RecordCodec.Encode;
    hide EncodeLog;
    hide Recover;
    match a {
      case Wrote(batch) =>
        assert AllEncoded(s.queue[..|batch|]) == G.Appends(batch);
        BatchIsTwoSteps(s, batch);
        OneMoreAction(s, [StartBatch(|batch|)], FinishBatch);
        assert [StartBatch(|batch|)] + [FinishBatch] == StepsFor(a);
      case Swapped(snapshot) =>
        CompactionIsAStep(s, a, Swap);
      case KeptOld(snapshot) =>
        CompactionIsAStep(s, a, KeepOld);
    }
  }

  lemma CompactionIsAStep(s: State, a: G.Action, step: Action)
    requires s.up && s.writing == [] && !a.Wrote?
    requires G.MessagesOf(a) <= AllEncoded(s.queue) && step == if a.Swapped? then Swap else KeepOld
    ensures PossibleFrom(s, [step]) && ExecuteFrom(s, [step]) == Handled(s, 1, G.Effect(s.file, a))
  {
    hide RecordCodec.Encode;
    hide EncodeLog;
    hide Recover;
    CompactionStep(s, a);
    OneMoreAction(s, [], step);
    assert [] + [step] == [step];
    assert s.queue[..1] == [s.queue[0]];
    assert EventsIn(s.queue[..1]) == {} && Writers(s.queue[..1]) == {};
    assert Readied(s.handlers, {}) == s.handlers;
  }

  lemma NothingHandled(s: State)
    ensures PossibleFrom(s, []) && ExecuteFrom(s, []) == s == Handled(s, 0, s.file)
  {
    assert s.queue[..0] == [] && s.queue[0..] == s.queue;
    assert EventsIn(s.queue[..0]) == {} && Writers(s.queue[..0]) == {};
    assert Readied(s.handlers, {}) == s.handlers;
  }

  /** One more action of the writer extends the run of the protocol. */
  lemma RunExtends(s: State, steps: seq<Action>, n: nat, file: seq<Byte>, a: G.Action)
    requires s.up && s.writing == [] && n <= |s.queue|
    requires PossibleFrom(s, steps) && ExecuteFrom(s, steps) == Handled(s, n, file)
    requires GoodAction(a) && G.MessagesOf(a) <= AllEncoded(s.queue)[n..]
    ensures PossibleFrom(s, steps + StepsFor(a)) && n + |G.MessagesOf(a)| <= |s.queue|
    ensures ExecuteFrom(s, steps + StepsFor(a)) == Handled(s, n + |G.MessagesOf(a)|, G.Effect(file, a))
  {
    hide PossibleFrom;
    hide ExecuteFrom;
    hide Encoded;
    hide G.MessagesOf;
    hide G.Effect;
    hide StepsFor;
    var t := Handled(s, n, file);
    assert AllEncoded(t.queue) == AllEncoded(s.queue)[n..];
    ActionIsARun(t, a);
    ActionsConcat(s, steps, StepsFor(a));
    HandledMore(s, n, file, |G.MessagesOf(a)|, G.Effect(file, a));
  }

  /** Every trace of the writer is a run of the protocol on the same queue, with the same file and acknowledgements. */
  lemma {:induction false} TraceIsARun(s: State, trace: seq<G.Action>)
    requires s.up && s.writing == [] && G.GoodBatches(trace) && G.Handled(trace) <= AllEncoded(s.queue)
    ensures PossibleFrom(s, StepsOf(trace))
    ensures ExecuteFrom(s, StepsOf(trace)) == Handled(s, |G.Handled(trace)|, G.FileAfter(s.file, trace))
    decreases |trace|
  {
    hide PossibleFrom;
    hide ExecuteFrom;
    hide Encoded;
    hide G.MessagesOf;
    hide G.Effect;
    hide StepsFor;
    if trace == [] {
      NothingHandled(s);
    } else {
      var m := |trace| - 1;
      var before := trace[..m];
      assert G.Handled(before) <= G.Handled(trace);
      TraceIsARun(s, before);
      MessagesBehind(AllEncoded(s.queue), G.Handled(before), G.MessagesOf(trace[m]));
      RunExtends(s, StepsOf(before), |G.Handled(before)|, G.FileAfter(s.file, before), trace[m]);
    }
  }

  lemma MessagesBehind<T>(all: seq<T>, a: seq<T>, b: seq<T>)
    requires a + b <= all
    ensures |a| <= |all| && b <= all[|a|..]
  {
    assert b == (a + b)[|a|..];
  }

  // ---- Other steps between the writer's ----

  /** One turn: a step of a handler, the writer taking a batch or a compaction, or its batch reaching the disk. */
  datatype Turn = Others(step: Action) | Begin(act: G.Action) | Finish

  /** The server around the writer, and the lines the writer holds. */
  datatype Shop = Shop(s: State, hand: seq<G.Line>)

  predicate IsOther(step: Action) { step.Admit? || step.Send? || step.Respond? }

  /** The writer receives what is at the front of the queue; what it does to the file is its own. */
  ghost predicate CanTake(w: Shop, turn: Turn) {
    match turn
    case Others(step) => IsOther(step) && Enabled(w.s, step)
    case Begin(a) => w.hand == [] && GoodAction(a) && G.MessagesOf(a) <= AllEncoded(w.s.queue)
    case Finish => w.hand != []
  }

  ghost function Take(w: Shop, turn: Turn): Shop
    requires CanTake(w, turn)
  {
    match turn
    case Others(step) => w.(s := Do(w.s, step))
    case Begin(a) =>
      var k := |G.MessagesOf(a)|;
      if a.Wrote? then Shop(w.s.(writing := w.s.queue[..k], queue := w.s.queue[k..]), a.batch)
      else w.(s := w.s.(file := G.Effect(w.s.file, a), queue := w.s.queue[k..]))
    case Finish =>
      Shop(w.s.(file := G.Effect(w.s.file, G.Wrote(w.hand)),
                acked := w.s.acked + EventsIn(w.s.writing),
                handlers := Readied(w.s.handlers, Writers(w.s.writing)),
                writing := []),
           [])
  }

  ghost predicate Turns(s: State, turns: seq<Turn>)
    decreases |turns|, 0
  {
    turns == [] || var m := |turns| - 1; Turns(s, turns[..m]) && CanTake(AfterTurns(s, turns[..m]), turns[m])
  }

  ghost function AfterTurns(s: State, turns: seq<Turn>): Shop
    requires Turns(s, turns)
    decreases |turns|, 1
  {
    if turns == [] then Shop(s, [])
    else Take(AfterTurns(s, turns[..|turns| - 1]), turns[|turns| - 1])
  }

  function StepFor(turn: Turn): Action {
    match turn
    case Others(step) => step
    case Begin(a) => if a.Wrote? then StartBatch(|a.batch|) else if a.Swapped? then Swap else KeepOld
    case Finish => FinishBatch
  }

  function StepsFrom(turns: seq<Turn>): seq<Action> {
    if turns == [] then [] else StepsFrom(turns[..|turns| - 1]) + [StepFor(turns[|turns| - 1])]
  }

  /** The lines in hand are those of the messages being written. */
  ghost predicate InHand(w: Shop) {
    && w.s.up && AllEncoded(w.s.writing) == G.Appends(w.hand) && |w.hand| <= G.WAL_BATCH
  }

  /** Every turn is a step of the protocol, with the same effect. */
  lemma TurnIsAStep(w: Shop, turn: Turn)
    requires InHand(w) && CanTake(w, turn)
    ensures Enabled(w.s, StepFor(turn)) && Do(w.s, StepFor(turn)) == Take(w, turn).s && InHand(Take(w, turn))
  {
    hide Recover;
    hide EncodeLog;
    hide Encoded;
    assert |w.s.writing| == |w.hand|;
    match turn {
      case Others(step) =>
      case Begin(a) =>
        if a.Wrote? {
          var first := w.s.queue[..|a.batch|];
          assert AllEncoded(first) == G.Appends(a.batch);
          LinesInHand(first, a.batch);
        } else {
          CompactionStep(w.s, a);
        }
      case Finish => LinesInHand(w.s.writing, w.hand);
    }
  }

  /** The writer amid handlers that go on admitting, queueing and replying is a run of the protocol. */
  lemma {:induction false} InterleavingIsARun(s: State, turns: seq<Turn>)
    requires s.up && s.writing == [] && Turns(s, turns)
    ensures PossibleFrom(s, StepsFrom(turns)) && ExecuteFrom(s, StepsFrom(turns)) == AfterTurns(s, turns).s
    ensures InHand(AfterTurns(s, turns))
    decreases |turns|
  {
    hide Enabled;
    hide Do;
    hide CanTake;
    hide Take;
    hide StepFor;
    if turns != [] {
      var m := |turns| - 1;
      InterleavingIsARun(s, turns[..m]);
      TurnIsAStep(AfterTurns(s, turns[..m]), turns[m]);
      OneMoreAction(s, StepsFrom(turns[..m]), StepFor(turns[m]));
    }
  }

  // ---- What the writer did amid the others is a trace over all messages ever queued ----

  function TraceOf(turns: seq<Turn>): seq<G.Action> {
    if turns == [] then []
    else
      var m := |turns| - 1;
      if turns[m].Begin? then TraceOf(turns[..m]) + [turns[m].act] else TraceOf(turns[..m])
  }

  /** The messages that joined the queue meanwhile. */
  ghost function JoinedIn(s: State, turns: seq<Turn>): seq<Msg>
    requires Turns(s, turns)
    decreases |turns|
  {
    if turns == [] then []
    else
      var m := |turns| - 1;
      JoinedIn(s, turns[..m]) + Joins(AfterTurns(s, turns[..m]), turns[m], AfterTurns(s, turns))
  }

  lemma OthersOnlyQueue(s: State, step: Action)
    requires IsOther(step) && Enabled(s, step)
    ensures var t := Do(s, step); s.queue <= t.queue && t.file == s.file && t.writing == s.writing
  {
    hide Recover;
    hide IsSnapshot;
    hide Answer;
    hide EventOf;
  }

  /** What joins the queue at a turn. */
  ghost function Joins(before: Shop, turn: Turn, now: Shop): seq<Msg> {
    if turn.Others? && |before.s.queue| <= |now.s.queue| then now.s.queue[|before.s.queue|..] else []
  }

  function Takes(turn: Turn): seq<G.WalMsg> { if turn.Begin? then G.MessagesOf(turn.act) else [] }

  lemma QueueAtTurn(w: Shop, turn: Turn)
    requires CanTake(w, turn)
    ensures var now := Take(w, turn);
            AllEncoded(w.s.queue) + AllEncoded(Joins(w, turn, now)) == Takes(turn) + AllEncoded(now.s.queue)
  {
    hide Enabled;
    hide Do;
    hide Encoded;
    hide G.MessagesOf;
    match turn {
      case Others(step) =>
        OthersOnlyQueue(w.s, step);
        QueueGrows(w.s.queue, Take(w, turn).s.queue);
      case Begin(a) => QueueFront(w.s.queue, G.MessagesOf(a));
      case Finish =>
    }
  }

  lemma QueueGrows(queue: seq<Msg>, now: seq<Msg>)
    requires queue <= now
    ensures AllEncoded(queue) + AllEncoded(now[|queue|..]) == AllEncoded(now)
  {
    EncodedConcat(queue, now[|queue|..]);
    assert now == queue + now[|queue|..];
  }

  lemma QueueFront(queue: seq<Msg>, taken: seq<G.WalMsg>)
    requires taken <= AllEncoded(queue)
    ensures AllEncoded(queue) == taken + AllEncoded(queue[|taken|..])
  {
    hide Encoded;
    QueueGrows(queue[..|taken|], queue);
    assert AllEncoded(queue[..|taken|]) == taken;
  }

  /** The last turn, in terms of what came before it. */
  lemma LastTurn(s: State, turns: seq<Turn>)
    requires Turns(s, turns) && turns != []
    ensures var m := |turns| - 1;
            && Turns(s, turns[..m])
            && var before, now := AfterTurns(s, turns[..m]), AfterTurns(s, turns);
            && CanTake(before, turns[m]) && now == Take(before, turns[m])
            && JoinedIn(s, turns) == JoinedIn(s, turns[..m]) + Joins(before, turns[m], now)
  {
    hide CanTake;
    hide Take;
    hide Joins;
  }

  lemma OrderAtTurn(done: seq<G.WalMsg>, took: seq<G.WalMsg>, all: seq<Msg>, waiting: seq<Msg>, more: seq<Msg>,
                    now: seq<Msg>)
    requires done + AllEncoded(waiting) == AllEncoded(all)
    requires AllEncoded(waiting) + AllEncoded(more) == took + AllEncoded(now)
    ensures done + took + AllEncoded(now) == AllEncoded(all + more)
  {
    hide Encoded;
    EncodedConcat(all, more);
    hide AllEncoded;
    assert done + (took + AllEncoded(now)) == done + took + AllEncoded(now);
    assert done + (AllEncoded(waiting) + AllEncoded(more)) == done + AllEncoded(waiting) + AllEncoded(more);
  }

  lemma NoTurns(s: State)
    ensures Turns(s, []) && AfterTurns(s, []) == Shop(s, []) && s.queue + JoinedIn(s, []) == s.queue
    ensures G.Handled(TraceOf([])) == [] && G.GoodBatches(TraceOf([]))
  {
  }

  /** Everything queued, at the start or since, was handled in order, is in hand, or still waits. */
  lemma {:induction false} MessagesInOrder(s: State, turns: seq<Turn>)
    requires s.up && s.writing == [] && Turns(s, turns)
    ensures G.Handled(TraceOf(turns)) + AllEncoded(AfterTurns(s, turns).s.queue)
         == AllEncoded(s.queue + JoinedIn(s, turns))
    ensures G.GoodBatches(TraceOf(turns))
    decreases |turns|
  {
    hide *;
    if turns == [] {
      NoTurns(s);
    } else {
      var m := |turns| - 1;
      LastTurn(s, turns);
      MessagesInOrder(s, turns[..m]);
      var before, now := AfterTurns(s, turns[..m]), AfterTurns(s, turns);
      var all, more := s.queue + JoinedIn(s, turns[..m]), Joins(before, turns[m], now);
      QueueAtTurn(before, turns[m]);
      HandledAtTurn(turns, before);
      var done := G.Handled(TraceOf(turns[..m]));
      OrderAtTurn(done, Takes(turns[m]), all, before.s.queue, more, now.s.queue);
      assert s.queue + JoinedIn(s, turns) == all + more;
    }
  }

  lemma HandledAtTurn(turns: seq<Turn>, before: Shop)
    requires turns != [] && CanTake(before, turns[|turns| - 1])
    ensures var m := |turns| - 1;
            && G.Handled(TraceOf(turns)) == G.Handled(TraceOf(turns[..m])) + Takes(turns[m])
            && (G.GoodBatches(TraceOf(turns[..m])) ==> G.GoodBatches(TraceOf(turns)))
  {
    hide Encoded;
    hide Enabled;
    hide G.MessagesOf;
    var m := |turns| - 1;
    if turns[m].Begin? { OneMoreHandled(TraceOf(turns[..m]), turns[m].act); }
  }

  lemma EncodedConcat(a: seq<Msg>, b: seq<Msg>)
    ensures AllEncoded(a + b) == AllEncoded(a) + AllEncoded(b)
  {
  }

  lemma OneMoreHandled(trace: seq<G.Action>, a: G.Action)
    ensures G.Handled(trace + [a]) == G.Handled(trace) + G.MessagesOf(a)
    ensures G.GoodBatches(trace) && GoodAction(a) ==> G.GoodBatches(trace + [a])
  {
    assert (trace + [a])[..|trace|] == trace;
  }

  /** The file is the writer's: that of its actions so far, without the batch in hand. */
  ghost predicate FileIsTheWriters(start: seq<Byte>, w: Shop, trace: seq<G.Action>) {
    if w.hand == [] then w.s.file == G.FileAfter(start, trace)
    else
      && trace != [] && trace[|trace| - 1] == G.Wrote(w.hand)
      && w.s.file == G.FileAfter(start, trace[..|trace| - 1])
  }

  lemma FileAtTurn(start: seq<Byte>, w: Shop, turns: seq<Turn>)
    requires turns != [] && CanTake(w, turns[|turns| - 1])
    requires FileIsTheWriters(start, w, TraceOf(turns[..|turns| - 1]))
    ensures FileIsTheWriters(start, Take(w, turns[|turns| - 1]), TraceOf(turns))
  {
    hide Enabled;
    hide Do;
    hide Encoded;
    hide G.Effect;
    hide G.MessagesOf;
    var m := |turns| - 1;
    var trace := TraceOf(turns[..m]);
    match turns[m] {
      case Others(step) => OthersOnlyQueue(w.s, step);
      case Begin(a) => assert (trace + [a])[..|trace|] == trace;
      case Finish =>
    }
  }

  lemma {:induction false} FileOfInterleaving(s: State, turns: seq<Turn>)
    requires s.up && s.writing == [] && Turns(s, turns)
    ensures FileIsTheWriters(s.file, AfterTurns(s, turns), TraceOf(turns))
    decreases |turns|
  {
    hide CanTake;
    hide Take;
    if turns == [] {
    } else {
      var m := |turns| - 1;
      FileOfInterleaving(s, turns[..m]);
      hide FileIsTheWriters;
      FileAtTurn(s.file, AfterTurns(s, turns[..m]), turns);
    }
  }

  /** The writer receives in order: an action of its trace over all messages only waits until its own are there. */
  lemma OnlyTimeMatters(s: State, turns: seq<Turn>, a: G.Action, ever: seq<G.WalMsg>)
    requires s.up && s.writing == [] && Turns(s, turns) && AfterTurns(s, turns).hand == [] && GoodAction(a)
    requires AllEncoded(s.queue + JoinedIn(s, turns)) <= ever && G.Handled(TraceOf(turns) + [a]) <= ever
    ensures CanTake(AfterTurns(s, turns), Begin(a)) <==> |G.MessagesOf(a)| <= |AfterTurns(s, turns).s.queue|
  {
    hide Turns;
    hide Encoded;
    hide G.MessagesOf;
    MessagesInOrder(s, turns);
    OneMoreHandled(TraceOf(turns), a);
    NextInOrder(G.Handled(TraceOf(turns)), AllEncoded(AfterTurns(s, turns).s.queue), G.MessagesOf(a), ever);
  }

  lemma NextInOrder<T>(done: seq<T>, waiting: seq<T>, next: seq<T>, ever: seq<T>)
    requires done + waiting <= ever && done + next <= ever
    ensures next <= waiting <==> |next| <= |waiting|
  {
    if |next| <= |waiting| {
      assert waiting[..|next|] == (done + waiting)[|done|..|done| + |next|] == ever[|done|..|done| + |next|];
      assert next == (done + next)[|done|..] == ever[|done|..|done| + |next|];
    }
  }

  /** What the writer may leave when it dies: part of the batch in hand, or a compaction done or not begun. */
  ghost predicate MayLeave(w: Shop, file: seq<Byte>) {
    if w.hand != [] then G.PartlyWritten(w.s.file, file, w.hand)
    else
      || file == w.s.file
      || (w.s.queue != [] && Encoded(w.s.queue[0]).Compact? && file == G.Joined(Encoded(w.s.queue[0]).lines))
  }

  /** Wherever the writer dies amid the others, the protocol can crash with the same file. */
  lemma DyingIsACrash(s: State, turns: seq<Turn>, file: seq<Byte>) returns (end: Action)
    requires s.up && s.writing == [] && Turns(s, turns) && MayLeave(AfterTurns(s, turns), file)
    ensures PossibleFrom(s, StepsFrom(turns) + [end])
    ensures ExecuteFrom(s, StepsFrom(turns) + [end]) == Down(AfterTurns(s, turns).s, file)
  {
    InterleavingIsARun(s, turns);
    var w := AfterTurns(s, turns);
    end := CrashWith(w, file);
    OneMoreAction(s, StepsFrom(turns), end);
  }

  lemma CrashWith(w: Shop, file: seq<Byte>) returns (end: Action)
    requires InHand(w) && MayLeave(w, file)
    ensures Enabled(w.s, end) && Do(w.s, end) == Down(w.s, file)
  {
    hide Recover;
    hide RecordCodec.Encode;
    LinesInHand(w.s.writing, w.hand);
    assert |w.s.writing| == |w.hand|;
    if w.hand != [] || file == w.s.file {
      end := Crash(|file| - |w.s.file|);
      assert file == w.s.file + G.Joined(w.hand)[..|file| - |w.s.file|];
    } else {
      JoinedLines(w.s.queue[0].snapshot);
      end := CrashAfterSwap;
    }
  }

  // ---- Where the writer stops ----

  lemma CompactionCrash(t: State, file: seq<Byte>) returns (end: seq<Action>)
    requires t.up && t.writing == [] && t.queue != [] && Encoded(t.queue[0]).Compact?
    requires file == t.file || file == G.Joined(Encoded(t.queue[0]).lines)
    ensures PossibleFrom(t, end) && ExecuteFrom(t, end) == Down(t, file)
  {
    hide Enabled;
    hide Do;
    hide Encoded;
    var crash := CrashWith(Shop(t, []), file);
    OneMoreAction(t, [], crash);
    end := [] + [crash];
  }

  lemma BatchCrash(t: State, file: seq<Byte>, torn: seq<G.Line>) returns (end: seq<Action>)
    requires t.up && t.writing == [] && 1 <= |torn| <= G.WAL_BATCH && |torn| <= |t.queue|
    requires AllEncoded(t.queue[..|torn|]) == G.Appends(torn) && G.PartlyWritten(t.file, file, torn)
    ensures PossibleFrom(t, end) && ExecuteFrom(t, end) == Down(t, file)
  {
    hide Enabled;
    hide Do;
    hide Encoded;
    hide EncodeLog;
    BatchIsTwoSteps(t, torn);
    var begun := t.(writing := t.queue[..|torn|], queue := t.queue[|torn|..]);
    var crash := CrashWith(Shop(begun, torn), file);
    OneMoreAction(t, [StartBatch(|torn|)], crash);
    end := [StartBatch(|torn|)] + [crash];
  }

  lemma StopFromIdle(t: State, done: seq<G.WalMsg>, before: seq<Byte>, file: seq<Byte>, ever: seq<G.WalMsg>,
                     trace: seq<G.Action>, start: seq<Byte>) returns (end: seq<Action>)
    requires t.up && t.writing == [] && t.file == before == G.FileAfter(start, trace) && done == G.Handled(trace)
    requires done + AllEncoded(t.queue) == ever && G.StoppedInside(start, ever, trace, file)
    ensures PossibleFrom(t, end) && ExecuteFrom(t, end) == Down(t, file)
  {
    hide Encoded;
    hide G.FileAfter;
    hide G.Handled;
    var n := |done|;
    assert ever[n..] == AllEncoded(t.queue);
    if ever[n].Compact? {
      assert ever[n] == Encoded(t.queue[0]);
      end := CompactionCrash(t, file);
    } else {
      var torn :| G.Torn(ever, n, before, file, torn);
      assert AllEncoded(t.queue[..|torn|]) == ever[n..n + |torn|];
      end := BatchCrash(t, file, torn);
    }
  }

  /** How the protocol dies where the writer stopped. */
  lemma StopIsACrash(s: State, trace: seq<G.Action>, file: seq<Byte>) returns (end: seq<Action>)
    requires s.up && s.writing == [] && G.GoodBatches(trace)
    requires G.StoppedInside(s.file, AllEncoded(s.queue), trace, file)
    ensures PossibleFrom(s, StepsOf(trace) + end)
    ensures var n := |G.Handled(trace)|;
            n < |s.queue| && ExecuteFrom(s, StepsOf(trace) + end) == Down(Handled(s, n, file), file)
  {
    hide PossibleFrom;
    hide ExecuteFrom;
    hide Encoded;
    var n, done := |G.Handled(trace)|, G.Handled(trace);
    assert done <= AllEncoded(s.queue);
    TraceIsARun(s, trace);
    var before := G.FileAfter(s.file, trace);
    var t := Handled(s, n, before);
    assert AllEncoded(t.queue) == AllEncoded(s.queue)[n..];
    end := StopFromIdle(t, done, before, file, AllEncoded(s.queue), trace, s.file);
    ActionsConcat(s, StepsOf(trace), end);
  }

  // ---- The writer as a program amid the others ----

  /** A schedule of the writer's trace from `s`, at whose end the writer is idle. */
  ghost predicate Schedules(s: State, turns: seq<Turn>, trace: seq<G.Action>) {
    Turns(s, turns) && TraceOf(turns) == trace && AfterTurns(s, turns).hand == []
  }

  /** The protocol can take the steps of the schedule and then die with `file`. */
  ghost predicate DiesWith(s: State, turns: seq<Turn>, file: seq<Byte>) {
    exists end :: PossibleFrom(s, StepsFrom(turns) + end) && DeadWith(ExecuteFrom(s, StepsFrom(turns) + end), file)
  }

  predicate DeadWith(s: State, file: seq<Byte>) { !s.up && s.file == file }

  lemma ScheduleEnds(s: State, turns: seq<Turn>, trace: seq<G.Action>)
    requires s.up && s.writing == [] && Schedules(s, turns, trace)
    ensures PossibleFrom(s, StepsFrom(turns))
    ensures ExecuteFrom(s, StepsFrom(turns)).file == G.FileAfter(s.file, trace)
  {
    InterleavingIsARun(s, turns);
    FileOfInterleaving(s, turns);
  }

  lemma StopAmid(s: State, turns: seq<Turn>, trace: seq<G.Action>, file: seq<Byte>)
    requires s.up && s.writing == [] && Schedules(s, turns, trace)
    requires G.StoppedInside(s.file, AllEncoded(s.queue + JoinedIn(s, turns)), trace, file)
    ensures DiesWith(s, turns, file)
  {
    hide Turns;
    hide Encoded;
    InterleavingIsARun(s, turns);
    FileOfInterleaving(s, turns);
    MessagesInOrder(s, turns);
    var t := AfterTurns(s, turns).s;
    var end := StopFromIdle(t, G.Handled(trace), G.FileAfter(s.file, trace), file,
                            AllEncoded(s.queue + JoinedIn(s, turns)), trace, s.file);
    ActionsConcat(s, StepsFrom(turns), end);
    assert DeadWith(ExecuteFrom(s, StepsFrom(turns) + end), file);
  }

  /**
    The writer, run over all messages ever queued from `s` on, handles them in order. Whatever the handlers
    do between and during its actions, the protocol can take the same steps and has the file the writer
    leaves, alive or, once all those messages had joined, dead. With all of them queued at the start this
    fixes the whole state.
   */
  method WriterRuns(f: G.LogFile, ever: seq<Msg>, ghost s: State)
    returns (stopped: bool, ghost trace: seq<G.Action>, ghost actions: seq<Action>)
    requires s.up && s.writing == [] && s.queue <= ever && f.bytes == f.durable == s.file
    modifies f
    ensures G.Handled(trace) <= AllEncoded(ever) && (!stopped ==> G.Handled(trace) == AllEncoded(ever))
    ensures !stopped ==>
              forall turns | Schedules(s, turns, trace) ::
                PossibleFrom(s, StepsFrom(turns)) && ExecuteFrom(s, StepsFrom(turns)).file == f.bytes
    ensures stopped ==>
              forall turns | Schedules(s, turns, trace) && s.queue + JoinedIn(s, turns) == ever ::
                DiesWith(s, turns, f.bytes)
    ensures s.queue == ever ==>
              && PossibleFrom(s, actions) && ExecuteFrom(s, actions).file == f.bytes
              && (stopped ==> !ExecuteFrom(s, actions).up)
              && (!stopped ==> ExecuteFrom(s, actions) == Handled(s, |ever|, f.bytes))
  {
    hide Encoded;
    hide Enabled;
    hide Do;
    hide Turns;
    hide G.StoppedInside;
    var died, did, _, _, _, _ := G.WalWriter(f, AllEncoded(ever));
    stopped, trace, actions := died, did, StepsOf(did);
    if stopped {
      StoppedHandled(s.file, AllEncoded(ever), trace, f.bytes);
      if s.queue == ever {
        ghost var end := StopIsACrash(s, trace, f.bytes);
        actions := actions + end;
      }
      forall turns | Schedules(s, turns, trace) && s.queue + JoinedIn(s, turns) == ever
        ensures DiesWith(s, turns, f.bytes)
      {
        StopAmid(s, turns, trace, f.bytes);
      }
    } else {
      if s.queue == ever { TraceIsARun(s, trace); }
      forall turns | Schedules(s, turns, trace)
        ensures PossibleFrom(s, StepsFrom(turns)) && ExecuteFrom(s, StepsFrom(turns)).file == f.bytes
      {
        ScheduleEnds(s, turns, trace);
      }
    }
  }

  lemma StoppedHandled(start: seq<Byte>, ever: seq<G.WalMsg>, trace: seq<G.Action>, file: seq<Byte>)
    requires G.StoppedInside(start, ever, trace, file)
    ensures G.Handled(trace) <= ever
  {
  }
}
