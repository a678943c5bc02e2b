/**
  The group-commit writer: it takes log requests from a queue, writes runs of appends in
  one batch with one sync, and swaps the file for a snapshot at each compaction request.
  The reference is a writer that handles one request at a time.
 */
module GroupCommit {
  import opened Options
  import opened Texts
  import opened RecordCodec

  type Line = seq<Byte>

  datatype WalMsg = Append(line: Line) | Compact(lines: seq<Line>)

  const WAL_BATCH := 512

  /** Lines as file contents: each followed by a newline. */
  function Joined(lines: seq<Line>): seq<Byte> {
    if lines == [] then [] else Joined(lines[..|lines| - 1]) + lines[|lines| - 1] + [NEWLINE]
  }

  // ---- What the writer did ----

  datatype Action =
    | Wrote(batch: seq<Line>)
    | Swapped(snapshot: seq<Line>)
    | KeptOld(snapshot: seq<Line>)   // the compaction failed before its rename

  function Appends(lines: seq<Line>): (msgs: seq<WalMsg>)
    ensures |msgs| == |lines| && forall i :: 0 <= i < |lines| ==> msgs[i] == Append(lines[i])
  {
    seq(|lines|, i requires 0 <= i < |lines| => Append(lines[i]))
  }

  function MessagesOf(a: Action): seq<WalMsg> {
    if a.Wrote? then Appends(a.batch) else [Compact(a.snapshot)]
  }

  /** The requests the actions handled, in order. */
  function Handled(trace: seq<Action>): seq<WalMsg> {
    if trace == [] then [] else Handled(trace[..|trace| - 1]) + MessagesOf(trace[|trace| - 1])
  }

  function Effect(file: seq<Byte>, a: Action): seq<Byte> {
    match a
    case Wrote(batch) => file + Joined(batch)
    case Swapped(snapshot) => Joined(snapshot)
    case KeptOld(_) => file
  }

  function FileAfter(start: seq<Byte>, trace: seq<Action>): seq<Byte> {
    if trace == [] then start else Effect(FileAfter(start, trace[..|trace| - 1]), trace[|trace| - 1])
  }

  /** An acknowledgement, with the bytes that were safely on disk when it was sent. */
  datatype Ack = Ack(ok: bool, durable: seq<Byte>)

  function Repeat(a: Ack, n: nat): (s: seq<Ack>)
    ensures |s| == n && forall i :: 0 <= i < n ==> s[i] == a
  {
    seq(n, i => a)
  }

  function AcksOf(a: Action, file: seq<Byte>): seq<Ack> {
    if a.Wrote? then Repeat(Ack(true, file), |a.batch|) else [Ack(a.Swapped?, file)]
  }

  function AcksFor(start: seq<Byte>, trace: seq<Action>): (acks: seq<Ack>)
    ensures |acks| == |Handled(trace)|
  {
    if trace == [] then []
    else AcksFor(start, trace[..|trace| - 1]) + AcksOf(trace[|trace| - 1], FileAfter(start, trace))
  }

  // ---- The reference: one request at a time ----

  function HandleOne(file: seq<Byte>, m: WalMsg, ok: bool): seq<Byte> {
    match m
    case Append(line) => file + line + [NEWLINE]
    case Compact(lines) => if ok then Joined(lines) else file
  }

  function OneAtATime(start: seq<Byte>, msgs: seq<WalMsg>, acks: seq<Ack>): seq<Byte>
    requires |msgs| == |acks|
  {
    if msgs == [] then start
    else
      var m := |msgs| - 1;
      HandleOne(OneAtATime(start, msgs[..m], acks[..m]), msgs[m], acks[m].ok)
  }

  lemma {:induction false} BatchIsOneAtATime(start: seq<Byte>, lines: seq<Line>, acks: seq<Ack>)
    requires |acks| == |lines|
    ensures OneAtATime(start, Appends(lines), acks) == start + Joined(lines)
    decreases |lines|
  {
    if lines != [] {
      var m := |lines| - 1;
      assert Appends(lines)[..m] == Appends(lines[..m]);
      BatchIsOneAtATime(start, lines[..m], acks[..m]);
      assert start + Joined(lines[..m]) + lines[m] + [NEWLINE]
          == start + (Joined(lines[..m]) + lines[m] + [NEWLINE]);
    }
  }

  lemma {:induction false} OneAtATimeConcat(start: seq<Byte>, a: seq<WalMsg>, b: seq<WalMsg>, x: seq<Ack>, y: seq<Ack>)
    requires |a| == |x| && |b| == |y|
    ensures OneAtATime(start, a + b, x + y) == OneAtATime(OneAtATime(start, a, x), b, y)
    decreases |b|
  {
    if b == [] {
      assert a + b == a && x + y == x;
    } else {
      var m := |b| - 1;
      assert (a + b)[..|a| + m] == a + b[..m] && (x + y)[..|a| + m] == x + y[..m];
      OneAtATimeConcat(start, a, b[..m], x, y[..m]);
    }
  }

  lemma EffectIsOneAtATime(file: seq<Byte>, a: Action, now: seq<Byte>)
    ensures OneAtATime(file, MessagesOf(a), AcksOf(a, now)) == Effect(file, a)
  {
    if a.Wrote? {
      BatchIsOneAtATime(file, a.batch, AcksOf(a, now));
    } else {
      assert MessagesOf(a)[..0] == [];
    }
  }

  /** Group commit refines the one-at-a-time writer: grouping never shows in the file. */
  lemma {:induction false} GroupingIsInvisible(start: seq<Byte>, trace: seq<Action>)
    ensures FileAfter(start, trace) == OneAtATime(start, Handled(trace), AcksFor(start, trace))
    decreases |trace|
  {
    if trace != [] {
      var m := |trace| - 1;
      GroupingIsInvisible(start, trace[..m]);
      var now := FileAfter(start, trace);
      var acks := AcksFor(start, trace[..m]);
      OneAtATimeConcat(start, Handled(trace[..m]), MessagesOf(trace[m]), acks, AcksOf(trace[m], now));
      EffectIsOneAtATime(FileAfter(start, trace[..m]), trace[m], now);
    }
  }

  /**
    Request `i` is acknowledged when the file safely on disk is that of the one-at-a-time
    writer after some number of requests beyond `i`; an append is always acknowledged well.
   */
  lemma {:induction false} AckedAfterSync(start: seq<Byte>, trace: seq<Action>, i: nat) returns (j: nat)
    requires i < |Handled(trace)|
    ensures i < j <= |Handled(trace)|
    ensures var acks := AcksFor(start, trace);
            && acks[i].durable == OneAtATime(start, Handled(trace)[..j], acks[..j])
            && (Handled(trace)[i].Append? ==> acks[i].ok)
    decreases |trace|
  {
    var m := |trace| - 1;
    var before, acks := Handled(trace[..m]), AcksFor(start, trace);
    assert acks[..|before|] == AcksFor(start, trace[..m]);
    if i < |before| {
      j := AckedAfterSync(start, trace[..m], i);
      assert Handled(trace)[..j] == before[..j];
      assert acks[..j] == acks[..|before|][..j];
    } else {
      j := |Handled(trace)|;
      assert acks[i] == AcksOf(trace[m], FileAfter(start, trace))[i - |before|];
      assert Handled(trace)[..j] == Handled(trace) && acks[..j] == acks;
      GroupingIsInvisible(start, trace);
    }
  }

  // ---- The writer as a program ----

  /** The log file: what has been written, what is known to be on disk, and whether a temporary sibling exists. */
  class LogFile {
    var bytes: seq<Byte>
    var durable: seq<Byte>
    var sibling: bool

    constructor (initial: seq<Byte>, stale: bool)
      ensures bytes == durable == initial && sibling == stale
    {
      bytes, durable, sibling := initial, initial, stale;
    }

    /** A failed write leaves any prefix of the buffer behind. */
    method WriteAll(buf: seq<Byte>) returns (ok: bool)
      modifies this`bytes
      ensures ok ==> bytes == old(bytes) + buf
      ensures !ok ==> old(bytes) <= bytes <= old(bytes) + buf
    {
      ok := *;
      if ok {
        bytes := bytes + buf;
      } else {
        var n :| 0 <= n <= |buf|;
        bytes := bytes + buf[..n];
      }
    }

    method SyncData() returns (ok: bool)
      modifies this`durable
      ensures ok ==> durable == bytes
      ensures !ok ==> durable == old(durable)
    {
      ok := *;
      if ok { durable := bytes; }
    }

    /**
      Create a sibling file, write and sync it, rename it over the log, reopen. When this
      fails and the sibling is still there, the log was not touched.
     */
    method CompactWal(lines: seq<Line>) returns (ok: bool)
      modifies this
      ensures ok ==> bytes == durable == Joined(lines)
      ensures !ok && sibling ==> bytes == old(bytes) && durable == old(durable)
      ensures !ok && !sibling ==> bytes == old(bytes) || bytes == Joined(lines)
    {
      var created: bool := *;
      if !created { return false; }
      sibling := true;
      var renamed: bool := *;
      if !renamed { return false; }
      var buf := [];
      for i := 0 to |lines|
        invariant buf == Joined(lines[..i])
      {
        assert lines[..i + 1][..i] == lines[..i];
        buf := buf + lines[i] + [NEWLINE];
      }
      assert lines[..|lines|] == lines;
      bytes, durable, sibling := buf, buf, false;
      ok := *;
    }
  }

  /** The histogram slot of a batch size. */
  function Slot(n: nat): (b: nat)
    ensures b < 5
    ensures 1 <= n <= WAL_BATCH ==> [1, 2, 9, 65, 257][b] <= n <= [1, 8, 64, 256, 512][b]
  {
    if n == 1 then 0
    else if 2 <= n <= 8 then 1
    else if 9 <= n <= 64 then 2
    else if 65 <= n <= 256 then 3
    else 4
  }

  function BatchesIn(trace: seq<Action>, slots: set<nat>): nat {
    if trace == [] then 0
    else
      var a := trace[|trace| - 1];
      BatchesIn(trace[..|trace| - 1], slots) + (if a.Wrote? && Slot(|a.batch|) in slots then 1 else 0)
  }

  const ALL_SLOTS: set<nat> := {0, 1, 2, 3, 4}

  predicate GoodBatches(trace: seq<Action>) {
    forall a <- trace :: a.Wrote? ==> 1 <= |a.batch| <= WAL_BATCH
  }

  /** What a stop leaves: requests up to some point handled, at most one write torn, no later ack good. */
  ghost predicate StoppedInside(start: seq<Byte>, msgs: seq<WalMsg>, trace: seq<Action>, file: seq<Byte>) {
    var done := |Handled(trace)|;
    && done < |msgs| && Handled(trace) == msgs[..done]
    && var before := FileAfter(start, trace);
       if msgs[done].Compact? then file == before || file == Joined(msgs[done].lines)
       else exists torn :: Torn(msgs, done, before, file, torn)
  }

  /** The file holds part of one batch, made of the next requests. */
  ghost predicate Torn(msgs: seq<WalMsg>, done: nat, before: seq<Byte>, file: seq<Byte>, torn: seq<Line>) {
    && 1 <= |torn| <= WAL_BATCH && done + |torn| <= |msgs|
    && Appends(torn) == msgs[done..done + |torn|]
    && PartlyWritten(before, file, torn)
  }

  ghost predicate PartlyWritten(before: seq<Byte>, file: seq<Byte>, batch: seq<Line>) {
    before <= file <= before + Joined(batch)
  }

  /** The append at hand and the appends behind it, up to a compaction, the limit or an empty queue. */
  method TakeBatch(line: Line, msgs: seq<WalMsg>, from: nat)
    returns (batch: seq<Line>, carried: Option<WalMsg>, taken: nat)
    requires from <= |msgs|
    ensures from <= taken <= |msgs| && 1 <= |batch| <= WAL_BATCH
    ensures [Append(line)] + msgs[from..taken] == Appends(batch) + (if carried.Some? then [carried.value] else [])
    ensures carried.Some? ==> carried.value.Compact? && taken > from
  {
    batch, carried, taken := [line], None, from;
    while |batch| < WAL_BATCH
      invariant from <= taken <= |msgs| && 1 <= |batch| <= WAL_BATCH && carried.None?
      invariant [Append(line)] + msgs[from..taken] == Appends(batch)
    {
      var empty: bool := *;
      if empty || taken == |msgs| { break; }
      var m := msgs[taken];
      taken := taken + 1;
      assert msgs[from..taken] == msgs[from..taken - 1] + [m];
      if m.Compact? {
        carried := Some(m);
        break;
      }
      assert Appends(batch + [m.line]) == Appends(batch) + [m];
      batch := batch + [m.line];
    }
  }

  /** The writer's invariant: what was taken from the queue is handled, in order, or still pending. */
  ghost predicate Progress(start: seq<Byte>, msgs: seq<WalMsg>, taken: nat, pending: seq<WalMsg>,
                           trace: seq<Action>, acks: seq<Ack>, file: seq<Byte>)
  {
    && taken <= |msgs| && Handled(trace) + pending == msgs[..taken]
    && GoodBatches(trace) && acks == AcksFor(start, trace) && file == FileAfter(start, trace)
  }

  ghost predicate Tally(trace: seq<Action>, hist: seq<nat>, batches: nat, events: nat) {
    && |hist| == 5 && (forall b :: 0 <= b < 5 ==> hist[b] == BatchesIn(trace, {b}))
    && batches == BatchesIn(trace, ALL_SLOTS) && events == AppendsIn(trace)
    && batches == hist[0] + hist[1] + hist[2] + hist[3] + hist[4]
  }

  lemma TookMore(start: seq<Byte>, msgs: seq<WalMsg>, taken: nat, pending: seq<WalMsg>,
                 trace: seq<Action>, acks: seq<Ack>, file: seq<Byte>, now: nat)
    requires Progress(start, msgs, taken, pending, trace, acks, file) && taken <= now <= |msgs|
    ensures Progress(start, msgs, now, pending + msgs[taken..now], trace, acks, file)
  {
    assert msgs[..now] == msgs[..taken] + msgs[taken..now];
  }

  lemma DidAction(start: seq<Byte>, msgs: seq<WalMsg>, taken: nat, pending: seq<WalMsg>,
                  trace: seq<Action>, acks: seq<Ack>, file: seq<Byte>, a: Action)
    requires Progress(start, msgs, taken, MessagesOf(a) + pending, trace, acks, file)
    requires a.Wrote? ==> 1 <= |a.batch| <= WAL_BATCH
    ensures var now := Effect(file, a);
            Progress(start, msgs, taken, pending, trace + [a], acks + AcksOf(a, now), now)
  {
    assert (trace + [a])[..|trace|] == trace;
    assert Handled(trace) + (MessagesOf(a) + pending) == Handled(trace) + MessagesOf(a) + pending;
  }

  lemma TallyMore(trace: seq<Action>, hist: seq<nat>, batches: nat, events: nat, a: Action)
    requires Tally(trace, hist, batches, events)
    ensures !a.Wrote? ==> Tally(trace + [a], hist, batches, events)
    ensures a.Wrote? ==>
      var b := Slot(|a.batch|);
      Tally(trace + [a], hist[b := hist[b] + 1], batches + 1, events + |a.batch|)
  {
    assert (trace + [a])[..|trace|] == trace;
  }

  lemma Middle<T>(all: seq<T>, end: nat, a: seq<T>, b: seq<T>, c: seq<T>)
    requires end <= |all| && a + (b + c) == all[..end]
    ensures |a| + |b| <= |all| && all[..|a|] == a && all[|a|..|a| + |b|] == b
  {
    var front := all[..end];
    assert front == a + (b + c);
    assert all[..|a|] == front[..|a|] == a;
    assert all[|a|..|a| + |b|] == front[|a|..|a| + |b|] == b;
  }

  lemma TornStop(start: seq<Byte>, msgs: seq<WalMsg>, trace: seq<Action>, file: seq<Byte>, torn: seq<Line>)
    requires var done := |Handled(trace)|;
      && done + |torn| <= |msgs| && Handled(trace) == msgs[..done]
      && Appends(torn) == msgs[done..done + |torn|]
    requires 1 <= |torn| <= WAL_BATCH
    requires PartlyWritten(FileAfter(start, trace), file, torn)
    ensures StoppedInside(start, msgs, trace, file)
  {
    hide Handled;
    hide FileAfter;
    hide Joined;
    hide PartlyWritten;
    var done := |Handled(trace)|;
    var batch := msgs[done..done + |torn|];
    assert msgs[done] == batch[0];
    assert batch[0] == Appends(torn)[0] == Append(torn[0]);
    assert Torn(msgs, done, FileAfter(start, trace), file, torn);
  }

  lemma TornBatch(start: seq<Byte>, msgs: seq<WalMsg>, taken: nat, pending: seq<WalMsg>,
                  trace: seq<Action>, acks: seq<Ack>, before: seq<Byte>, file: seq<Byte>, torn: seq<Line>)
    requires Progress(start, msgs, taken, Appends(torn) + pending, trace, acks, before)
    requires 1 <= |torn| <= WAL_BATCH && PartlyWritten(before, file, torn)
    ensures StoppedInside(start, msgs, trace, file)
  {
    hide *;
    ProgressMeans(start, msgs, taken, Appends(torn) + pending, trace, acks, before);
    Middle(msgs, taken, Handled(trace), Appends(torn), pending);
    TornStop(start, msgs, trace, file, torn);
  }

  lemma DidBatch(start: seq<Byte>, msgs: seq<WalMsg>, taken: nat, pending: seq<WalMsg>,
                 trace: seq<Action>, acks: seq<Ack>, file: seq<Byte>, batch: seq<Line>)
    requires Progress(start, msgs, taken, Appends(batch) + pending, trace, acks, file)
    requires 1 <= |batch| <= WAL_BATCH
    ensures var now := file + Joined(batch);
            Progress(start, msgs, taken, pending, trace + [Wrote(batch)], acks + Repeat(Ack(true, now), |batch|), now)
  {
    hide Progress;
    DidAction(start, msgs, taken, pending, trace, acks, file, Wrote(batch));
  }

  lemma EffectOfCompaction(file: seq<Byte>, a: Action)
    requires !a.Wrote?
    ensures Effect(file, a) == if a.Swapped? then Joined(a.snapshot) else file
  {
  }

  lemma DidCompaction(start: seq<Byte>, msgs: seq<WalMsg>, taken: nat, lines: seq<Line>,
                      trace: seq<Action>, acks: seq<Ack>, file: seq<Byte>, a: Action)
    requires Progress(start, msgs, taken, [Compact(lines)], trace, acks, file)
    requires a == Swapped(lines) || a == KeptOld(lines)
    ensures var now := Effect(file, a);
            Progress(start, msgs, taken, [], trace + [a], acks + [Ack(a.Swapped?, now)], now)
  {
    hide Progress;
    assert [Compact(lines)] == MessagesOf(a) + [];
    DidAction(start, msgs, taken, [], trace, acks, file, a);
  }

  /**
    The writer loop over all requests ever sent; `*` decides when the queue looks empty and
    which disk operations fail.
   */
  method WalWriter(f: LogFile, msgs: seq<WalMsg>)
    returns (stopped: bool, ghost trace: seq<Action>, acks: seq<Ack>, hist: seq<nat>, batches: nat, events: nat)
    requires f.bytes == f.durable
    modifies f
    ensures GoodBatches(trace)
    ensures !stopped ==> Handled(trace) == msgs && acks == AcksFor(old(f.bytes), trace)
    ensures !stopped ==> f.bytes == f.durable == FileAfter(old(f.bytes), trace)
    ensures !stopped ==> Tally(trace, hist, batches, events)
    ensures stopped ==> StoppedInside(old(f.bytes), msgs, trace, f.bytes)
    ensures stopped ==> AcksFor(old(f.bytes), trace) <= acks
    ensures forall i :: |Handled(trace)| <= i < |acks| ==> !acks[i].ok
  {
    hide *;
    ghost var start := f.bytes;
    var counts := new nat[5](i => 0);
    stopped, trace, acks, batches, events := false, [], [], 0, 0;
    var carried: Option<WalMsg> := None;
    var taken := 0;
    NothingYet(start, msgs);
    assert counts[..] == [0, 0, 0, 0, 0];
    while true
      invariant !stopped && f.bytes == f.durable && taken <= |msgs|
      invariant Progress(start, msgs, taken, if carried.Some? then [carried.value] else [], trace, acks, f.bytes)
      invariant Tally(trace, counts[..], batches, events)
      decreases |msgs| - taken, carried.Some?
    {
      var first: WalMsg;
      ghost var from := taken;
      if carried.Some? {
        first, carried := carried.value, None;
      } else if taken < |msgs| {
        first, taken := msgs[taken], taken + 1;
        TookMore(start, msgs, from, [], trace, acks, f.bytes, taken);
        assert [] + msgs[from..taken] == [first];
      } else {
        ProgressMeans(start, msgs, taken, [], trace, acks, f.bytes);
        break;
      }
      if first.Compact? {
        ghost var before := f.bytes;
        var replaced := f.CompactWal(first.lines);
        if !replaced && !f.sibling {
          ProgressMeans(start, msgs, taken, [first], trace, acks, before);
          StoppedAtCompaction(start, msgs, taken, first, trace, acks, before, f.bytes);
          stopped := true;
          break;
        }
        ghost var a := if replaced then Swapped(first.lines) else KeptOld(first.lines);
        DidCompaction(start, msgs, taken, first.lines, trace, acks, before, a);
        EffectOfCompaction(before, a);
        TallyMore(trace, counts[..], batches, events, a);
        trace := trace + [a];
        acks := acks + [Ack(replaced, f.durable)];
        continue;
      }
      from := taken;
      var batch;
      batch, carried, taken := TakeBatch(first.line, msgs, taken);
      ghost var behind := if carried.Some? then [carried.value] else [];
      TookMore(start, msgs, from, [first], trace, acks, f.bytes, taken);
      ghost var a := Wrote(batch);
      TallyMore(trace, counts[..], batches, events, a);
      batches, events := batches + 1, events + |batch|;
      counts[Slot(|batch|)] := counts[Slot(|batch|)] + 1;
      ghost var before := f.bytes;
      var ok := WriteBatch(f, batch);
      if !ok {
        ProgressMeans(start, msgs, taken, Appends(batch) + behind, trace, acks, before);
        TornBatch(start, msgs, taken, behind, trace, acks, before, f.bytes, batch);
        acks := acks + Repeat(Ack(false, f.durable), |batch|);
        stopped := true;
        break;
      }
      DidBatch(start, msgs, taken, behind, trace, acks, before, batch);
      trace := trace + [a];
      acks := acks + Repeat(Ack(true, f.durable), |batch|);
    }
    hist := counts[..];
  }

  lemma ProgressMeans(start: seq<Byte>, msgs: seq<WalMsg>, taken: nat, pending: seq<WalMsg>,
                      trace: seq<Action>, acks: seq<Ack>, file: seq<Byte>)
    requires Progress(start, msgs, taken, pending, trace, acks, file)
    ensures GoodBatches(trace) && acks == AcksFor(start, trace) && file == FileAfter(start, trace)
    ensures |acks| == |Handled(trace)|
    ensures taken <= |msgs| && Handled(trace) + pending == msgs[..taken]
    ensures pending == [] && taken == |msgs| ==> Handled(trace) == msgs
  {
    assert msgs[..|msgs|] == msgs;
  }

  lemma NothingYet(start: seq<Byte>, msgs: seq<WalMsg>)
    ensures Progress(start, msgs, 0, [], [], [], start) && Tally([], [0, 0, 0, 0, 0], 0, 0)
  {
  }

  lemma StoppedAtCompaction(start: seq<Byte>, msgs: seq<WalMsg>, taken: nat, m: WalMsg,
                            trace: seq<Action>, acks: seq<Ack>, before: seq<Byte>, file: seq<Byte>)
    requires Progress(start, msgs, taken, [m], trace, acks, before) && m.Compact?
    requires file == before || file == Joined(m.lines)
    ensures StoppedInside(start, msgs, trace, file)
  {
    hide Joined;
    Middle(msgs, taken, Handled(trace), [m], []);
    assert [m] + [] == [m];
    assert msgs[|Handled(trace)|] == msgs[|Handled(trace)|..|Handled(trace)| + 1][0];
  }

  function AppendsIn(trace: seq<Action>): nat {
    if trace == [] then 0
    else AppendsIn(trace[..|trace| - 1]) + (if trace[|trace| - 1].Wrote? then |trace[|trace| - 1].batch| else 0)
  }

  /** One buffer, one write, one sync for the whole batch. */
  method WriteBatch(f: LogFile, batch: seq<Line>) returns (ok: bool)
    modifies f
    ensures ok ==> f.bytes == f.durable == old(f.bytes) + Joined(batch)
    ensures !ok ==> PartlyWritten(old(f.bytes), f.bytes, batch)
  {
    var buf := [];
    for i := 0 to |batch|
      invariant buf == Joined(batch[..i])
    {
      assert batch[..i + 1][..i] == batch[..i];
      buf := buf + batch[i] + [NEWLINE];
    }
    assert batch[..|batch|] == batch;
    ok := f.WriteAll(buf);
    if ok { ok := f.SyncData(); }
  }
}
