/**
  The recovery barrier: what a restart makes of the bytes a crash left in the log.
  `Recover` says what the barrier decides; `RecoveryBarrier` is the barrier itself,
  working on an open file and a gate.
 */
module Recovery {
  import opened Options
  import opened Texts
  import opened GateModel
  import opened Replay
  import opened RecordCodec
  import Soundgate

  /** The bytes of a log: every record followed by its newline. */
  function EncodeLog(log: seq<Event>): seq<Byte> {
    if log == [] then []
    else EncodeLog(log[..|log| - 1]) + Encode(log[|log| - 1]) + [NEWLINE]
  }

  predicate AsciiSpace(b: Byte) { b == 0x20 || b == 0x09 || b == 0x0A || b == 0x0C || b == 0x0D }

  predicate AllSpace(line: seq<Byte>) { forall b <- line :: AsciiSpace(b) }

  /** Length of the part that ends with the last newline. */
  function CompleteLen(bytes: seq<Byte>): (n: nat)
    ensures n <= |bytes|
    ensures n > 0 ==> bytes[n - 1] == NEWLINE
    ensures forall i :: n <= i < |bytes| ==> bytes[i] != NEWLINE
  {
    if bytes == [] then 0
    else if bytes[|bytes| - 1] == NEWLINE then |bytes|
    else CompleteLen(bytes[..|bytes| - 1])
  }

  predicate LineEnd(bytes: seq<Byte>) { bytes == [] || bytes[|bytes| - 1] == NEWLINE }

  /** The events of newline-terminated lines; blank lines are skipped, any other line must parse. */
  function Records(complete: seq<Byte>): Option<seq<Event>>
    requires LineEnd(complete)
    decreases |complete|
  {
    if complete == [] then Some([])
    else
      var n := |complete| - 1;
      var start := CompleteLen(complete[..n]);
      var line := complete[start..n];
      var before := Records(complete[..start]);
      if before.None? || AllSpace(line) then before
      else if Decode(line).None? then None
      else Some(before.value + [Decode(line).value])
  }

  datatype Outcome = RefuseToStart | Recovered(file: seq<Byte>, events: seq<Event>)

  function Recover(bytes: seq<Byte>): Outcome {
    var complete, tail := bytes[..CompleteLen(bytes)], bytes[CompleteLen(bytes)..];
    var records := Records(complete);
    if records.None? then RefuseToStart
    else if AllSpace(tail) || Decode(tail).None? then Recovered(complete, records.value)
    else Recovered(bytes + [NEWLINE], records.value + [Decode(tail).value])
  }

  // ---- The barrier as a program over an open file ----

  /** An open file with its cursor; writing past the end leaves a hole of NUL bytes. */
  class WalFile {
    var bytes: seq<Byte>
    var pos: nat

    constructor (initial: seq<Byte>)
      ensures bytes == initial && pos == 0
    {
      bytes, pos := initial, 0;
    }

    method ReadToEnd() returns (read: seq<Byte>)
      requires pos <= |bytes|
      modifies this`pos
      ensures read == bytes[old(pos)..] && pos == |bytes|
    {
      read := bytes[pos..];
      pos := |bytes|;
    }

    method SetLen(n: nat)
      requires n <= |bytes|
      modifies this`bytes
      ensures bytes == old(bytes)[..n]
    {
      bytes := bytes[..n];
    }

    method WriteAll(buf: seq<Byte>)
      modifies this
      ensures old(pos) == |old(bytes)| ==> bytes == old(bytes) + buf
      ensures pos == old(pos) + |buf|
    {
      var hole := if pos > |bytes| then seq(pos - |bytes|, i => 0 as Byte) else [];
      var kept := bytes + hole;
      bytes := kept[..pos] + buf + (if pos + |buf| < |kept| then kept[pos + |buf|..] else []);
      pos := pos + |buf|;
    }

    method SeekEnd()
      modifies this`pos
      ensures pos == |bytes|
    {
      pos := |bytes|;
    }
  }

  lemma {:induction false} CompleteLenIs(bytes: seq<Byte>, n: nat)
    requires n <= |bytes| && LineEnd(bytes[..n])
    requires forall i :: n <= i < |bytes| ==> bytes[i] != NEWLINE
    ensures CompleteLen(bytes) == n
    decreases |bytes|
  {
    if n < |bytes| {
      assert bytes[..|bytes| - 1][..n] == bytes[..n];
      CompleteLenIs(bytes[..|bytes| - 1], n);
    } else {
      assert bytes[..n] == bytes;
    }
  }

  /** Where the last line of a longer log begins, after the lines before it. */
  lemma LastLineIsLater(bytes: seq<Byte>, n: nat)
    requires n < |bytes| && LineEnd(bytes[..n]) && LineEnd(bytes)
    ensures var start := CompleteLen(bytes[..|bytes| - 1]);
            n <= start < |bytes| && LineEnd(bytes[..start]) && bytes[..start][..n] == bytes[..n]
  {
    var last := |bytes| - 1;
    var start := CompleteLen(bytes[..last]);
    assert n > 0 ==> bytes[..last][n - 1] == NEWLINE;
    assert bytes[..last][..start] == bytes[..start];
  }

  /** A bad line makes every longer log bad. */
  lemma {:induction false} BadLineStays(bytes: seq<Byte>, n: nat)
    requires n <= |bytes| && LineEnd(bytes[..n]) && LineEnd(bytes)
    requires Records(bytes[..n]) == None
    ensures Records(bytes) == None
    decreases |bytes|
  {
    hide Decode;
    hide AllSpace;
    if n == |bytes| {
      assert bytes[..n] == bytes;
    } else {
      LastLineIsLater(bytes, n);
      var start := CompleteLen(bytes[..|bytes| - 1]);
      BadLineStays(bytes[..start], n);
      assert bytes[..|bytes| - 1][..start] == bytes[..start];
    }
  }

  /** What reading one more line adds to what was read. */
  lemma OneMoreLine(bytes: seq<Byte>, start: nat, end: nat)
    requires start <= end < |bytes| && LineEnd(bytes[..start]) && bytes[end] == NEWLINE
    requires forall k :: start <= k < end ==> bytes[k] != NEWLINE
    ensures LineEnd(bytes[..end + 1])
    ensures var line, before := bytes[start..end], Records(bytes[..start]);
            Records(bytes[..end + 1]) ==
              if before.None? || AllSpace(line) then before
              else if Decode(line).None? then None
              else Some(before.value + [Decode(line).value])
  {
    hide Decode;
    var complete := bytes[..end + 1];
    assert complete[..end] == bytes[..end];
    assert bytes[..end][..start] == bytes[..start];
    CompleteLenIs(bytes[..end], start);
    assert complete[..start] == bytes[..start];
    assert complete[start..end] == bytes[start..end];
  }

  method CompletePart(bytes: seq<Byte>) returns (n: nat)
    ensures n == CompleteLen(bytes)
  {
    n := |bytes|;
    while n > 0 && bytes[n - 1] != NEWLINE
      invariant n <= |bytes|
      invariant forall i :: n <= i < |bytes| ==> bytes[i] != NEWLINE
    {
      n := n - 1;
    }
    CompleteLenIs(bytes, n);
  }

  lemma NoRecords()
    ensures Records([]) == Some([])
  {
  }

  method ParseLines(complete: seq<Byte>) returns (records: Option<seq<Event>>)
    requires LineEnd(complete)
    ensures records == Records(complete)
  {
    hide Decode;
    hide Records;
    assert Records([]) == Some([]) by { NoRecords(); }
    var events := [];
    var start := 0;
    for i := 0 to |complete|
      invariant start <= i && LineEnd(complete[..start])
      invariant i > 0 && complete[i - 1] == NEWLINE ==> start == i
      invariant forall k :: start <= k < i ==> complete[k] != NEWLINE
      invariant Records(complete[..start]) == Some(events)
    {
      if complete[i] == NEWLINE {
        var line := complete[start..i];
        OneMoreLine(complete, start, i);
        if !AllSpace(line) {
          var ev := Decode(line);
          if ev.None? {
            BadLineStays(complete, i + 1);
            return None;
          }
          events := events + [ev.value];
        }
        start := i + 1;
      }
    }
    assert complete[..|complete|] == complete;
    records := Some(events);
  }

  predicate IsClosed(ev: Event) { ev.Closed? }

  method ReplayInto(gate: Soundgate.Gate, events: seq<Event>) returns (sawClosed: bool)
    requires gate.Valid()
    modifies gate
    ensures gate.Valid() && gate.State() == Replayed(old(gate.State()), events)
    ensures sawClosed <==> exists ev <- events :: IsClosed(ev)
  {
    sawClosed := false;
    for i := 0 to |events|
      invariant gate.Valid()
      invariant gate.State() == Replayed(old(gate.State()), events[..i])
      invariant sawClosed <==> exists ev <- events[..i] :: IsClosed(ev)
    {
      assert events[..i + 1][..i] == events[..i];
      assert events[..i + 1] == events[..i] + [events[i]];
      sawClosed := sawClosed || IsClosed(events[i]);
      gate.Apply(events[i]);
    }
    assert events[..|events|] == events;
  }

  /**
    Refuses, touching nothing, or leaves the file repaired with the cursor at its end
    and the gate replayed.
   */
  method RecoveryBarrier(f: WalFile, gate: Soundgate.Gate)
    returns (ok: bool, replayed: nat, sawClosed: bool)
    requires f.pos == 0 && gate.Valid()
    modifies f, gate
    ensures gate.Valid()
    ensures ok <==> Recover(old(f.bytes)).Recovered?
    ensures !ok ==> f.bytes == old(f.bytes) && gate.State() == old(gate.State())
    ensures ok ==>
      var r := Recover(old(f.bytes));
      && f.bytes == r.file && f.pos == |f.bytes|
      && gate.State() == Replayed(old(gate.State()), r.events)
      && replayed == |r.events|
      && (sawClosed <==> exists ev <- r.events :: IsClosed(ev))
  {
    hide Decode;
    hide Records;
    ok, replayed, sawClosed := false, 0, false;
    var bytes := f.ReadToEnd();
    assert bytes == f.bytes;
    var completeLen := CompletePart(bytes);
    var complete, tail := bytes[..completeLen], bytes[completeLen..];
    var records := ParseLines(complete);
    if records.None? { return; }
    var events := records.value;
    assert bytes == complete + tail;
    if tail != [] {
      if AllSpace(tail) {
        f.SetLen(completeLen);
      } else {
        var ev := Decode(tail);
        if ev.Some? {
          events := events + [ev.value];
          f.WriteAll([NEWLINE]);
        } else {
          f.SetLen(completeLen);
        }
      }
    }
    f.SeekEnd();
    sawClosed := ReplayInto(gate, events);
    ok, replayed := true, |events|;
  }

  // ---- What the barrier makes of arbitrary lines ----

  function Terminated(lines: seq<seq<Byte>>): seq<Byte> {
    if lines == [] then [] else Terminated(lines[..|lines| - 1]) + lines[|lines| - 1] + [NEWLINE]
  }

  /** Nothing but space, tab, form feed or carriage return. */
  predicate BlankLine(line: seq<Byte>) { forall b <- line :: b in [0x20, 0x09, 0x0C, 0x0D] }

  predicate BadLine(line: seq<Byte>) { !BlankLine(line) && Decode(line) == None }

  predicate NoNewline(line: seq<Byte>) { NEWLINE !in line }

  /** The events of the lines that are not blank. */
  function EventsOf(lines: seq<seq<Byte>>): seq<Event> {
    if lines == [] then []
    else
      var m := |lines| - 1;
      var ev := Decode(lines[m]);
      if BlankLine(lines[m]) || ev.None? then EventsOf(lines[..m]) else EventsOf(lines[..m]) + [ev.value]
  }

  lemma BlankIsAllSpace(line: seq<Byte>)
    requires NoNewline(line)
    ensures BlankLine(line) <==> AllSpace(line)
  {
    assert forall b <- line :: b != NEWLINE;
  }

  lemma RecordsWithAnyLine(before: seq<Byte>, line: seq<Byte>)
    requires LineEnd(before) && NoNewline(line)
    ensures LineEnd(before + line + [NEWLINE])
    ensures Records(before + line + [NEWLINE]) ==
            match Records(before)
            case None => None
            case Some(log) =>
              if BlankLine(line) then Some(log)
              else match Decode(line) case None => None case Some(ev) => Some(log + [ev])
  {
    hide Decode;
    hide Records;
    var bytes := before + line + [NEWLINE];
    BlankIsAllSpace(line);
    assert bytes[..|before|] == before && bytes[|before|..|bytes| - 1] == line;
    assert bytes[..|bytes| - 1 + 1] == bytes;
    OneMoreLine(bytes, |before|, |bytes| - 1);
  }

  ghost predicate HasBadLine(lines: seq<seq<Byte>>) { exists line <- lines :: BadLine(line) }

  /** What the last line adds. */
  lemma LastLine(lines: seq<seq<Byte>>)
    requires lines != []
    ensures var before, line := lines[..|lines| - 1], lines[|lines| - 1];
            && Terminated(lines) == Terminated(before) + line + [NEWLINE]
            && (HasBadLine(lines) <==> HasBadLine(before) || BadLine(line))
            && EventsOf(lines) == match Decode(line)
                                  case None => EventsOf(before)
                                  case Some(ev) => if BlankLine(line) then EventsOf(before) else EventsOf(before) + [ev]
  {
    hide Decode;
    hide BlankLine;
    var m := |lines| - 1;
    assert forall line :: line in lines <==> line in lines[..m] || line == lines[m];
  }

  /** Any terminated lines: one bad line refuses all, otherwise the others are read in order. */
  lemma {:induction false} RecordsOfLines(lines: seq<seq<Byte>>)
    requires forall line <- lines :: NoNewline(line)
    ensures LineEnd(Terminated(lines))
    ensures Records(Terminated(lines)) == if HasBadLine(lines) then None else Some(EventsOf(lines))
    decreases |lines|
  {
    if lines == [] {
      NoRecords();
    } else {
      hide Decode;
      hide Records;
      hide BlankLine;
      hide Terminated;
      hide EventsOf;
      hide HasBadLine;
      hide LineEnd;
      hide NoNewline;
      var m := |lines| - 1;
      assert forall line <- lines[..m] :: line in lines;
      RecordsOfLines(lines[..m]);
      LastLine(lines);
      RecordsWithAnyLine(Terminated(lines[..m]), lines[m]);
    }
  }

  /** Any file: terminated lines and a rest. The rest is dropped unless it is a record that lacks its newline. */
  lemma RecoverLines(lines: seq<seq<Byte>>, tail: seq<Byte>)
    requires (forall line <- lines :: NoNewline(line)) && NoNewline(tail)
    ensures Recover(Terminated(lines) + tail) ==
            if HasBadLine(lines) then RefuseToStart
            else if BlankLine(tail) || BadLine(tail) then Recovered(Terminated(lines), EventsOf(lines))
            else Recovered(Terminated(lines + [tail]), EventsOf(lines + [tail]))
  {
    hide Decode;
    RecordsOfLines(lines);
    BlankIsAllSpace(tail);
    hide Records;
    var complete, bytes := Terminated(lines), Terminated(lines) + tail;
    assert bytes[..|complete|] == complete && bytes[|complete|..] == tail;
    CompleteLenIs(bytes, |complete|);
    assert (lines + [tail])[..|lines|] == lines;
  }

  // ---- What survives a crash ----

  lemma {:induction false} EncodeLogConcat(a: seq<Event>, b: seq<Event>)
    ensures EncodeLog(a + b) == EncodeLog(a) + EncodeLog(b)
    decreases |b|
  {
    hide Encode;
    if b == [] {
      assert a + b == a;
    } else {
      var m := |b| - 1;
      assert (a + b)[..|a + b| - 1] == a + b[..m];
      EncodeLogConcat(a, b[..m]);
    }
  }

  lemma EncodeLogEnds(log: seq<Event>)
    ensures LineEnd(EncodeLog(log))
  {
  }

  lemma EncodedIsNotBlank(ev: Event, n: nat)
    requires 0 < n <= |Encode(ev)|
    ensures !AllSpace(Encode(ev)[..n])
  {
    hide Encode;
    StartsWithTag(ev);
    var line := Encode(ev)[..n];
    assert line[0] == OPEN && line[0] in line;
  }

  /** Where the last line of a log extended by part of a record begins. */
  lemma TailOfLog(log: seq<Event>, ev: Event, n: nat)
    requires n <= |Encode(ev)|
    ensures CompleteLen(EncodeLog(log) + Encode(ev)[..n]) == |EncodeLog(log)|
  {
    hide Encode;
    var bytes := EncodeLog(log) + Encode(ev)[..n];
    EncodeLogEnds(log);
    OneLine(ev);
    assert bytes[..|EncodeLog(log)|] == EncodeLog(log);
    CompleteLenIs(bytes, |EncodeLog(log)|);
  }

  /** A line appended to a log and terminated is read as one record, or makes the log bad. */
  lemma RecordsWithLine(before: seq<Byte>, log: seq<Event>, line: seq<Byte>)
    requires LineEnd(before) && Records(before) == Some(log)
    requires NEWLINE !in line && !AllSpace(line)
    ensures LineEnd(before + line + [NEWLINE])
    ensures Records(before + line + [NEWLINE]) == match Decode(line) case None => None case Some(ev) => Some(log + [ev])
  {
    hide Decode;
    hide Records;
    BlankIsAllSpace(line);
    RecordsWithAnyLine(before, line);
  }

  lemma {:induction false} RecordsOfLog(log: seq<Event>)
    ensures LineEnd(EncodeLog(log)) && Records(EncodeLog(log)) == Some(log)
    decreases |log|
  {
    hide Encode;
    hide Decode;
    if log != [] {
      var m := |log| - 1;
      var line := Encode(log[m]);
      RecordsOfLog(log[..m]);
      OneLine(log[m]);
      StartsWithTag(log[m]);
      EncodedIsNotBlank(log[m], |line|);
      assert line[..|line|] == line;
      RoundTrip(log[m]);
      RecordsWithLine(EncodeLog(log[..m]), log[..m], line);
      assert log == log[..m] + [log[m]];
    }
  }

  /** How many records of the log lie wholly before the cut, their newline not needed. */
  function Whole(log: seq<Event>, cut: nat): (k: nat)
    ensures k <= |log|
  {
    if log == [] then 0
    else if |EncodeLog(log)| <= cut + 1 then |log|
    else Whole(log[..|log| - 1], cut)
  }

  /** The count is the one it should be: the counted records fit, the next one does not. */
  lemma {:induction false} WholeFits(log: seq<Event>, cut: nat)
    ensures var k := Whole(log, cut);
            && (k > 0 ==> |EncodeLog(log[..k])| <= cut + 1)
            && (k < |log| ==> |EncodeLog(log[..k + 1])| > cut + 1)
    decreases |log|
  {
    hide EncodeLog;
    if log != [] {
      var m := |log| - 1;
      var k := Whole(log, cut);
      assert log[..|log|] == log;
      if k < |log| {
        WholeFits(log[..m], cut);
        assert log[..m][..k] == log[..k];
        assert k < m ==> log[..m][..k + 1] == log[..k + 1];
      }
    }
  }

  lemma RecoverTornRecord(log: seq<Event>, ev: Event, n: nat)
    requires 0 < n <= |Encode(ev)|
    ensures Recover(EncodeLog(log) + Encode(ev)[..n]) ==
            if n < |Encode(ev)| then Recovered(EncodeLog(log), log)
            else Recovered(EncodeLog(log + [ev]), log + [ev])
  {
    hide Encode;
    hide Decode;
    var before, line := EncodeLog(log), Encode(ev);
    var bytes := before + line[..n];
    TailOfLog(log, ev, n);
    RecordsOfLog(log);
    assert bytes[..|before|] == before && bytes[|before|..] == line[..n];
    EncodedIsNotBlank(ev, n);
    assert (log + [ev])[..|log|] == log;
    if n < |line| {
      NoProperPrefixParses(ev, n);
    } else {
      RoundTrip(ev);
      assert line[..n] == line;
    }
  }

  lemma RecoverWholeLog(log: seq<Event>)
    ensures Recover(EncodeLog(log)) == Recovered(EncodeLog(log), log)
  {
    hide Encode;
    hide Decode;
    var bytes := EncodeLog(log);
    RecordsOfLog(log);
    assert bytes[..|bytes|] == bytes;
    CompleteLenIs(bytes, |bytes|);
  }

  lemma WholeOfTornRecord(log: seq<Event>, ev: Event, n: nat)
    requires n <= |Encode(ev)|
    ensures Whole(log + [ev], |EncodeLog(log)| + n) == if n < |Encode(ev)| then |log| else |log| + 1
  {
    hide Encode;
    var all := log + [ev];
    assert all[..|log|] == log;
    assert log[..|log|] == log;
    if n < |Encode(ev)| && log != [] {
      assert Whole(log, |EncodeLog(log)| + n) == |log|;
    }
  }

  /**
    Wherever a crash cuts a log, the barrier starts, recovers exactly the records wholly
    present and leaves the file equal to their newline-terminated encoding.
   */
  lemma {:induction false} RecoverCut(log: seq<Event>, cut: nat)
    requires cut <= |EncodeLog(log)|
    ensures var k := Whole(log, cut);
            Recover(EncodeLog(log)[..cut]) == Recovered(EncodeLog(log[..k]), log[..k])
    decreases |log|
  {
    hide Encode;
    hide Recover;
    var bytes := EncodeLog(log);
    if cut == |bytes| {
      assert bytes[..cut] == bytes && log[..|log|] == log;
      RecoverWholeLog(log);
    } else {
      var m := |log| - 1;
      var before, line := EncodeLog(log[..m]), Encode(log[m]);
      assert bytes == before + line + [NEWLINE];
      assert log == log[..m] + [log[m]];
      var n := cut - |before|;
      if n <= 0 {
        assert bytes[..cut] == before[..cut];
        RecoverCut(log[..m], cut);
        StartsWithTag(log[m]);
        assert log[..m][..Whole(log[..m], cut)] == log[..Whole(log, cut)];
      } else {
        assert bytes[..cut] == before + line[..n];
        RecoverTornRecord(log[..m], log[m], n);
        WholeOfTornRecord(log[..m], log[m], n);
        assert log[..|log|] == log;
      }
    }
  }

  lemma {:induction false} PrefixLength(log: seq<Event>, i: nat, j: nat)
    requires i <= j <= |log|
    ensures |EncodeLog(log[..i])| <= |EncodeLog(log[..j])|
    decreases j
  {
    hide Encode;
    assert log[..j] == log[..i] + log[i..j];
    EncodeLogConcat(log[..i], log[i..j]);
  }

  lemma WholeIs(log: seq<Event>, cut: nat, k: nat)
    requires k <= |log|
    requires k > 0 ==> |EncodeLog(log[..k])| <= cut + 1
    requires k < |log| ==> |EncodeLog(log[..k + 1])| > cut + 1
    ensures Whole(log, cut) == k
  {
    hide Encode;
    var w := Whole(log, cut);
    WholeFits(log, cut);
    if w < k { PrefixLength(log, w + 1, k); }
    if k < w { PrefixLength(log, k + 1, w); }
  }

  lemma WholeOfConcat(log: seq<Event>, torn: seq<Event>, cut: nat)
    ensures Whole(log + torn, |EncodeLog(log)| + cut) == |log| + Whole(torn, cut)
  {
    hide Encode;
    var all, k := log + torn, Whole(torn, cut);
    WholeFits(torn, cut);
    hide Whole;
    assert all[..|log| + k] == log + torn[..k];
    EncodeLogConcat(log, torn[..k]);
    if k < |torn| {
      assert all[..|log| + k + 1] == log + torn[..k + 1];
      EncodeLogConcat(log, torn[..k + 1]);
    }
    if k == 0 { assert |log| > 0 ==> EncodeLog(all[..|log|]) == EncodeLog(log) by { assert all[..|log|] == log; } }
    WholeIs(all, |EncodeLog(log)| + cut, |log| + k);
  }

  /** A crash in the middle of appending `torn` to a recovered log: nothing before it is lost. */
  lemma RecoverTornAppend(log: seq<Event>, torn: seq<Event>, cut: nat)
    requires cut <= |EncodeLog(torn)|
    ensures var kept := log + torn[..Whole(torn, cut)];
            Recover(EncodeLog(log) + EncodeLog(torn)[..cut]) == Recovered(EncodeLog(kept), kept)
  {
    hide Encode;
    hide Recover;
    var at := |EncodeLog(log)| + cut;
    EncodeLogConcat(log, torn);
    assert EncodeLog(log + torn)[..at] == EncodeLog(log) + EncodeLog(torn)[..cut];
    RecoverCut(log + torn, at);
    WholeOfConcat(log, torn, cut);
    assert (log + torn)[..|log| + Whole(torn, cut)] == log + torn[..Whole(torn, cut)];
  }

  // ---- Any number of restarts ----

  /** One life of the process: batches acknowledged, then a crash `cut` bytes into one more. */
  datatype Life = Life(acked: seq<Event>, torn: seq<Event>, cut: nat)

  function Kept(life: Life): seq<Byte> {
    var bytes := EncodeLog(life.torn);
    if life.cut <= |bytes| then bytes[..life.cut] else bytes
  }

  /** The file after the last crash, or nothing if some restart was refused. */
  function FileAfter(lives: seq<Life>): Option<seq<Byte>> {
    if lives == [] then Some([])
    else
      var m := |lives| - 1;
      var before := FileAfter(lives[..m]);
      if before.None? || Recover(before.value).RefuseToStart? then None
      else Some(Recover(before.value).file + EncodeLog(lives[m].acked) + Kept(lives[m]))
  }

  /** The records owed: everything acknowledged, and of each torn batch what was wholly written. */
  function LogAfter(lives: seq<Life>): seq<Event> {
    if lives == [] then []
    else
      var m := |lives| - 1;
      LogAfter(lives[..m]) + lives[m].acked + lives[m].torn[..Whole(lives[m].torn, |Kept(lives[m])|)]
  }

  /** No restart is ever refused, and the log stays exactly what is owed, over any number of crashes. */
  lemma {:induction false} EveryRestartRecovers(lives: seq<Life>)
    ensures FileAfter(lives).Some?
    ensures Recover(FileAfter(lives).value) == Recovered(EncodeLog(LogAfter(lives)), LogAfter(lives))
    decreases |lives|
  {
    hide Encode;
    hide Decode;
    hide Recover;
    if lives == [] {
      RecoverWholeLog([]);
    } else {
      var m := |lives| - 1;
      EveryRestartRecovers(lives[..m]);
      var before, life := LogAfter(lives[..m]), lives[m];
      EncodeLogConcat(before, life.acked);
      assert Kept(life) == EncodeLog(life.torn)[..|Kept(life)|];
      RecoverTornAppend(before + life.acked, life.torn, |Kept(life)|);
    }
  }

  /** An acknowledged record is in the log after every later restart. */
  lemma {:induction false} AckedRecordStays(lives: seq<Life>, i: nat, ev: Event)
    requires i < |lives| && ev in lives[i].acked
    ensures ev in LogAfter(lives)
    decreases |lives|
  {
    hide Encode;
    var m := |lives| - 1;
    if i < m { AckedRecordStays(lives[..m], i, ev); }
  }

  /** A log whose repair was skipped, with a later record on the torn line, is refused for good. */
  lemma MergedLogRefused(log: seq<Event>, torn: seq<Byte>, ev: Event, later: seq<Event>)
    requires NEWLINE !in torn && exists b <- torn :: !Blank(b) && !AsciiSpace(b)
    ensures Recover(EncodeLog(log) + torn + Encode(ev) + [NEWLINE] + EncodeLog(later)) == RefuseToStart
  {
    hide Encode;
    hide Decode;
    hide Records;
    hide EncodeLog;
    var line := torn + Encode(ev);
    var merged := EncodeLog(log) + line + [NEWLINE];
    var bytes := EncodeLog(log) + torn + Encode(ev) + [NEWLINE] + EncodeLog(later);
    assert bytes == merged + EncodeLog(later);
    RecordsOfLog(log);
    EncodeLogEnds(later);
    OneLine(ev);
    var b :| b in torn && !Blank(b) && !AsciiSpace(b);
    assert b in line;
    MergedLineRefused(torn, ev);
    RecordsWithLine(EncodeLog(log), log, line);
    assert bytes[..|merged|] == merged && bytes[..|bytes|] == bytes;
    CompleteLenIs(bytes, |bytes|);
    BadLineStays(bytes, |merged|);
  }
}
