/**
  When the log is compacted, on one connection served alone with a disk that does not
  fail: how long the log gets, and how much all compactions write. `Step` is the policy on
  values, whose runs the lemmas are about; `Connection` is the program that performs it.
 */
module CompactionPolicy {
  import opened Options
  import opened Texts
  import opened GateModel
  import opened Replay
  import opened Server
  import ServerSafety
  import P = GateProduct
  import Soundgate

  function Max(a: nat, b: nat): nat { if a > b then a else b }

  function LiveSize(g: GateState): nat {
    |g.released| + |g.rejected| + |g.cancelled| + |g.closed|
  }

  /** A snapshot has one record for each released or rejected identity and each fence. */
  lemma SnapshotSize(g: GateState, log: seq<Event>)
    requires IsSnapshot(g, log)
    ensures |log| == LiveSize(g)
  {
    EventBelowIsStrictOrder();
    DistinctElements(EventBelow, log);
    FactsSize(g);
  }

  lemma FactsSize(g: GateState)
    ensures |Facts(g)| == LiveSize(g)
  {
    var a := set r <- g.closed :: Closed(r);
    var b := set r <- g.cancelled :: Cancelled(r);
    var c := set id <- g.released :: Released(id);
    var d := set id <- g.rejected :: Rejected(id);
    assert |a| == |g.closed| by { ImageSize(g.closed, r => Closed(r), a); }
    assert |b| == |g.cancelled| by { ImageSize(g.cancelled, r => Cancelled(r), b); }
    assert |c| == |g.released| by { ImageSize(g.released, id => Released(id), c); }
    assert |d| == |g.rejected| by { ImageSize(g.rejected, id => Rejected(id), d); }
    assert a !! b && a + b !! c && a + b + c !! d;
    assert Facts(g) == a + b + c + d;
  }

  lemma {:induction false} ImageSize<T(!new)>(s: set<T>, wrap: T -> Event, image: set<Event>)
    requires forall x <- s, y <- s :: wrap(x) == wrap(y) ==> x == y
    requires forall ev :: ev in image <==> exists x <- s :: wrap(x) == ev
    ensures |image| == |s|
    decreases s
  {
    if s == {} {
      assert image == {};
    } else {
      var x :| x in s;
      assert wrap(x) in image;
      forall ev ensures ev in image - {wrap(x)} <==> exists y <- s - {x} :: wrap(y) == ev {
        if ev in image && ev != wrap(x) {
          var y :| y in s && wrap(y) == ev;
          assert y in s - {x};
        }
      }
      ImageSize(s - {x}, wrap, image - {wrap(x)});
    }
  }

  /** A log is never shorter than what it means. */
  lemma MeaningFitsInLog(g: GateState, log: seq<Event>)
    requires Replayed(EMPTY, log).Durable() == g.Durable()
    ensures LiveSize(g) <= |log|
  {
    ReplayIsMeaning(log);
    FactsOfMeaning(Elements(log));
    assert Facts(g) == Facts(Meaning(Elements(log)));
    SubsetSize(Facts(g), Elements(log));
    ElementsAtMost(log);
    FactsSize(g);
  }

  // ---- The policy on values ----

  /** A gate, its log, and the counters that decide when the log is compacted. */
  datatype Book = Book(
    gate: GateState,
    log: seq<Event>,       // the records in the file
    appended: nat,         // records appended since the last snapshot
    lastSnapshot: nat,     // records of the last snapshot, or of the log found at start
    appends: nat,          // history: all records ever appended
    written: nat)          // history: all records ever written by compactions

  /** What a server starts with: nothing appended, the whole log counted as a snapshot. */
  function Opened(log: seq<Event>): Book { Book(Replayed(EMPTY, log), log, 0, |log|, 0, 0) }

  predicate Due(min: nat, b: Book, req: Request) {
    req.Close? && min > 0 && b.appended >= Max(min, b.lastSnapshot)
  }

  function RecordsOf(g: GateState, req: Request): seq<Event> {
    var ev := EventOf(req, Answer(g, req));
    if ev.Some? then [ev.value] else []
  }

  /** Serving a request: a due close puts a snapshot in place of the log; then the record is appended. */
  ghost predicate Step(min: nat, b: Book, req: Request, c: Book) {
    var more := RecordsOf(b.gate, req);
    && c.gate == GateAfter(b.gate, req) && c.appends == b.appends + |more|
    && if Due(min, b, req) then
         && c.lastSnapshot <= |c.log| && IsSnapshot(c.gate, c.log[..c.lastSnapshot])
         && c.log == c.log[..c.lastSnapshot] + more
         && c.appended == |more| && c.written == b.written + c.lastSnapshot
       else
         && c.log == b.log + more && c.appended == b.appended + |more|
         && c.lastSnapshot == b.lastSnapshot && c.written == b.written
  }

  /** The books before, between and after the requests of a run. */
  ghost predicate History(min: nat, requests: seq<Request>, books: seq<Book>) {
    && |books| == |requests| + 1
    && forall i :: 0 <= i < |requests| ==> Step(min, books[i], requests[i], books[i + 1])
  }

  /** The log replays to the gate, the counters account for its length, and compactions have been paid for. */
  ghost predicate Sound(b: Book) {
    && Inv(b.gate) && Replayed(EMPTY, b.log).Durable() == b.gate.Durable()
    && |b.log| == b.lastSnapshot + b.appended
    && b.appended <= b.appends && b.written <= 3 * (b.appends - b.appended)
  }

  /** A compaction writes at most twice what was appended since the last one, plus the close. */
  lemma CompactionWrites(min: nat, b: Book, req: Request, c: Book)
    requires Sound(b) && Step(min, b, req, c) && Due(min, b, req)
    ensures c.written - b.written == c.lastSnapshot == LiveSize(c.gate) <= 2 * b.appended + 1
  {
    hide Replayed;
    hide IsSnapshot;
    hide Inv;
    hide RecordsOf;
    hide LiveSize;
    SnapshotSize(c.gate, c.log[..c.lastSnapshot]);
    CloseRecorded(b.gate, req.run, b.log);
  }

  lemma StepKeepsSound(min: nat, b: Book, req: Request, c: Book)
    requires Sound(b) && Step(min, b, req, c)
    ensures Sound(c)
  {
    hide Replayed;
    hide Inv;
    hide Answer;
    hide EventOf;
    LoggedRequest(b.gate, req, b.log);
    if Due(min, b, req) {
      CompactionWrites(min, b, req, c);
      CloseIsLogged(b.gate, req);
      SnapshotThenClose(c.gate, c.log[..c.lastSnapshot], req.run);
    } else if RecordsOf(b.gate, req) == [] {
      assert b.log + [] == b.log;
    }
  }

  lemma {:induction false} HistoryKeepsSound(min: nat, requests: seq<Request>, books: seq<Book>, i: nat)
    requires History(min, requests, books) && Sound(books[0]) && i < |books|
    ensures Sound(books[i]) && books[i].appends <= books[0].appends + i
    decreases i
  {
    hide Sound;
    if i > 0 {
      HistoryKeepsSound(min, requests, books, i - 1);
      StepKeepsSound(min, books[i - 1], requests[i - 1], books[i]);
    }
  }

  /** Over any run from an opened log all compactions write at most three records for each one appended. */
  lemma WritesAreAmortised(min: nat, requests: seq<Request>, books: seq<Book>, i: nat)
    requires History(min, requests, books) && i < |books|
    requires Inv(books[0].gate) && books[0] == Opened(books[0].log)
    ensures books[i].written <= 3 * books[i].appends <= 3 * i
  {
    HistoryKeepsSound(min, requests, books, i);
  }

  /**
    After every close the log has at most `lastSnapshot + Max(min, lastSnapshot)` records:
    within twice its live size whenever that has not shrunk below the last snapshot or the minimum.
   */
  lemma LogAfterClose(min: nat, requests: seq<Request>, books: seq<Book>, i: nat)
    requires History(min, requests, books) && Sound(books[0]) && min > 0
    requires i < |requests| && requests[i].Close?
    ensures var c := books[i + 1];
            && |c.log| <= c.lastSnapshot + Max(min, c.lastSnapshot)
            && (Max(min, c.lastSnapshot) <= LiveSize(c.gate) ==> |c.log| <= 2 * LiveSize(c.gate))
  {
    HistoryKeepsSound(min, requests, books, i);
    CloseKeepsBound(min, books[i], requests[i], books[i + 1]);
  }

  lemma CloseKeepsBound(min: nat, b: Book, req: Request, c: Book)
    requires Sound(b) && Step(min, b, req, c) && min > 0 && req.Close?
    ensures |c.log| <= c.lastSnapshot + Max(min, c.lastSnapshot)
  {
  }

  /** Where the latest compaction before book `i` left off: the book after it, or the first. */
  function LastCompacted(min: nat, requests: seq<Request>, books: seq<Book>, i: nat): (j: nat)
    requires |books| == |requests| + 1 && i < |books|
    ensures j <= i
  {
    if i == 0 || Due(min, books[i - 1], requests[i - 1]) then i else LastCompacted(min, requests, books, i - 1)
  }

  /** `lastSnapshot` counts the records the latest compaction wrote, or those found at start; they head the log. */
  lemma {:induction false} SnapshotHeadsTheLog(min: nat, requests: seq<Request>, books: seq<Book>, i: nat)
    requires History(min, requests, books) && i < |books| && books[0].lastSnapshot <= |books[0].log|
    ensures var c, at := books[i], books[LastCompacted(min, requests, books, i)];
            && at.lastSnapshot == c.lastSnapshot <= |c.log| && at.lastSnapshot <= |at.log|
            && c.log[..c.lastSnapshot] == at.log[..at.lastSnapshot]
    ensures LastCompacted(min, requests, books, i) > 0 ==>
              IsSnapshot(books[LastCompacted(min, requests, books, i)].gate, books[i].log[..books[i].lastSnapshot])
    decreases i
  {
    hide IsSnapshot;
    hide RecordsOf;
    hide GateAfter;
    if i > 0 {
      assert Step(min, books[i - 1], requests[i - 1], books[i]);
      if !Due(min, books[i - 1], requests[i - 1]) { SnapshotHeadsTheLog(min, requests, books, i - 1); }
    }
  }

  // ---- When a compaction writes no more than was appended ----

  function InRun(s: set<Id>, r: Run): set<Id> { set id <- s | id.0 == r }

  /** What closing `r` erases. */
  function Erased(g: GateState, r: Run): nat { |InRun(g.released, r)| + |InRun(g.rejected, r)| }

  function NewFence(g: GateState, r: Run): nat { if r in g.closed then 0 else 1 }

  lemma OutsideSize(s: set<Id>, r: Run)
    ensures |Outside(s, r)| + |InRun(s, r)| == |s|
  {
    assert s == Outside(s, r) + InRun(s, r);
    assert Outside(s, r) !! InRun(s, r);
  }

  lemma SizeAfterClose(g: GateState, r: Run)
    ensures LiveSize(g.CloseRun(r)) + Erased(g, r) == LiveSize(g) + NewFence(g, r)
  {
    OutsideSize(g.released, r);
    OutsideSize(g.rejected, r);
    if r in g.closed { assert g.closed + {r} == g.closed; }
  }

  /**
    A due close writes no more records than were appended since the last snapshot exactly when
    the dead records in the log and what the close erases make up for that snapshot and a new fence.
   */
  lemma WritesAtMostAppended(min: nat, b: Book, r: Run, c: Book)
    requires Sound(b) && Due(min, b, Close(r)) && Step(min, b, Close(r), c)
    ensures c.written - b.written <= b.appended <==>
            b.lastSnapshot + NewFence(b.gate, r) <= Erased(b.gate, r) + (|b.log| - LiveSize(b.gate))
  {
    hide Replayed;
    hide IsSnapshot;
    hide Inv;
    hide RecordsOf;
    hide LiveSize;
    hide Erased;
    CompactionWrites(min, b, Close(r), c);
    SizeAfterClose(b.gate, r);
  }

  /** The facts a request adds to the durable state, and those it takes away. */
  function Gained(g: GateState, req: Request): nat {
    var more := RecordsOf(g, req);
    if more == [] || more[0] in Facts(g) then 0 else 1
  }

  function Lost(g: GateState, req: Request): nat { if req.Close? then Erased(g, req.run) else 0 }

  predicate IsLive(g: GateState, ev: Event) {
    match ev
    case Released(id) => id in g.released
    case Rejected(id) => id in g.rejected
    case Cancelled(r) => r in g.cancelled
    case Closed(r) => r in g.closed
  }

  lemma FactsHold(g: GateState, ev: Event)
    ensures ev in Facts(g) <==> IsLive(g, ev)
  {
  }

  lemma SizeAfterRelease(g: GateState, id: Id)
    requires id !in g.released
    ensures LiveSize(g.(released := g.released + {id})) == LiveSize(g) + 1
  {
    assert |g.released + {id}| == |g.released| + 1;
  }

  lemma SizeAfterSubmit(g: GateState, id: Id, needsApproval: bool)
    ensures var (h, v) := g.Submit(id, needsApproval);
            && (v == Release ==> id !in g.released && LiveSize(h) == LiveSize(g) + 1)
            && (v != Release ==> LiveSize(h) == LiveSize(g))
  {
    if g.Submit(id, needsApproval).1 == Release { SizeAfterRelease(g, id); }
  }

  lemma SizeAfterDecide(g: GateState, id: Id, approved: bool)
    requires Inv(g)
    ensures var (h, v) := g.Decide(id, approved);
            && (v == Release ==> id !in g.released && LiveSize(h) == LiveSize(g) + 1)
            && (v == RefusedRejected ==> LiveSize(h) == LiveSize(g) + if id in g.rejected then 0 else 1)
            && (v != Release && v != RefusedRejected ==> LiveSize(h) == LiveSize(g))
  {
    if id in g.rejected { assert g.rejected + {id} == g.rejected; }
  }

  lemma SizeAfterCancel(g: GateState, r: Run)
    ensures LiveSize(g.Cancel(r)) == LiveSize(g) + if r in g.cancelled then 0 else 1
  {
    if r in g.cancelled { assert g.cancelled + {r} == g.cancelled; }
  }

  lemma GainedIs(g: GateState, req: Request, ev: Event)
    requires RecordsOf(g, req) == [ev]
    ensures Gained(g, req) == if IsLive(g, ev) then 0 else 1
  {
    FactsHold(g, ev);
  }

  lemma LiveSizeAfter(g: GateState, req: Request)
    requires Inv(g)
    ensures LiveSize(GateAfter(g, req)) + Lost(g, req) == LiveSize(g) + Gained(g, req)
  {
    hide Inv;
    hide LiveSize;
    hide Facts;
    hide Erased;
    var more := RecordsOf(g, req);
    if more != [] { GainedIs(g, req, more[0]); }
    match req {
      case Submit(id, na) => SizeAfterSubmit(g, id, na);
      case Decide(id, ap, _) => SizeAfterDecide(g, id, ap);
      case Cancel(r) => SizeAfterCancel(g, r);
      case Close(r) => SizeAfterClose(g, r);
      case _ =>
    }
  }

  /**
    After a request the log is within twice its live size: always if the request compacted it,
    otherwise exactly when its records, the new one and twice what is erased leave room.
   */
  lemma WithinTwiceLive(min: nat, b: Book, req: Request, c: Book)
    requires Sound(b) && Step(min, b, req, c)
    ensures Due(min, b, req) ==> |c.log| == LiveSize(c.gate) + 1 <= 2 * LiveSize(c.gate)
    ensures !Due(min, b, req) ==>
              (|c.log| <= 2 * LiveSize(c.gate) <==>
               |b.log| + |RecordsOf(b.gate, req)| + 2 * Lost(b.gate, req)
               <= 2 * (LiveSize(b.gate) + Gained(b.gate, req)))
  {
    hide Replayed;
    hide IsSnapshot;
    CloseIsLogged(b.gate, req);
    assert req.Close? ==> |RecordsOf(b.gate, req)| == 1;
    LiveSizeAfter(b.gate, req);
    if Due(min, b, req) { ClosedIsLive(c.gate, req.run); }
    hide Inv;
    hide RecordsOf;
    hide LiveSize;
    hide Lost;
    hide Gained;
    if Due(min, b, req) { CompactionWrites(min, b, req, c); }
  }

  lemma ClosedIsLive(g: GateState, r: Run)
    requires r in g.closed
    ensures LiveSize(g) >= 1
  {
    assert |g.closed| >= 1;
  }

  // ---- Runs on which the bounds of the comment fail ----

  /** A text of `n` letters. */
  function As(n: nat): (t: Text)
    ensures |t| == n
  {
    var t := seq(n, i => 65 as Byte);
    AsciiIsUtf8(t);
    t
  }

  /** `n` releases of different effects of one run. */
  function Releases(n: nat): (log: seq<Event>)
    ensures |log| == n && forall i :: 0 <= i < n ==> log[i] == Released(([], As(i)))
  {
    seq(n, i requires 0 <= i < n => Released(([], As(i))))
  }

  function IdsOf(log: seq<Event>): set<Id> { set ev <- log | ev.Released? :: ev.id }

  /** The requests that release `n` further effects. */
  function Submits(from: nat, n: nat): (requests: seq<Request>)
    ensures |requests| == n && forall i :: 0 <= i < n ==> requests[i] == Request.Submit(([], As(from + i)), false)
  {
    seq(n, i requires 0 <= i < n => Request.Submit(([], As(from + i)), false))
  }

  lemma {:induction false} ReleasesDiffer(n: nat)
    ensures |IdsOf(Releases(n))| == n
  {
    if n > 0 {
      var log, last := Releases(n), ([], As(n - 1));
      ReleasesDiffer(n - 1);
      assert log == Releases(n - 1) + [Released(last)];
      assert IdsOf(log) == IdsOf(Releases(n - 1)) + {last};
    }
  }

  lemma ReleasesAlone(n: nat)
    ensures Replayed(EMPTY, Releases(n)) == GateState(IdsOf(Releases(n)), {}, {}, {}, {})
    ensures forall id <- IdsOf(Releases(n)) :: id.0 == [] && |id.1| < n
  {
    hide Replayed;
    ReplayIsMeaning(Releases(n));
  }

  /** One more effect of the run is released, recorded, and the books stay those of the releases. */
  lemma SubmitReleases(n: nat)
    ensures var g, req := Replayed(EMPTY, Releases(n)), Request.Submit(([], As(n)), false);
            && Releases(n) + RecordsOf(g, req) == Releases(n + 1) && |RecordsOf(g, req)| == 1
            && GateAfter(g, req) == Replayed(EMPTY, Releases(n + 1))
  {
    ReleasesAlone(n);
    ReleasesAlone(n + 1);
    assert Releases(n) + [Released(([], As(n)))] == Releases(n + 1);
    assert IdsOf(Releases(n + 1)) == IdsOf(Releases(n)) + {([], As(n))};
  }

  lemma {:induction false} ServingSubmits(min: nat, n: nat, k: nat, requests: seq<Request>, books: seq<Book>)
    requires History(min, requests, books) && books[0] == Opened(Releases(n))
    requires k <= |requests| && requests[..k] == Submits(n, k)
    ensures books[k] == Book(Replayed(EMPTY, Releases(n + k)), Releases(n + k), k, n, k, 0)
    decreases k
  {
    hide Replayed;
    hide GateAfter;
    hide RecordsOf;
    if k > 0 {
      assert requests[..k][..k - 1] == requests[..k - 1] == Submits(n, k - 1);
      assert requests[k - 1] == requests[..k][k - 1] == Request.Submit(([], As(n + k - 1)), false);
      ServingSubmits(min, n, k - 1, requests, books);
      SubmitReleases(n + k - 1);
      assert Step(min, books[k - 1], requests[k - 1], books[k]);
    }
  }

  /** At the close of another run after `n` recovered and `n` appended releases, all these and the close are written. */
  lemma WorstCase(min: nat, n: nat, b: Book, c: Book)
    requires 1 <= n && 0 < min <= n
    requires b.log == Releases(2 * n) && b.gate == Replayed(EMPTY, b.log) && b.lastSnapshot == b.appended == n
    requires Step(min, b, Close(As(1)), c)
    ensures Due(min, b, Close(As(1))) && c.lastSnapshot == c.written - b.written == 2 * b.appended + 1
  {
    hide Replayed;
    hide Releases;
    hide IdsOf;
    ReleasesAlone(2 * n);
    ReleasesDiffer(2 * n);
    OutsideAll(b.gate.released, As(1));
    SnapshotSize(c.gate, c.log[..c.lastSnapshot]);
  }

  /** The bound is met by a run of the policy for every number of appended records, at every minimum up to it. */
  lemma WorstCaseIsReached(min: nat, n: nat, books: seq<Book>)
    requires 1 <= n && 0 < min <= n
    requires History(min, Submits(n, n) + [Close(As(1))], books) && books[0] == Opened(Releases(n))
    ensures books[n].appended == n && Due(min, books[n], Close(As(1))) && books[n].written == 0
    ensures books[n + 1].written == 2 * n + 1
  {
    var requests := Submits(n, n) + [Close(As(1))];
    assert requests[..n] == Submits(n, n) && requests[n] == Close(As(1));
    ServingSubmits(min, n, n, requests, books);
    assert Step(min, books[n], requests[n], books[n + 1]);
    WorstCase(min, n, books[n], books[n + 1]);
  }

  /** One record recovered, one appended, then the close of another run: it is due and writes three. */
  lemma WritesMoreThanAppended(books: seq<Book>)
    requires books != [] && books[0] == Opened([Released(([], []))])
    requires History(1, [Request.Submit(([], [65]), false), Close([65])], books)
    ensures books[1].appended == 1 && Due(1, books[1], Close([65]))
    ensures books[2].written - books[1].written == 3
  {
    assert As(0) == [] && As(1) == [65];
    assert Releases(1) == [Released(([], []))];
    assert Submits(1, 1) + [Close(As(1))] == [Request.Submit(([], [65]), false), Close([65])];
    WorstCaseIsReached(1, 1, books);
  }

  /** No multiple of the live size bounds the log: the close of a run of `n` recovered records leaves all of them. */
  lemma NoMultipleOfLive(min: nat, n: nat, books: seq<Book>)
    requires books != [] && books[0] == Opened(Releases(n)) && History(min, [Close([])], books)
    ensures !Due(min, books[0], Close([]))
    ensures |books[1].log| == n + 1 && LiveSize(books[1].gate) == 1
  {
    hide Replayed;
    ReleasesAlone(n);
    assert Step(min, books[0], Close([]), books[1]);
    CloseIsLogged(books[0].gate, Close([]));
    assert Outside(books[0].gate.released, []) == {};
    assert books[1].gate.closed == {[]};
  }

  function Cancels(n: nat): (requests: seq<Request>)
    ensures |requests| == n && forall i :: 0 <= i < n ==> requests[i] == Request.Cancel([])
  {
    seq(n, i => Request.Cancel([]))
  }

  lemma OneMoreCancel(min: nat, b: Book, c: Book)
    requires Step(min, b, Request.Cancel([]), c) && (b.gate == EMPTY || b.gate == EMPTY.Cancel([]))
    ensures |c.log| == |b.log| + 1 && c.gate == EMPTY.Cancel([]) && LiveSize(c.gate) == 1
  {
    hide IsSnapshot;
    assert c.gate.cancelled == {[]} && c.gate.pending == {};
    assert EMPTY.Cancel([]).cancelled == {[]} && EMPTY.Cancel([]).pending == {};
  }

  /** Nor is one between closes: `n` cancels of one run leave `n` records for one live fact. */
  lemma {:induction false} RepeatedCancels(min: nat, n: nat, requests: seq<Request>, books: seq<Book>)
    requires 1 <= n <= |requests| && requests[..n] == Cancels(n)
    requires History(min, requests, books) && books[0] == Opened([])
    ensures |books[n].log| == n && books[n].gate == EMPTY.Cancel([]) && LiveSize(books[n].gate) == 1
    decreases n
  {
    hide Step;
    hide LiveSize;
    assert requests[n - 1] == requests[..n][n - 1] == Request.Cancel([]);
    assert Step(min, books[n - 1], requests[n - 1], books[n]);
    if n > 1 {
      assert requests[..n - 1] == requests[..n][..n - 1] == Cancels(n - 1);
      RepeatedCancels(min, n - 1, requests, books);
    }
    OneMoreCancel(min, books[n - 1], books[n]);
  }

  // ---- The connection as a program ----

  class Connection {
    const min: nat
    const gate: Soundgate.Gate
    var log: seq<Event>
    var appended: nat
    var lastSnapshot: nat
    ghost var appends: nat
    ghost var written: nat

    ghost function View(): Book
      reads this, gate
    {
      Book(gate.State(), log, appended, lastSnapshot, appends, written)
    }

    ghost predicate Valid()
      reads this, gate
    {
      gate.Valid() && Sound(View())
    }

    constructor (gate: Soundgate.Gate, log: seq<Event>, min: nat)
      requires gate.Valid() && Inv(gate.State()) && gate.State() == Replayed(EMPTY, log)
      ensures Valid() && this.gate == gate && this.min == min && View() == Opened(log)
    {
      this.gate, this.log, this.min := gate, log, min;
      appended, lastSnapshot := 0, |log|;
      appends, written := 0, 0;
    }

    /** Queues one record and waits for its acknowledgement. */
    method Append(ev: Event)
      modifies this
      ensures log == old(log) + [ev] && appended == old(appended) + 1 && appends == old(appends) + 1
      ensures lastSnapshot == old(lastSnapshot) && written == old(written)
    {
      log := log + [ev];
      appended := appended + 1;
      appends := appends + 1;
    }

    /** The lock section of a close: close the run and, when due, swap the log for a snapshot. */
    method CloseAndCompact(r: Run) returns (compacted: bool)
      requires Valid()
      modifies this, gate
      ensures gate.Valid() && gate.State() == old(gate.State()).CloseRun(r)
      ensures compacted <==> min > 0 && old(appended) >= Max(min, old(lastSnapshot))
      ensures appends == old(appends)
      ensures !compacted ==>
        log == old(log) && appended == old(appended) && lastSnapshot == old(lastSnapshot) && written == old(written)
      ensures compacted ==>
        && IsSnapshot(gate.State(), log) && |log| <= 2 * old(appended) + 1
        && appended == 0 && lastSnapshot == |log| && written == old(written) + |log|
    {
      hide Replayed;
      hide IsSnapshot;
      hide Inv;
      ghost var before := log;
      gate.CloseRun(r);
      InvKept(old(gate.State()), Op.CloseRun(r));
      compacted := min > 0 && appended >= Max(min, lastSnapshot);
      if compacted {
        CloseRecorded(old(gate.State()), r, before);
        var snapshot := gate.DurableEvents();
        SnapshotSize(gate.State(), snapshot);
        lastSnapshot, appended := |snapshot|, 0;
        log, written := snapshot, written + |snapshot|;
      }
    }

    /** The gate's part of a request. */
    method LockSection(req: Request) returns (reply: Reply, compacted: bool)
      requires Valid()
      modifies this, gate
      ensures gate.Valid() && gate.State() == GateAfter(old(gate.State()), req)
      ensures reply == Answer(old(gate.State()), req) && appends == old(appends)
      ensures req.Submit? ==>
                && reply == Told(P.CellVerdict(P.View(old(gate.State()), req.id), Op.Submit(req.id, req.needsApproval)))
                && gate.State() == old(gate.State()).Submit(req.id, req.needsApproval).0
      ensures req.Decide? && req.authentic ==>
                && reply == Told(P.CellVerdict(P.View(old(gate.State()), req.id), Op.Decide(req.id, req.approved)))
                && gate.State() == old(gate.State()).Decide(req.id, req.approved).0
      ensures req.Decide? && !req.authentic ==> reply == Error && gate.State() == old(gate.State())
      ensures req.Cancel? ==> reply == Ack && gate.State() == old(gate.State()).Cancel(req.run)
      ensures req.Close? ==> reply == Ack && gate.State() == old(gate.State()).CloseRun(req.run)
      ensures req.Ping? ==> reply == Pong && gate.State() == old(gate.State())
      ensures req.Malformed? ==> reply == Error && gate.State() == old(gate.State())
      ensures compacted <==> req.Close? && min > 0 && old(appended) >= Max(min, old(lastSnapshot))
      ensures !compacted ==>
        log == old(log) && appended == old(appended) && lastSnapshot == old(lastSnapshot) && written == old(written)
      ensures compacted ==>
        && IsSnapshot(gate.State(), log) && |log| <= 2 * old(appended) + 1
        && appended == 0 && lastSnapshot == |log| && written == old(written) + |log|
    {
      hide Replayed;
      hide IsSnapshot;
      AnswersAreVerdicts(gate.State(), req);
      hide Inv;
      hide P.CellVerdict;
      hide P.View;
      compacted := false;
      match req {
        case Submit(id, needsApproval) =>
          var v := gate.Submit(Soundgate.Effect(id.0, id.1, needsApproval));
          reply := Told(v);
        case Decide(id, approved, authentic) =>
          if authentic {
            var v := gate.Decide(id.0, id.1, approved);
            reply := Told(v);
          } else {
            reply := Error;
          }
        case Cancel(r) =>
          gate.Cancel(r);
          reply := Ack;
        case Close(r) =>
          compacted := CloseAndCompact(r);
          reply := Ack;
        case Ping => reply := Pong;
        case Malformed => reply := Error;
      }
    }

    /** One request: the lock section, then the append and its acknowledgement. */
    method Handle(req: Request) returns (reply: Reply)
      requires Valid()
      modifies this, gate
      ensures Valid() && Step(min, old(View()), req, View())
      ensures reply == Answer(old(gate.State()), req)
      ensures req.Submit? ==>
                && reply == Told(P.CellVerdict(P.View(old(gate.State()), req.id), Op.Submit(req.id, req.needsApproval)))
                && gate.State() == old(gate.State()).Submit(req.id, req.needsApproval).0
      ensures req.Decide? && req.authentic ==>
                && reply == Told(P.CellVerdict(P.View(old(gate.State()), req.id), Op.Decide(req.id, req.approved)))
                && gate.State() == old(gate.State()).Decide(req.id, req.approved).0
      ensures req.Decide? && !req.authentic ==> reply == Error && gate.State() == old(gate.State())
      ensures req.Cancel? ==> reply == Ack && gate.State() == old(gate.State()).Cancel(req.run)
      ensures req.Close? ==> reply == Ack && gate.State() == old(gate.State()).CloseRun(req.run)
      ensures req.Ping? ==> reply == Pong && gate.State() == old(gate.State())
      ensures req.Malformed? ==> reply == Error && gate.State() == old(gate.State())
      ensures min > 0 && req.Close? ==> |log| <= lastSnapshot + Max(min, lastSnapshot)
      ensures Due(min, old(View()), req) ==>
                written == old(written) + lastSnapshot <= old(written) + 2 * old(appended) + 1
      ensures !Due(min, old(View()), req) ==> written == old(written)
    {
      hide Sound;
      hide IsSnapshot;
      hide Answer;
      hide GateAfter;
      hide EventOf;
      hide P.CellVerdict;
      hide P.View;
      ghost var before := View();
      var compacted;
      reply, compacted := LockSection(req);
      ghost var snapshot := log;
      var ev := EventOf(req, reply);
      if ev.Some? { Append(ev.value); }
      assert compacted ==> log[..lastSnapshot] == snapshot;
      assert Step(min, before, req, View());
      StepKeepsSound(min, before, req, View());
      if Due(min, before, req) { CompactionWrites(min, before, req, View()); }
      if min > 0 && req.Close? { CloseKeepsBound(min, before, req, View()); }
    }

    /** All requests of a connection: its books are a run of the policy, and its replies are the gate's. */
    method Serve(requests: seq<Request>) returns (replies: seq<Reply>, ghost books: seq<Book>)
      requires Valid()
      modifies this, gate
      ensures Valid() && History(min, requests, books) && books[0] == old(View()) && books[|requests|] == View()
      ensures |replies| == |requests| && gate.State() == Served(old(gate.State()), requests)
      ensures forall i :: 0 <= i < |requests| ==>
                replies[i] == Answer(Served(old(gate.State()), requests[..i]), requests[i])
      ensures forall i :: 0 <= i < |requests| && requests[i].Submit? ==>
                var g := After(old(gate.State()), OpsOf(requests[..i]));
                replies[i] == Told(g.Submit(requests[i].id, requests[i].needsApproval).1)
      ensures forall i :: 0 <= i < |requests| && requests[i].Decide? ==>
                var g := After(old(gate.State()), OpsOf(requests[..i]));
                replies[i] ==
                  if requests[i].authentic then Told(g.Decide(requests[i].id, requests[i].approved).1) else Error
      ensures forall i :: 0 <= i < |requests| && (requests[i].Cancel? || requests[i].Close?) ==> replies[i] == Ack
      ensures forall i :: 0 <= i < |requests| && requests[i].Ping? ==> replies[i] == Pong
      ensures forall i :: 0 <= i < |requests| && requests[i].Malformed? ==> replies[i] == Error
      ensures forall i :: 0 <= i < |requests| && min > 0 && requests[i].Close? ==>
                |books[i + 1].log| <= books[i + 1].lastSnapshot + Max(min, books[i + 1].lastSnapshot)
      ensures written <= 3 * appends && appends <= old(appends) + |requests|
    {
      hide Answer;
      hide GateAfter;
      hide Step;
      hide Sound;
      replies, books := [], [View()];
      for i := 0 to |requests|
        invariant Valid() && |replies| == i && |books| == i + 1
        invariant books[0] == old(View()) && books[i] == View()
        invariant forall k :: 0 <= k < i ==> Step(min, books[k], requests[k], books[k + 1])
        invariant forall k :: 0 <= k < i ==> replies[k] == Answer(books[k].gate, requests[k])
      {
        var reply := Handle(requests[i]);
        replies, books := replies + [reply], books + [View()];
      }
      HistoryServes(min, requests, books);
      HistoryKeepsSound(min, requests, books, |requests|);
      SoundIsAmortised(books[|requests|]);
      forall i | 0 <= i < |requests| && min > 0 && requests[i].Close?
        ensures |books[i + 1].log| <= books[i + 1].lastSnapshot + Max(min, books[i + 1].lastSnapshot)
      {
        LogAfterClose(min, requests, books, i);
      }
      forall i | 0 <= i < |requests| ensures RepliesRight(old(gate.State()), requests, i, replies[i]) {
        assert replies[i] == Answer(Served(old(gate.State()), requests[..i]), requests[i]);
        AnswerAfter(old(gate.State()), requests, i);
      }
    }
  }

  lemma SoundIsAmortised(b: Book)
    requires Sound(b)
    ensures b.written <= 3 * b.appends
  {
  }

  /** The books of a run hold the gates that its requests lead to. */
  lemma HistoryServes(min: nat, requests: seq<Request>, books: seq<Book>)
    requires History(min, requests, books)
    ensures forall i :: 0 <= i <= |requests| ==> books[i].gate == Served(books[0].gate, requests[..i])
    ensures requests[..|requests|] == requests
  {
    hide GateAfter;
    var i := 0;
    while i < |requests|
      invariant i <= |requests|
      invariant forall k :: 0 <= k <= i ==> books[k].gate == Served(books[0].gate, requests[..k])
    {
      assert Step(min, books[i], requests[i], books[i + 1]);
      assert requests[..i + 1][..i] == requests[..i];
      i := i + 1;
    }
  }

  lemma CommentReplies(requests: seq<Request>)
    requires requests == [Request.Submit(([], [65]), false), Close([65])]
    ensures var g := Replayed(EMPTY, [Released(([], []))]);
            && Answer(Served(g, requests[..0]), requests[0]) == Told(Release)
            && Answer(Served(g, requests[..1]), requests[1]) == Ack
  {
    var log := [Released(([], []))];
    assert log[..0] == [];
    assert Replayed(EMPTY, log).released == {([], [])};
  }

  /** The comment's bound fails on a connection: its one compaction writes three records where one was appended. */
  method CommentFails() returns (replies: seq<Reply>, ghost books: seq<Book>)
    ensures History(1, [Request.Submit(([], [65]), false), Close([65])], books)
    ensures books[0] == Opened([Released(([], []))])
    ensures books[1].appended == 1 && Due(1, books[1], Close([65])) && books[2].written - books[1].written == 3
    ensures replies == [Told(Release), Ack]
  {
    var gate := new Soundgate.Gate();
    var log := [Released(([], []))];
    assert log[..0] == [];
    gate.Apply(log[0]);
    var connection := new Connection(gate, log, 1);
    var requests := [Request.Submit(([], [65]), false), Close([65])];
    CommentReplies(requests);
    hide Replayed;
    hide Answer;
    hide Served;
    hide Step;
    hide Sound;
    replies, books := connection.Serve(requests);
    WritesMoreThanAppended(books);
  }

  /** The operation a request amounts to: an unauthentic decide, a ping and a bad line are none. */
  function OpsFor(req: Request): seq<Op> {
    match req
    case Submit(id, na) => [Op.Submit(id, na)]
    case Decide(id, ap, authentic) => if authentic then [Op.Decide(id, ap)] else []
    case Cancel(r) => [Op.Cancel(r)]
    case Close(r) => [Op.CloseRun(r)]
    case _ => []
  }

  function OpsOf(requests: seq<Request>): seq<Op> {
    if requests == [] then [] else OpsOf(requests[..|requests| - 1]) + OpsFor(requests[|requests| - 1])
  }

  /** What request `i` is to be answered after those before it. */
  predicate RepliesRight(g: GateState, requests: seq<Request>, i: nat, reply: Reply)
    requires i < |requests|
  {
    var before := After(g, OpsOf(requests[..i]));
    match requests[i]
    case Submit(id, na) => reply == Told(before.Submit(id, na).1)
    case Decide(id, ap, authentic) => reply == if authentic then Told(before.Decide(id, ap).1) else Error
    case Cancel(_) => reply == Ack
    case Close(_) => reply == Ack
    case Ping => reply == Pong
    case Malformed => reply == Error
  }

  lemma {:induction false} ServedIsAfter(g: GateState, requests: seq<Request>)
    ensures Served(g, requests) == After(g, OpsOf(requests))
    decreases |requests|
  {
    if requests != [] {
      var m := |requests| - 1;
      ServedIsAfter(g, requests[..m]);
      OpsForIsOp(requests[m]);
      var before, op := OpsOf(requests[..m]), OpOf(requests[m]);
      hide Next;
      hide OpOf;
      hide OpsFor;
      if op.Some? {
        assert (before + [op.value])[..|before|] == before;
      } else {
        assert before + [] == before;
      }
    }
  }

  lemma OpsForIsOp(req: Request)
    ensures OpsFor(req) == match OpOf(req) case Some(op) => [op] case None => []
  {
  }

  lemma AnswerAfter(g: GateState, requests: seq<Request>, i: nat)
    requires i < |requests|
    ensures RepliesRight(g, requests, i, Answer(Served(g, requests[..i]), requests[i]))
  {
    ServedIsAfter(g, requests[..i]);
  }

  /** Every request gets the verdict of its identity's own automaton, or its fixed reply. */
  lemma AnswersAreVerdicts(g: GateState, req: Request)
    requires Inv(g)
    ensures req.Submit? ==>
              Answer(g, req) == Told(P.CellVerdict(P.View(g, req.id), Op.Submit(req.id, req.needsApproval)))
    ensures req.Decide? && req.authentic ==>
              Answer(g, req) == Told(P.CellVerdict(P.View(g, req.id), Op.Decide(req.id, req.approved)))
    ensures req.Decide? && !req.authentic ==> Answer(g, req) == Error
    ensures req.Cancel? || req.Close? ==> Answer(g, req) == Ack
    ensures req.Ping? ==> Answer(g, req) == Pong
    ensures req.Malformed? ==> Answer(g, req) == Error
  {
    if req.Submit? { P.ViewNext(g, Op.Submit(req.id, req.needsApproval), req.id); }
    if req.Decide? { P.ViewNext(g, Op.Decide(req.id, req.approved), req.id); }
  }

  function Served(g: GateState, requests: seq<Request>): GateState {
    if requests == [] then g else GateAfter(Served(g, requests[..|requests| - 1]), requests[|requests| - 1])
  }

  lemma CloseIsLogged(g: GateState, req: Request)
    ensures req.Close? ==> EventOf(req, Answer(g, req)) == Some(Closed(req.run)) && req.run in GateAfter(g, req).closed
  {
  }

  /** Closing a run needs at most one record more than the log already has. */
  lemma CloseRecorded(g: GateState, r: Run, log: seq<Event>)
    requires Replayed(EMPTY, log).Durable() == g.Durable()
    ensures LiveSize(g.CloseRun(r)) <= |log| + 1
  {
    var more := log + [Closed(r)];
    assert more[..|log|] == log;
    MeaningFitsInLog(g.CloseRun(r), more);
  }

  /** Appending the event of a request keeps the log equal to the gate. */
  lemma LoggedRequest(g: GateState, req: Request, log: seq<Event>)
    requires Inv(g) && Replayed(EMPTY, log).Durable() == g.Durable()
    ensures Inv(GateAfter(g, req))
    ensures var ev := EventOf(req, Answer(g, req));
            Replayed(EMPTY, if ev.Some? then log + [ev.value] else log).Durable() == GateAfter(g, req).Durable()
  {
    ReplayIsMeaning(log);
    assert Meaning(Elements(log)).Durable() == Meaning(Elements(log));
    if OpOf(req).Some? {
      InvKept(g, OpOf(req).value);
      LoggedKeepsMeaning(g, OpOf(req).value, Elements(log));
    }
    ServerSafety.EventOfIsLogged(g, req);
    var ev := EventOf(req, Answer(g, req));
    hide Meaning;
    hide Answer;
    hide EventOf;
    hide Logged;
    if ev.Some? {
      var more := log + [ev.value];
      ReplayIsMeaning(more);
      assert Elements(more) == Elements(log) + {ev.value};
    } else {
      assert Elements(log) + {} == Elements(log);
    }
  }

  /** A snapshot followed by the close it already holds still means the same. */
  lemma SnapshotThenClose(g: GateState, snapshot: seq<Event>, r: Run)
    requires Inv(g) && IsSnapshot(g, snapshot) && r in g.closed
    ensures Replayed(EMPTY, snapshot + [Closed(r)]).Durable() == g.Durable()
  {
    SnapshotRebuilds(g, snapshot);
    assert (snapshot + [Closed(r)])[..|snapshot|] == snapshot;
    assert Outside(g.released, r) == g.released && Outside(g.rejected, r) == g.rejected;
  }
}
