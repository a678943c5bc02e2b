# SoundGate: a verified model

SoundGate is a gate that admits the effects of workflow runs: each effect, named by a run id
and an effect key, is released at most once, held until somebody approves it, or refused. A
server makes the gate's decisions durable in a log, a replicated store keeps the same decisions
in a tree, and approvals can carry a message authentication code. This project models these
layers in Dafny and proves what the whole is for.

The layers, bottom up:

* `GateModel` is the gate as a pure state machine. Its invariant is shown to be exact: it holds
  of the reachable states and of no others. `GateProduct` shows that the gate is a product of
  one small automaton per identity. `Soundgate` is the class with the source's five fields,
  updated in place and proved equal to the pure gate, method by method.
* `Replay` gives events, replay and the snapshot that compaction writes. A set of events has a
  meaning that does not depend on order; everything about logs is proved through it.
* `RecordCodec` is the log record, byte by byte: JSON objects of string members with escapes
  (sections 4 and 7 of RFC 8259), and a scanner for them. `WireFormat` pins these bytes to literal
  text, escapes and UTF-8 to character codes. `Recovery` is the recovery barrier
  over a file with a cursor, and what crashes at any byte leave for it.
* `GroupCommit` is the writer loop: batches, a carried compaction, acknowledgements after sync.
  `WriterSteps` shows that it refines the writer of the protocol below, with handlers
  interleaved between and during its actions.
* `Server` is the durable server as a protocol: any number of request handlers, the queue, the
  writer, compactions, crashes at any byte, refused or interrupted restarts. `ServerSafety`
  proves one invariant of every execution and the promises that follow from it. Only replies
  that are logged are promises; claims about order speak of the admission step under the lock,
  because the record is queued after the lock is dropped.
* `CompactionPolicy` bounds the log and the work of compaction on one connection.
* `Reapply`, `FenceLog`, `BigEndianBytes` and `FenceStore` are the replicated store: redoing a
  batch after a crash, the fence log over every history, its keys, and the store itself.
* `Sha256` and `DecisionTag` are the buffered hash against FIPS 180-4, HMAC against RFC 2104,
  the decision tag and its comparison. `Sha256Answers` says what the hash computes without its
  own definitions, up to the hash of "abc", round by round.
* `WorkflowForest` is the generator of random workflows, with its stack walk and labels.

`Options`, `Texts` and `Sorting` are shared vocabulary. Strings are UTF-8 byte sequences.

Where the code and its comments disagree the code is followed. The comment at
soundgate/src/main.rs:363-367 says that a compaction writes at most as many records as were
appended since the previous one. The code compacts once the appended records reach the size of
the last snapshot, so it can write that snapshot, the appended records and the close itself:
twice the appended records plus one. `WritesMoreThanAppended` is a concrete run of the policy
and `CommentFails` is the same on a connection; `WritesAtMostAppended` says exactly when the
comment is right; `CompactionWrites` proves the bound the code meets, and `WorstCase` and
`WorstCaseIsReached` that a due close reaches it for every positive number of appended records.
The comment also says that the log stays within about twice its live size. The bound the code
meets is twice the last snapshot or the minimum (`LogAfterClose`); no multiple of the live size
is one, because a close can erase most of it without a compaction being due
(`NoMultipleOfLive`) and repeated cancels are logged again (`RepeatedCancels`).
`WithinTwiceLive` says after which requests exactly the comment holds.

More properties hold only under a condition, which is proved to be the exact one. A batch of
committed operations can be applied again after a crash if and only if no hold was pending at
the checkpoint, since holds are not durable (`Reapply.RedoSafeExactly`); a snapshot whose fences
are ahead of its index is safe under the same condition (`FenceLog.LateSafeExactly`). A crash
inside the installation of a snapshot is the one point where recorded fences are lost:
`FenceLog.DiedInstallingFinds` says exactly what is then released again. The message under a
decision tag belongs to one run, key and decision alone if and only if neither id contains a
newline (`DecisionTag.MessageUniqueExactly`).

Assumptions: a crash keeps a prefix of the bytes of the write in progress, a rename is atomic,
and what was synced stays. The interleaving of the server's parts, which disk operations fail,
when the queue looks empty, and the generator's random draws are arbitrary choices.

Run `dafny verify dfyconfig.toml`.

## Model

| member | source | states |
|---|---|---|
| GateModel.ReachableExactly | formal/verus/gate_model.rs:36-59 | a gate state is reached by some sequence of operations if and only if (I1)-(I3) hold and no held identity belongs to a fenced run: the inductive invariant is exact |
| GateModel.InvKept | formal/verus/gate_model.rs:63-137 | every operation keeps that invariant |
| GateModel.Undo | soundgate/src/lib.rs:62-151 | every non-empty state satisfying the invariant has a smaller such state from which one operation leads to it |
| GateModel.HeldRunIsOpen | soundgate/src/lib.rs:112-122 | in a reachable gate a held identity's run is not fenced, so a decide that finds a hold always releases or rejects: the fence branch after the removal is dead code |
| GateModel.NoReleaseAfterSettling | soundgate/src/lib.rs:62-151 | over any run of operations, nothing releases an identity after its release, its rejection, or its run's cancel or close, even though a close erases the released set |
| GateModel.SettledKept | soundgate/src/lib.rs:62-151 | an identity that is released, rejected or fenced stays so under every operation, and no operation then answers it with Release |
| GateModel.HeldNeedsApproval | soundgate/src/lib.rs:79-82 | after an identity was told to wait, the only operation that can ever release it is an approving decide, whatever is resubmitted |
| GateModel.AfterConcat | soundgate/src/lib.rs:62-151 | a run of operations splits anywhere |
| GateProduct.GateIsAProduct | soundgate/src/lib.rs:62-151 | the state and the verdicts of each identity are those of a four-phase automaton fed only with the operations naming it and the cancels and closes of its run |
| GateProduct.OthersAreInvisible | soundgate/src/lib.rs:62-151 | deleting all operations on other identities and other runs from a run changes neither the state nor any verdict of the identity |
| GateProduct.CellsDetermineTheGate | soundgate/src/lib.rs:53-60 | two gates with the same automaton state for every identity are equal: the gate holds nothing shared |
| Replay.ReplayIsMeaning | soundgate/src/lib.rs:194-212 | replaying a log from the empty gate depends only on the set of its events, not on order or repetition |
| Replay.AnyLogOrderRebuilds | soundgate/src/main.rs:65-83 | for any run of operations, replaying the events the handlers emitted, in any order and with any repetitions (a release logged after its run's close included), rebuilds the durable state of the live gate |
| Replay.LoggedKeepsMeaning | soundgate/src/main.rs:65-83 | the event of one operation changes the meaning of the event set exactly as the operation changes the durable state |
| Replay.CoveringSubset | soundgate/src/lib.rs:196-203 | dropping records of a run whose close is kept changes nothing: replay loses only what a close subsumes |
| Replay.SnapshotRebuilds | soundgate/src/lib.rs:214-241 | the snapshot of a reachable gate replays, once or twice over, to its released, rejected, cancelled and closed sets with no holds |
| Replay.SnapshotIsCanonical | soundgate/src/lib.rs:218-241 | equal durable states have the same snapshot, record for record |
| Replay.SnapshotIsMinimal | soundgate/src/lib.rs:214-218 | no log whose replay has the same durable state is shorter than the snapshot |
| Replay.EventBelowIsStrictOrder | soundgate/src/lib.rs:219-226 | the order of the snapshot (closes, cancels, releases, rejections, each sorted bytewise) is a strict total order |
| Sorting.SortSet | soundgate/src/lib.rs:219-226 | lists a set in strictly increasing order with exactly its elements |
| Sorting.SortedUnique | soundgate/src/lib.rs:219-226 | a set has only one strictly sorted listing |
| Replay.SnapshotOrder | soundgate/src/lib.rs:219-241 | in a snapshot closes come first, then cancels, releases, rejections; each kind in the order of runs, then of keys |
| Texts.BelowIsByFirstDifference | soundgate/src/lib.rs:219-226 | that order is decided by the first byte that differs, or by length where none does |
| Soundgate.Gate.constructor | soundgate/src/lib.rs:56-60 | a new gate is the empty state |
| Soundgate.Gate.Submit | soundgate/src/lib.rs:62-88 | updates the fields to the state of the pure gate and returns its verdict |
| Soundgate.Gate.Decide | soundgate/src/lib.rs:90-123 | the same for a decision, with the hold removed before the fence is looked at |
| Soundgate.Gate.DropHolds | soundgate/src/lib.rs:128-137 | collecting the holds of a run and removing them one at a time leaves exactly the holds of the other runs |
| Soundgate.Gate.Cancel | soundgate/src/lib.rs:125-138 | fences the run and drops exactly its holds |
| Soundgate.Gate.CloseRun | soundgate/src/lib.rs:140-151 | closes the run and drops exactly its released, rejected and held identities |
| Soundgate.Gate.Apply | soundgate/src/lib.rs:194-212 | replays one event as the pure gate does; a release or rejection of a closed run is skipped |
| Soundgate.Gate.DurableEvents | soundgate/src/lib.rs:218-241 | returns the sorted log that has exactly one event for each released or rejected identity and each fence |
| RecordCodec.RoundTrip | soundgate/src/lib.rs:36-46 | every event reads back from its record, for all run ids and effect keys that are UTF-8 text |
| RecordCodec.OneLine | soundgate/src/main.rs:192-208 | a record contains no byte below 0x20, so no newline: one line is one record |
| RecordCodec.NoProperPrefixParses | soundgate/src/main.rs:210-226 | no proper prefix of a record parses, so a torn record is never taken for a record |
| RecordCodec.MergedLineRefused | soundgate/src/main.rs:192-208 | a line that has anything but blanks in front of a record (a torn fragment of any record, or a whole one) does not parse |
| RecordCodec.ScanObject | soundgate/src/lib.rs:36-46 | scanning the object written for a list of string members yields exactly that list |
| RecordCodec.ScanEscape | soundgate/src/lib.rs:36-46 | scanning an escaped string (section 7 of RFC 8259) yields the string |
| RecordCodec.DoneStays | soundgate/src/main.rs:196-198 | after the closing brace only white space keeps a line parsable |
| WireFormat.ReleasedText | soundgate/src/lib.rs:36-46 | a release record as literal text with run id and effect key escaped in their places; reading it gives the release back |
| WireFormat.RejectedText | soundgate/src/lib.rs:36-46 | a rejection record as literal text |
| WireFormat.CancelledText | soundgate/src/lib.rs:36-46 | a cancel record as literal text |
| WireFormat.ClosedText | soundgate/src/lib.rs:36-46 | a close record as literal text |
| WireFormat.PlainStays | soundgate/src/lib.rs:36-46 | run ids and effect keys without quotes, backslashes and control bytes are written as they are |
| WireFormat.QuotesAndBackslashes | soundgate/src/lib.rs:36-46 | quote, backslash and the five named controls have their two-character escapes |
| WireFormat.ControlsByNumber | soundgate/src/lib.rs:36-46 | the other controls are written with two hexadecimal digits |
| WireFormat.EscapedCode | soundgate/src/main.rs:196-198 | an escape by four hexadecimal digits is read as the character of that code |
| WireFormat.EscapedPair | soundgate/src/main.rs:196-198 | two surrogate escapes are read as the one character they stand for |
| WireFormat.CodeIsOneChar | soundgate/src/main.rs:196-198 | every code that is not a surrogate is written as one well-formed UTF-8 character that carries it |
| WireFormat.CharHasCode | soundgate/src/main.rs:196-198 | every well-formed UTF-8 character is what such a code is written as |
| Recovery.RecoveryBarrier | soundgate/src/main.rs:165-252 | refuses exactly when some terminated, non-blank line does not parse, changing neither file nor gate; otherwise leaves the repaired file with the cursor at its end, the gate replayed, the number of records and whether a close was among them |
| Recovery.CompletePart | soundgate/src/main.rs:188-189 | finds the end of the last newline-terminated line |
| Recovery.ParseLines | soundgate/src/main.rs:191-208 | reads all terminated lines in one pass: blank ones skipped, one bad line refuses all |
| Recovery.ReplayInto | soundgate/src/main.rs:246-250 | applies the events in order and reports whether one was a close |
| Recovery.RecordsOfLines | soundgate/src/main.rs:191-208 | of any terminated lines one that is neither blank nor a record refuses all; otherwise the records are read in order |
| Recovery.RecoverLines | soundgate/src/main.rs:188-233 | any file is terminated lines and a rest: the rest is dropped unless it is a record lacking its newline, which is then added |
| Recovery.RecoverCut | soundgate/tests/wal_recovery_barrier.rs:172-248 | wherever a crash cuts a log, of any records, recovery starts, finds exactly the records wholly present, and leaves the file equal to their newline-terminated encoding |
| Recovery.WholeFits | soundgate/src/main.rs:210-226 | the number of records counted as wholly present is right: those fit before the cut (the last newline not needed), the next one does not |
| Recovery.RecoverTornAppend | soundgate/src/main.rs:157-159 | a crash inside an append to a recovered log loses no earlier record and keeps the appended ones that were wholly written |
| Recovery.EveryRestartRecovers | soundgate/src/main.rs:144-161 | over any number of lives, each appending acknowledged batches and then dying at any byte of one more, no restart is refused and the log is always exactly what is owed |
| Recovery.AckedRecordStays | soundgate/src/main.rs:144-161 | an acknowledged record is in the log after every later crash and restart |
| Recovery.MergedLogRefused | soundgate/tests/wal_recovery_barrier.rs:250-273 | a log in which a later record landed on a torn line is refused, whatever comes before and after it |
| GroupCommit.WalWriter | soundgate/src/main.rs:254-361 | all requests are handled in queue order, in batches of 1 to 512 appends that never cross a compaction; the acknowledgements, the file and what is on disk are those of the handled actions; the histogram sums to the number of batches; a stop leaves one torn batch or one compaction at most and no later good acknowledgement |
| GroupCommit.TakeBatch | soundgate/src/main.rs:309-321 | the batch and the carried compaction are exactly the requests taken, in order; a compaction is carried, never dropped |
| GroupCommit.WriteBatch | soundgate/src/main.rs:340-350 | success means the whole batch is on disk; failure leaves the old file plus part of the batch |
| GroupCommit.LogFile.CompactWal | soundgate/src/main.rs:101-121 | success means the file is the snapshot and is on disk; a failure that leaves the temporary file behind changed nothing |
| GroupCommit.Slot | soundgate/src/main.rs:323-331 | the histogram slots hold the batch sizes 1, 2-8, 9-64, 65-256 and 257-512 |
| GroupCommit.GroupingIsInvisible | soundgate/src/main.rs:334-344 | the file after group commit is the file of a writer that handles one request at a time |
| GroupCommit.AckedAfterSync | soundgate/src/main.rs:341-347 | every acknowledgement is sent when the bytes on disk are those of the one-at-a-time writer after this request and some number of later ones; an append is only ever acknowledged as durable |
| WriterSteps.TraceIsARun | soundgate/src/main.rs:264-360 | every trace of the writer is a run of the protocol's StartBatch, FinishBatch, Swap and KeepOld steps on the same queue, ending with the same file, the same messages taken and their records acknowledged to the waiting handlers |
| WriterSteps.StopIsACrash | soundgate/src/main.rs:291-359 | every file the writer can leave when it stops is left by a crash of the protocol inside a batch, before a swap or after one |
| WriterSteps.InterleavingIsARun | soundgate/src/main.rs:254-361 | the writer's actions, interleaved in any way with handlers that go on admitting, queueing and replying (also while a batch is being written), are a run of the protocol through the same states |
| WriterSteps.MessagesInOrder | soundgate/src/main.rs:264-321 | in every interleaving the messages handled, then those still queued, are in order all messages ever queued: what the writer did is one of its traces over them, in good batches |
| WriterSteps.FileOfInterleaving | soundgate/src/main.rs:334-344 | in every interleaving the file is that of the writer's actions so far, without the batch in hand |
| WriterSteps.OnlyTimeMatters | soundgate/src/main.rs:264-321 | an action of a trace over all messages can be taken amid the handlers exactly when its messages have joined the queue |
| WriterSteps.DyingIsACrash | soundgate/src/main.rs:291-359 | wherever the writer dies amid the handlers, the protocol can crash with the same file |
| WriterSteps.WriterRuns | soundgate/src/main.rs:254-361 | the writer program, run over all messages ever queued from a protocol state on, handles them in order; under every schedule of its actions amid the handlers the protocol takes the same steps and has the file the writer leaves, alive or dead; with all messages queued at the start the whole resulting state is given |
| ServerSafety.EventOfIsLogged | soundgate/src/main.rs:65-83 | the events logged for requests and replies are those the gate's operations stand for |
| ServerSafety.AlwaysSafe | soundgate/src/main.rs:381-497 | every execution, of any length, keeps the whole invariant |
| ServerSafety.StepIsSafe | soundgate/src/main.rs:381-497 | every step of every component keeps it |
| ServerSafety.AdmitIsSafe | soundgate/src/main.rs:404-455 | the lock section keeps it, also when it queues a snapshot while earlier admissions are still unsent |
| ServerSafety.SendIsSafe | soundgate/src/main.rs:459-466 | queueing the record after the lock was dropped keeps it, also behind a queued snapshot |
| ServerSafety.StartBatchIsSafe | soundgate/src/main.rs:309-321 | taking a batch from the queue keeps it |
| ServerSafety.FinishBatchIsSafe | soundgate/src/main.rs:340-350 | a synced batch and its acknowledgements keep it |
| ServerSafety.SwapIsSafe | soundgate/src/main.rs:282-303 | replacing the log by the snapshot at the head of the queue loses no acknowledged record |
| ServerSafety.KeepOldIsSafe | soundgate/src/main.rs:291-301 | a compaction that fails before its rename changes nothing that matters |
| ServerSafety.CrashIsSafe | soundgate/src/main.rs:144-161 | a crash at any byte of the batch being written keeps every acknowledged record |
| ServerSafety.CrashAfterSwapIsSafe | soundgate/src/main.rs:295-300 | stopping after the rename keeps every acknowledged record |
| ServerSafety.RestartIsSafe | soundgate/src/main.rs:508-527 | recovery, with the compaction it does when the log holds a close, re-establishes the invariant |
| ServerSafety.RestartCompactsClosedLogs | soundgate/src/main.rs:508-527 | a restart leaves a log without closes byte for byte as repaired, and replaces any other by the snapshot |
| ServerSafety.RespondIsSafe | soundgate/src/main.rs:488-494 | sending or losing a reply keeps it; a promise is only sent for an acknowledged record |
| ServerSafety.OneReleaseReply | soundgate/src/main.rs:381-497 | in every execution of handlers, writer, compactions, crashes and restarts an identity gets at most one release reply |
| ServerSafety.PromisesAreKept | soundgate/src/main.rs:381-497 | after the release reply of an identity, its decide's refused_rejected reply, or the ack of its run's cancel or close, no admission step releases it, across restarts too |
| ServerSafety.AckedRecordsAreOnDisk | soundgate/src/main.rs:282-303 | at every reachable point a restart would be accepted and would find every acknowledged record or the close of its run, and nothing that no admission step decided |
| ServerSafety.QuietLogIsTheGate | soundgate/src/main.rs:432-451 | when nothing is in flight, replaying the log gives exactly the durable state of the live gate |
| CompactionPolicy.SnapshotSize | soundgate/src/main.rs:374-379 | a snapshot has one record for each released or rejected identity and each fence |
| CompactionPolicy.CompactionWrites | soundgate/src/main.rs:432-449 | a due close writes exactly the facts alive after it, at most 2·appended + 1 records |
| CompactionPolicy.StepKeepsSound | soundgate/src/main.rs:381-497 | every request keeps: the log replays to the gate, its length is last_snapshot + appended, and compactions are paid for by appends |
| CompactionPolicy.WritesAreAmortised | soundgate/src/main.rs:363-367 | over any run all compactions together write at most three records for each one appended |
| CompactionPolicy.LogAfterClose | soundgate/src/main.rs:363-367 | after every close of any run the log has at most last_snapshot + max(min, last_snapshot) records, so at most twice the live ones while these have not shrunk below the last snapshot or the minimum |
| CompactionPolicy.SnapshotHeadsTheLog | soundgate/src/main.rs:432-449 | at every point of a run last_snapshot counts the records that the latest compaction wrote, or those found at start, and the log begins with exactly these |
| CompactionPolicy.WritesAtMostAppended | soundgate/src/main.rs:363-367 | a due close writes at most as many records as were appended since the last snapshot exactly when the dead records in the log plus what the close erases are at least that snapshot plus a new fence |
| CompactionPolicy.WritesMoreThanAppended | soundgate/src/main.rs:363-367 | with minimum 1, one recovered and one appended record: the close of another run is due and writes three |
| CompactionPolicy.CommentFails | soundgate/src/main.rs:381-497 | the same requests, served by a connection from a new gate: the replies are release and ack, and the compaction writes three records where one was appended |
| CompactionPolicy.WorstCase | soundgate/src/main.rs:432-449 | at a minimum from 1 to n, with a snapshot of n releases and n more appended, the close of another run is due and writes exactly 2n + 1 records |
| CompactionPolicy.WorstCaseIsReached | soundgate/src/main.rs:381-497 | for every n from 1 a run of n submits and a close reaches that case |
| CompactionPolicy.LiveSizeAfter | soundgate/src/main.rs:65-83 | each request changes the number of live facts by what its record adds and its close erases |
| CompactionPolicy.WithinTwiceLive | soundgate/src/main.rs:363-367 | after any request the log is within twice its live size if the request compacted it, and otherwise exactly when its records, the new one and twice what a close erases leave room |
| CompactionPolicy.NoMultipleOfLive | soundgate/src/main.rs:363-367 | closing a run of n recovered records compacts nothing and leaves n + 1 records for one live fact |
| CompactionPolicy.RepeatedCancels | soundgate/src/main.rs:363-367 | n cancels of one run leave n records for one live fact |
| CompactionPolicy.AnswersAreVerdicts | soundgate/src/main.rs:404-455 | a submit or an authentic decide is answered with the verdict of its identity's own automaton; an unauthentic decide and a bad line with an error, a cancel and a close with an ack, a ping with a pong |
| CompactionPolicy.ServedIsAfter | soundgate/src/main.rs:404-455 | the gate after any requests is the gate after the operations they amount to |
| CompactionPolicy.Connection.constructor | soundgate/src/main.rs:505-551 | starts with nothing appended and the recovered log counted as a snapshot |
| CompactionPolicy.Connection.CloseAndCompact | soundgate/src/main.rs:428-451 | a close compacts exactly when the policy says so; a compaction writes at most 2·appended + 1 records and resets the counters to the snapshot |
| CompactionPolicy.Connection.LockSection | soundgate/src/main.rs:404-455 | the reply of every kind of request, in terms of the automaton of its identity, and the state of the gate after it; compacts exactly at a due close |
| CompactionPolicy.Connection.Handle | soundgate/src/main.rs:381-497 | the same reply and gate; a request is one step of the policy: a due close leaves the snapshot of the gate and then its own record, everything else only appends its record; the length bound after a close |
| CompactionPolicy.Connection.Serve | soundgate/src/main.rs:381-497 | every reply of a connection is the verdict the gate gives after the operations before it, or the fixed reply of its kind; the books are a run of the policy, with the length bound after every close and at most three records written for each one appended |
| Reapply.MergeNext | soundgate/src/raft_gate/store.rs:350-395 | an operation a later state already saw commutes with taking that state's durable part: it changes nothing but holds |
| Reapply.RedoPrefix | soundgate/src/raft_gate/store.rs:350-395 | redoing the first part of what was already done restores exactly the holds of that point |
| Reapply.Redo | soundgate/src/raft_gate/store.rs:350-395 | with no hold pending at the checkpoint, applying the whole batch again from the fences of any part of it ends in the uninterrupted state, holds included |
| Reapply.RedoAfterCrashes | soundgate/src/raft_gate/store.rs:350-395 | the same for any number of crashes at any points of the batch |
| Reapply.PendingHoldIsLost | soundgate/src/raft_gate/store.rs:350-395 | a hold pending at the checkpoint makes a redo end in a different durable state |
| Reapply.RedoSafeExactly | soundgate/src/raft_gate/store.rs:350-395 | a checkpoint can be redone from, whatever the batch and the crash point, if and only if it has no hold pending |
| FenceLog.HistoryKeepsFences | soundgate/src/raft_gate/store.rs:91-142 | after any history of batches, crashes inside batches, restarts, snapshots installed (also ones built late) and installations that died at any point, replaying the fences in key order gives the gate's durable state |
| FenceLog.FencesAreConsistent | soundgate/src/raft_gate/store.rs:56-76 | the fences of a replica whose gate they rebuild, none of them a close, never hold both a release and a rejection of one identity |
| FenceLog.FenceIsTheChange | soundgate/src/raft_gate/store.rs:56-76 | an operation changes the durable state exactly as its fence, or its absence, says |
| FenceLog.InstallReproduces | soundgate/src/raft_gate/store.rs:405-446 | installing the snapshot another replica built reproduces its durable gate, applied index and membership, also after a restart |
| FenceLog.LateSnapshot | soundgate/src/raft_gate/store.rs:397-399 | a builder cloned before entries were applied dumps their fences under its older index; with nothing held at the clone, installing that snapshot and applying the entries from its index on gives the uninterrupted replica |
| FenceLog.LateSafeExactly | soundgate/src/raft_gate/store.rs:397-399 | such late snapshots are safe, whatever entries were applied, if and only if nothing was held where the builder was cloned |
| FenceLog.DiedInstallingFinds | soundgate/src/raft_gate/store.rs:418-440 | a restart after dying anywhere between clearing the tree and saving the membership finds the meaning of the snapshot fences recorded so far, the old membership, and the old position unless the new one was saved; it releases an effect exactly when none of those fences settles it |
| FenceLog.ReapplyAfterCrashes | soundgate/src/raft_gate/store.rs:350-395 | however often a node dies between recording fences and saving its position, applying the batch again gives the gate, durable fences, position and membership of an uninterrupted run, if no hold was pending at the checkpoint |
| BigEndianBytes.KeyOrder | soundgate/src/raft_gate/store.rs:144-147 | big-endian keys are ordered as their numbers |
| BigEndianBytes.NumberOfKey | soundgate/src/raft_gate/store.rs:144-147 | a number reads back from its key |
| FenceStore.IterationReadsEvents | soundgate/src/raft_gate/store.rs:108-124 | iterating the fence tree in key order yields the recorded fences in recording order and the next free number |
| FenceStore.HoldsOneMore | soundgate/src/raft_gate/store.rs:163-171 | recording under the next number uses a key never used before and keeps the earlier ones in order |
| FenceStore.NextSeqIsLeast | soundgate/src/raft_gate/store.rs:108-124 | the next number is the least above all numbers under 8-byte keys, whatever the tree holds |
| FenceStore.EventsUnderAre | soundgate/src/raft_gate/store.rs:108-124 | reading a tree yields the events of exactly the values that parse |
| FenceStore.ReadTree | soundgate/src/raft_gate/store.rs:108-124 | rebuilds the gate from any tree: values that do not parse are passed over, and the next number is one more than the largest 8-byte key |
| FenceStore.DumpTree | soundgate/src/raft_gate/store.rs:173-179 | returns the events of all values that parse, in key order |
| FenceStore.SoundGateStore.constructor | soundgate/src/raft_gate/store.rs:91-142 | opens on any tree; on one the store wrote, the replica is the one that restarts from its fences and saved position |
| FenceStore.SoundGateStore.RecordFence | soundgate/src/raft_gate/store.rs:163-171 | adds one fence under a fresh key |
| FenceStore.SoundGateStore.ApplyOp | soundgate/src/raft_gate/store.rs:33-54 | performs a committed operation on the gate and returns its admission, none for a cancel |
| FenceStore.SoundGateStore.ApplyOne | soundgate/src/raft_gate/store.rs:359-386 | applies one committed entry: gate, fence and position as the replica model says; a submit and a decide are answered with the gate's admission, everything else with none |
| FenceStore.SoundGateStore.ApplyToStateMachine | soundgate/src/raft_gate/store.rs:350-395 | applies a batch and saves the position once at the end; each submit and decide is answered with the admission of the gate after the operations before it, a cancel, a blank and a configuration entry with none |
| FenceStore.SoundGateStore.BuildSnapshot | soundgate/src/raft_gate/store.rs:242-280 | the snapshot holds the applied index, the membership and all fences in order |
| FenceStore.SoundGateStore.GetSnapshotBuilder | soundgate/src/raft_gate/store.rs:397-399 | the clone keeps the position of its moment and shares the tree |
| FenceStore.SnapshotBuilder.BuildSnapshot | soundgate/src/raft_gate/store.rs:242-280 | dumps the fences of the tree as it is now under the position of the clone |
| FenceStore.SoundGateStore.BuildAround | soundgate/src/raft_gate/store.rs:397-399 | a builder cloned before a batch and run after it builds the late snapshot |
| FenceStore.SoundGateStore.RewriteFences | soundgate/src/raft_gate/store.rs:418-430 | leaves the tree with exactly the fences recorded so far under the keys 0, 1, 2, ... |
| FenceStore.DieInstalling | soundgate/src/raft_gate/store.rs:418-440 | the store reopened after dying inside an installation is the replica the model says |
| FenceStore.SoundGateStore.InstallSnapshot | soundgate/src/raft_gate/store.rs:405-446 | replaces gate, tree, numbering and positions by those of the snapshot |
| Sha256.Block | soundgate/src/hmac.rs:38-81 | one block is the computation of section 6.2.2 of FIPS 180-4 |
| Sha256.RoundOf | soundgate/src/hmac.rs:57-76 | shifting the eight variables in place is one round of section 6.2.2 |
| Sha256.Hasher.Update | soundgate/src/hmac.rs:83-109 | whatever was absorbed before and however long the piece, hash value and buffer account for all bytes |
| Sha256.Hasher.Absorb | soundgate/src/hmac.rs:86-108 | a piece of any length goes through the buffer, whole blocks and the rest without losing or repeating a byte |
| Sha256.Hasher.PadZeros | soundgate/src/hmac.rs:115-117 | the padding loop ends, after the number of zero bytes section 5.1.1 of FIPS 180-4 prescribes |
| Sha256.Hasher.Finish | soundgate/src/hmac.rs:111-127 | returns the digest of everything absorbed |
| Sha256Answers.HashOfAbc | soundgate/src/hmac.rs:11-128 | the known answer of FIPS 180-4 for "abc": 32 literal bytes, from padding over all 64 rounds to the byte order of the result |
| Sha256Answers.CubeFractions | soundgate/src/hmac.rs:11-23 | the round constants are the first 32 bits of the fractional parts of the cube roots of 64 listed primes |
| Sha256Answers.SquareFractions | soundgate/src/hmac.rs:26-36 | the initial hash value is the first 32 bits of the fractional parts of the square roots of the first eight |
| Sha256Answers.ChChooses | soundgate/src/hmac.rs:59 | the first argument chooses, bit by bit, between the other two |
| Sha256Answers.MajWhereTwoAgree | soundgate/src/hmac.rs:66 | where two arguments agree the result is what they agree on |
| Sha256Answers.MajWhereTheyDiffer | soundgate/src/hmac.rs:66 | where they differ the third decides |
| Sha256Answers.SigmasByShifts | soundgate/src/hmac.rs:45-65 | the four sigma functions as shifts |
| Sha256Answers.WordFromBytes | soundgate/src/hmac.rs:41-43 | a word is its four bytes in base 256, most significant first, and gives them back |
| Sha256Answers.BytesFromWord | soundgate/src/hmac.rs:121-126 | a word reads back from its bytes |
| Sha256.HashPieces | soundgate/src/hmac.rs:83-127 | every way of cutting a message into pieces gives the digest of the whole message |
| Sha256.Hash | soundgate/src/hmac.rs:130-134 | hashes a message in one piece |
| Sha256.ZeroCountIsLeast | soundgate/src/hmac.rs:115-117 | the padding is the least that leaves room for the length field |
| Sha256.LengthFieldIsExact | soundgate/src/hmac.rs:112-119 | the 64-bit length field, most significant byte first, is the length in bits exactly for messages under 2^61 bytes |
| DecisionTag.HmacByPads | soundgate/src/hmac.rs:136-162 | the inner pad is the key with 0x36 and the outer with 0x5c, byte by byte, a long key hashed first and a short one filled with zeros; the text goes inside |
| DecisionTag.HmacSha256 | soundgate/src/hmac.rs:136-162 | equals section 2 of RFC 2104 for every key length |
| DecisionTag.DecisionTag | soundgate/src/hmac.rs:164-173 | returns the 64 hexadecimal digits of the code of the message |
| DecisionTag.Verify | soundgate/src/hmac.rs:175-189 | true exactly when the two strings are equal |
| DecisionTag.HexPairIsBase16 | soundgate/src/hmac.rs:169-171 | a byte is written as its two base-16 digits, the high one first |
| DecisionTag.HexDigitIsLetter | soundgate/src/hmac.rs:169-171 | the digits are 0-9 and a-f |
| DecisionTag.HexInOrder | soundgate/src/hmac.rs:169-171 | the pairs stand in the order of the bytes |
| DecisionTag.OctetsAreBytes | soundgate/src/hmac.rs:166 | the bytes of the message are what is authenticated |
| DecisionTag.MessageBytes | soundgate/src/hmac.rs:165 | run, newline, key, newline, and 1 for an approval or 0 for a rejection |
| DecisionTag.HexInjective | soundgate/src/hmac.rs:167-172 | different codes have different hexadecimal forms |
| DecisionTag.TagShowsTheCode | soundgate/src/hmac.rs:164-173 | two tags are equal exactly when the codes are |
| DecisionTag.MessageDetermines | soundgate/src/hmac.rs:165 | among run ids without a newline the message determines run, key and decision |
| DecisionTag.MessageUniqueExactly | soundgate/src/hmac.rs:165 | no other run, key and decision whatever has the same message if and only if neither id contains a newline |
| WorkflowForest.Parents | randgraph/gen.py:8-12 | each node hangs from START or from the earlier node drawn for it |
| WorkflowForest.Depths | randgraph/gen.py:19-23 | one pass gives every node its wave: one more than the number of its ancestors |
| WorkflowForest.Ancestors | randgraph/gen.py:25-30 | returns exactly the ancestors |
| WorkflowForest.Children | randgraph/gen.py:32-35 | lists the children of every node in order |
| WorkflowForest.Descendants | randgraph/gen.py:37-42 | the stack walk ends, pops each node at most once, and returns exactly the nodes of which x is an ancestor |
| WorkflowForest.AncestorIsEarlier | randgraph/gen.py:19-23 | waves strictly increase along the ancestor relation |
| WorkflowForest.AncestorsAreAbove | randgraph/gen.py:25-30 | the ancestors of a node are exactly the nodes met by going up from it, parent by parent |
| WorkflowForest.WaveCountsAncestors | randgraph/gen.py:19-23 | the wave of a node is one more than the number of its ancestors |
| WorkflowForest.SameWaveIsConcurrent | randgraph/gen.py:44-52 | a node of the gate's own wave is neither above nor below the gate |
| WorkflowForest.Relations | randgraph/gen.py:44-52 | the three conc_* labels go exactly to the effects incomparable with the gate: earlier, same or later as they have fewer, as many or more ancestors; ancestor and descendant are the two directions of comparability |

## Left out

- Sockets, threads, file locking, environment variables, stderr text and exit codes: only the outcomes "refuse to start" and "stop" are kept.
- serde_json beyond objects of string members: a record with a number, an array, a nested object or `null` as a member value, or written as an array, is refused by the model's decoder where the program might accept it as an unknown member; the program itself writes none.
- Parsing of requests: a request arrives parsed, with the outcome of its authentication, or is malformed.
- The error reply to a handler whose append was not acknowledged: the writer stops the process when an append fails, which the protocol models as a crash.
- Waiting for the compaction's acknowledgement before the reply to a close: it only delays the reply, and the protocol allows every delay.
- In the server protocol a compaction may be queued at any close; when it is due is the subject of CompactionPolicy.
- CompactionPolicy.Connection.Serve: one connection and a disk that does not fail, because the append counter is incremented outside the lock and concurrent closes can read it late.
- The in-memory mode without a log: it is the gate alone.
- A crash in the middle of a restart's own repair or compaction: the repair is one truncation or one byte and the compaction an atomic rename; the protocol lets a restart die before and after its repair.
- Logs not written by the server: the protocol starts from an empty log, and a server started on a log it wrote is a longer execution. Recovery itself is modelled on arbitrary bytes.
- Overflow of the 64-bit counters: `fence_seq` is assumed below 2^64 - 1, and the histogram and the append counters are unbounded.
- Raft consensus, elections and network transport: the committed entries are given. Votes, the raft log tree and purging are not modelled.
- sled: the fence tree is an ordered map whose operations do not fail and reach the disk in order.
- The snapshot's own serialisation, and its stored copy.
- Verdicts of operations applied a second time: they may differ from the first ones (a release becomes a duplicate); the state does not.
- Close in the replicated store: its operations have none; the redo theorems cover it all the same.
- Secrecy and unforgeability of the authentication code, and the timing of its comparison.
- Getters, conformance snapshots, bindings, clients, probes, benchmarks and kernel-level enforcement: thin or outside the core.
- The generator's choice of gate, effects and roles, and its output format: gate and effects are parameters.
