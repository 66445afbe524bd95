# QuickDrop: a verified model of the file transfer

QuickDrop sends files between two peers over WebRTC data channels. A sender streams a file in chunks under an
8 MiB window; the chunks travel over several independent connections and arrive in any order; the receiver puts
them back in order, writes a part file, records durable checkpoints beside it, and finally checks the digest and
renames the part file to its destination. This project models that machinery and proves what it guarantees.

`dafny verify dfyconfig.toml` checks the whole project.

## How the model is built

- **Files and chunks** (`Chunking.dfy`, `Disk.dfy`). Sizes are int64 values with the wrap-around of the rounding
  sum written out. A disk holds the part file, the sidecar, its `.new` file and the destination; a session leaves
  a trace of its acts (truncate, write, sync, replace, rename, remove, send), and a process may stop between any
  two of them or in the middle of a write.
- **The receiver** (`Receiving.dfy`, `ReceiveLoop.dfy`). `Receiving` is the receive loop as a function of its
  state; the class `ReceiveLoop` has the loop's own variables and nested loops, and each method is proved against
  that function. Whether a system call succeeds, how much of a failing write reaches the disk and whether the
  100 ms progress period has passed are unknown functions of the past, and so is whether the answer or the
  cancellation goes out first when the resumed bytes cannot be read; every theorem holds for all of them.
- **What the receiver guarantees** (`ReceiveInvariant.dfy`, `Histories.dfy`, `Sessions.dfy`, `Ordering.dfy`,
  `Outcomes.dfy`, `Announcements.dfy`). A
  claim states what the offered file's bytes are. With `honest` set, chunks carry those bytes; without it nothing is
  assumed about what arrives. SHA-256 is an unknown function on byte sequences. Within a session equality of bytes
  follows from the chunk invariant and never from collision resistance; that equal digests stand for equal bytes is
  assumed only where a theorem about resuming says so (`Sessions.Faithful`).
- **The sender and the two parties together** (`Sending.dfy`, `Transfer.dfy`, `Delivery.dfy`, `Runs.dfy`). The
  class `FileSender` holds the two counters, the token slot and the streaming loop. `Transfers` is a step relation
  over both sides: every read, decision and wait of the sender, the unlock and the notification of the message
  handler, and every delivery are separate steps that interleave freely. Reliable steps deliver each chunk once in
  any order; the others lose or repeat chunks, cancel, or time out.
- **Packets** (`Json.dfy`, `Packets.dfy`, `Carriage.dfy`). A concrete printer and parser for the chunk header:
  strings by section 7 and integers by section 6 of RFC 8259, with UTF-8, the escapes of Go's `encoding/json`,
  and a big-endian length. The methods `EncodeChunk`, `PutUint32` and `Copy` fill an array in place.
- **Striping and back-pressure** (`Striping.dfy`, `Backpressure.dfy`). A packet goes to the open channels, turned by
  the cursor, by repeatedly trying and removing the least-buffered one. The order in which Go walks the map of lanes
  is a parameter.
- **Lanes and candidates** (`Lanes.dfy`, `LaneOwnership.dfy`, `Negotiation.dfy`, `ParallelChannel.dfy`). Every
  section under the lock is a function on the lane table. `LaneOwnership` interleaves these sections freely,
  `Negotiation` composes them into the handlers of the negotiation loop, `HandlersAreRuns` joins the two, and the
  class `ParallelChannel`, which also sends over the lanes of its table, is proved against the handlers.

## What was found

- A sender completes without proof of the commit exactly when the accepted offset equals the size: an empty file,
  or a part file that was already whole (`Runs.CommitProofNeedsBytes`, transfer/manager.go:213-216). It happens with
  every empty file that finds nothing on the disk (`Runs.EmptyFileCompletesSilently`).
- docs/protocol-v1.md:39 describes resuming from an acknowledged byte boundary. The code resumes only when the
  part file has exactly the recorded length on a chunk boundary; a part file that grew past its last checkpoint
  is discarded (`Sessions.StopKeepsProgress` for every stop, `Sessions.CrashKeepsProgress` for a waiting transfer,
  `Sessions.GrownPartRestarts` for one that loses its progress, transfer/manager.go:841-844).
- A resume offset names a prefix of the offered file, for all files whose digests stand for their bytes, exactly when
  the metadata is the very same or both sides carry a digest (`Sessions.ResumeExact`, transfer/manager.go:838). A
  sidecar without one matches every digest, so its part file can be resumed as the start of another file with the same
  name, size, date and chunk size (`Sessions.DigestlessMixup`). `SendFile` always sets a digest, and its offers are
  never mixed up (`Sessions.DigestsAreConsistent`, `Sessions.CrashSafeResume`).
- `TotalChunks` is the number of chunks exactly when its rounding sum fits in int64
  (`Chunking.TotalChunksExact`, protocol/protocol.go:111-116).
- A full chunk's packet fits the negotiated maximum exactly when that maximum is above 4096
  (`Packets.PacketFits`, transfer/manager.go:111-115).
- The high-water mark holds for a send exactly when some channel that takes the packet has room; a first choice
  that refuses can push another lane past the mark (`Backpressure.SendStaysLow`, `Backpressure.RefusalOverfills`).
- A repeated capability message whose new connection cannot be made removes the lane already installed at that
  index (`Negotiation.CapabilityKeepsLane`, `Negotiation.RepeatedCapabilityRemovesLane`,
  webrtc/parallel_channel.go:354-360).

## Model

| member | source | states |
|---|---|---|
| `Runs.CommitProofNeedsBytes` | transfer/manager.go:213-281 | from a given start of the streaming phase, every way the sender can complete leaves the whole file committed at the receiver, if and only if the accepted offset is below the size |
| `Runs.CompletedMeansCommitted` | transfer/manager.go:264-281 | with `commitAck` and an accepted offset below the size, a sender whose final wait sees `acked >= size` has a receiver that has renamed the part file, and the destination equals the source; lanes may lose, repeat and reorder chunks, calls may fail, timers may fire |
| `Runs.SilentCompletion` | transfer/manager.go:213-216 | with the accepted offset equal to the size there is a run in which the sender completes while the receiver is still waiting |
| `Runs.EmptyFileCompletesSilently` | transfer/manager.go:213-216 | every empty file that finds nothing on the disk has a run from the start of its session in which the sender completes and the receiver waits |
| `Runs.AcknowledgedIsDurable` | transfer/manager.go:329-371 | in every run, whatever the lanes and timers do: the sender's `acked` is at most `received`, and while the receiver runs its sidecar records at least `acked` bytes and the part file begins with them |
| `Runs.CoveredStep` | transfer/manager.go:329-371 | each step of either side keeps `acked` justified by the start or by the receiver's last acknowledgement |
| `Runs.SentAcks` | transfer/manager.go:551-568 | the last acknowledgement of a session is its largest |
| `Runs.RunsEndCommitted` | transfer/manager.go:221-280 | over reliable lanes with a working disk every run takes at most 17 steps a chunk and 16 more, and a state in which nothing can happen any more is a completed sender and a committed file |
| `Runs.RunsCanFinish` | transfer/manager.go:221-280 | every such run can be carried on to completion and commit |
| `Runs.ResumedTransferCommits` | transfer/manager.go:197-280 | after any number of sessions stopped anywhere over consistent metadata, a session started on what they left, over reliable lanes with a working disk, can be carried on until the sender completes and the destination is the source |
| `Runs.QuiescentIsDone` | transfer/manager.go:221-280 | no deadlock: neither the window wait nor the final wait can be left blocked with nothing under way |
| `Runs.CaughtUp` | transfer/manager.go:221-236 | once everything is delivered the sender has heard of all but less than one progress interval, so the window is open |
| `Runs.CommitHeard` | transfer/manager.go:329-351 | a sender that has taken every message of a committed receiver has `acked >= size` |
| `Runs.MeasureFalls` | transfer/manager.go:221-280 | each step of either side over reliable lanes lowers a measure of unsent, unwritten and travelling chunks and messages |
| `Runs.RunFalls` | transfer/manager.go:221-280 | the measure pays for the length of every run |
| `Runs.WindowBound` | transfer/manager.go:642-651 | with room for one window and one chunk, the reorder buffer of a running receiver stays below 8 MiB plus one chunk, and only its disk can make it fail |
| `Runs.NoLostWakeUp` | transfer/manager.go:221-236 | in every interleaving, a sender waiting on a value older than its counter has a token in `acks` or a handler about to push one, in both waits |
| `Runs.Handshake` | transfer/manager.go:197-217 | what `startReceive` leaves on any honest disk and what the sender makes of the answer is an initial state of the two-party system: same offset, same chunk index |
| `Runs.OfferedSetup` | transfer/manager.go:172-187 | a transfer offered by `SendFile`, with the digest of its bytes and a chunk count that fits, meets what the two-party theorems ask; the default reorder limit leaves room for the window |
| `Runs.RunSafe` | transfer/manager.go:221-280 | every run, reliable or not, keeps the safety invariant of both sides |
| `Runs.RunTidy` | transfer/manager.go:221-280 | every run over reliable lanes keeps the two sides in step |
| `Transfers.SafeStep` | transfer/manager.go:221-280 | every step keeps `start <= acked <= size`, `received` at most the receiver's `expectedOffset`, `acked >= size` only after the commit, and the wake-up discipline |
| `Transfers.EmitStep` | transfer/manager.go:237-257 | emitting a chunk moves offset and index together to the next chunk boundary |
| `Transfers.EmitsStream` | transfer/manager.go:237-257 | a sender step that does not block emits exactly what the streaming loop emits next |
| `Transfers.TakeStep` | transfer/manager.go:329-371 | taking a `file_ack` or `file_progress` keeps both counters behind the receiver and the wake-up discipline |
| `Transfers.ReceiverStep` | transfer/manager.go:605-690 | any event at the receiver keeps the sender's counters justified |
| `Transfers.OnEventGrows` | transfer/manager.go:605-690 | an event only moves the receiver forward: messages are only added, a new progress mark is announced as the sender's flag asks, a new durable mark below the size is acknowledged, a commit is acknowledged with the size |
| `Transfers.DrainGrows` | transfer/manager.go:652-687 | draining announces each progress mark it records and never commits |
| `Transfers.CompleteGrows` | transfer/manager.go:569-604 | completion that commits acknowledges the size |
| `Transfers.SourceEvents` | transfer/manager.go:245-252 | the packets of an admissible file pass the receiver's checks and carry its bytes |
| `Deliveries.TidyStep` | transfer/manager.go:221-280 | every reliable step keeps each unsent, travelling, waiting and written chunk in exactly one place and every message counted |
| `Deliveries.WindowBoundsBuffer` | transfer/manager.go:642-651 | the waiting chunks and one more fit the window, so neither the limit nor a duplicate can fail the receiver |
| `Deliveries.Delivered` | transfer/manager.go:628-690 | over reliable lanes a delivered chunk is never refused: the receiver keeps running, commits, or hits its disk, and the chunk moves from the lanes to the file or the reorder map |
| `Deliveries.EndDelivered` | transfer/manager.go:613-623 | `file_end` is never answered by a wrong digest: the receiver keeps waiting with the end noted, commits, or hits its disk |
| `Deliveries.SplitStep` | transfer/manager.go:652-657 | a delivery keeps sent chunks divided between lanes, reorder map and file |
| `Deliveries.NoMismatch` | transfer/manager.go:574-580 | with the digest of the source announced, the source's bytes are not rejected |
| `Sending.SidesAgree` | transfer/manager.go:207-257 | for every disk, the offered offset passes the sender's check, both sides start at the same index, and, when no read of the counter finds the window full, the chunks emitted from there tile the rest of the file, `totalChunks` minus the start index of them |
| `Sending.StreamTiles` | transfer/manager.go:221-257 | from an unchanged file, whatever the counter reads before each chunk, the emitted chunks are the true ones in order, without gap, each inside the window; emission stops only at the end or with a full window |
| `Sending.TrueChunkPasses` | transfer/manager.go:628-638 | every emitted chunk passes the receiver's index, offset and length checks with no int64 overflow |
| `Sending.WholeStream` | transfer/manager.go:221-257 | when no read of the counter finds the window full, the emitted bytes are the file from the offset on |
| `Sending.ReadFull` | transfer/manager.go:237-238 | a read gives at most the bytes wanted, and fewer only at the end of the file |
| `Sending.AnyAnswer` | transfer/manager.go:207-257 | whatever the receiver answers, the sender sends the rest of the file from an offset that is a boundary inside it, and the whole file after any other answer |
| `Sending.FileSender.Accept` | transfer/manager.go:197-217 | an unusable answer restarts at 0; offset, index and both counters start from the accepted offset |
| `Sending.FileSender.HandleFileAck` | transfer/manager.go:329-351 | `file_ack` raises both counters, never lowers one, and fills the token slot |
| `Sending.FileSender.HandleFileProgress` | transfer/manager.go:352-371 | `file_progress` raises `received` only |
| `Sending.FileSender.StreamChunks` | transfer/manager.go:221-257 | the streaming loop between two waits, with the counter read again before each chunk while the handler raises it, emits `Stream` and stops where `Stream` has nothing left |
| `ReceiveLoops.ReceiveLoop.constructor` | transfer/manager.go:525-550 | the loop starts from the state `startReceive` hands it |
| `ReceiveLoops.ReceiveLoop.Call` | transfer/manager.go:553-560 | a file-system call happens or fails, and is logged as one disk act |
| `ReceiveLoops.ReceiveLoop.SendControl` | transfer/manager.go:565 | a control message is sent once, in order |
| `ReceiveLoops.ReceiveLoop.ReceiveFailed` | transfer/manager.go:629-632 | a failure sends `file_cancel` and ends the loop |
| `ReceiveLoops.ReceiveLoop.SaveSidecar` | transfer/manager.go:847-858 | the sidecar is written beside and then replaced |
| `ReceiveLoops.ReceiveLoop.DoCheckpoint` | transfer/manager.go:551-568 | the loop's `checkpoint` refines the specification: sync, sidecar, and then `file_ack` unless the commit will be acknowledged |
| `ReceiveLoops.ReceiveLoop.TryComplete` | transfer/manager.go:569-604 | the loop's `complete` refines the specification and reports whether the loop is over |
| `ReceiveLoops.ReceiveLoop.DoPromote` | transfer/manager.go:588-601 | close, optional removal, rename, sidecar removal, final acknowledgement, in this order |
| `ReceiveLoops.ReceiveLoop.DoAppend` | transfer/manager.go:657-669 | one waiting chunk is taken out, checked for continuity, written and hashed |
| `ReceiveLoops.ReceiveLoop.DoReport` | transfer/manager.go:677-686 | a progress report is sent when due and recorded |
| `ReceiveLoops.ReceiveLoop.WriteOne` | transfer/manager.go:657-686 | one turn of the inner loop |
| `ReceiveLoops.ReceiveLoop.DrainPending` | transfer/manager.go:652-687 | the inner loop writes the run of chunks that starts at `expectedIndex` |
| `ReceiveLoops.ReceiveLoop.HandleChunk` | transfer/manager.go:628-690 | one chunk event: checks, duplicate and limit, drain, completion |
| `ReceiveLoops.ReceiveLoop.HandleEvent` | transfer/manager.go:606-699 | one turn of the select loop |
| `ReceiveLoops.ReceiveLoop.Loop` | transfer/manager.go:605-700 | the loop over any stretch of events is `Run` over them; events after the end are not taken |
| `ReceiveLoops.RunIgnores` | transfer/manager.go:605-700 | a loop that is over ignores the rest |
| `Outcomes.DigestDecides` | transfer/manager.go:569-604 | a session commits only bytes with the digest of the metadata or, when that has none, of the `file_end` received, equal but for the case of letters, and for two lower-case hexadecimal digests equal; over a working disk, once everything is written and the end is known, it commits exactly then or when no digest was given, else it reports a wrong digest and keeps the destination; no part file and no sidecar remain either way |
| `Outcomes.FoldMeans` | transfer/manager.go:578 | two digests are taken as the same exactly when they are equal but for the case of letters; lower-case hexadecimal ones exactly when they are equal |
| `Outcomes.DecidedStep` | transfer/manager.go:606-699 | every event keeps what the digest has decided |
| `Outcomes.TimeoutEnds` | transfer/manager.go:691-693 | a timeout ends a running session exactly when a `file_end` has arrived, and then a chunk is missing: it fails with one `file_cancel` and leaves the disk; before `file_end` nothing happens |
| `Outcomes.StopEnds` | transfer/manager.go:608-612 | a cancellation or a closed channel ends a running session with no message and no act on the disk |
| `Outcomes.ChunkRefusals` | transfer/manager.go:628-651 | exactly which chunk ends a running session for which reason, with one `file_cancel` and no act on the disk, which one changes nothing, and which one is taken |
| `Outcomes.RenameOnce` | transfer/manager.go:588-598 | only a session that commits renames, once, right after closing the part file and, with overwrite, removing the old destination |
| `Outcomes.SidecarSynced` | transfer/manager.go:551-560 | after the answer, a sidecar replaces the old one only when the whole part file is synced, and records exactly its length |
| `Histories.RenameMoment` | transfer/manager.go:588-598 | the same of any orderly history of acts |
| `Outcomes.StartVerdict` | transfer/manager.go:412-523 | which offers are refused for their metadata, their size or the destination, before any act on the disk and with one `file_cancel`; a session that starts answers with the bytes that can be resumed, or none when resuming is not wanted |
| `Announcements.OnlyWhenDue` | transfer/manager.go:670-686 | with both flags set, a `file_ack` below the size goes out only when the durable interval has been written since the last one, a `file_progress` only after 512 KiB or when its period has passed |
| `Announcements.ToldInTime` | transfer/manager.go:551-568 | with both flags set, a running session has acknowledged every durable byte below the size, all but less than the durable interval of the written ones, and reported all but less than 512 KiB, and everything when the period of a report has passed; every session sends `file_cancel` once if it fails and never otherwise |
| `Announcements.FlagsChooseMessages` | transfer/manager.go:564-686 | the sender's flags choose the messages: reports are `file_progress` with `progressAck` and `file_ack` without; every durable mark reached is acknowledged, the size before the commit only without `commitAck` |
| `Announcements.OnEventTimed` | transfer/manager.go:606-699 | every event keeps these dues |
| `Announcements.StartTimed` | transfer/manager.go:409-523 | a session starts with nothing owed |
| `Sessions.Reassembly` | transfer/manager.go:525-690 | in every waiting state of every session: the part file and the hashed bytes are the first `expectedOffset` bytes of the source, `expectedOffset = min(expectedIndex * chunkSize, size)`, waiting chunks lie strictly between `expectedIndex` and `totalChunks`, `pendingBytes` is their total and within the reorder limit whatever arrives, and everything written means durable and nothing waiting |
| `Sessions.ContinuityHolds` | transfer/manager.go:659-662 | the continuity-mismatch branch is dead, whatever arrives |
| `Sessions.SessionSound` | transfer/manager.go:409-700 | every session, whatever arrives and fails, ends in a state that satisfies the invariant |
| `Sessions.WaitingMeans` | transfer/manager.go:605-690 | what the invariant says of a waiting receiver |
| `Sessions.StillRunning` | transfer/manager.go:605-690 | a session that still runs is waiting for events with its invariant |
| `Sessions.PendingFits` | transfer/manager.go:646-647 | the waiting bytes never exceed what is left of the file |
| `ReceiveInvariant.OnEventKeeps` | transfer/manager.go:605-699 | every event keeps the invariant, and messages are only added |
| `ReceiveInvariant.OnChunkCases` | transfer/manager.go:628-651 | which check ends the transfer, and that a chunk already written changes nothing |
| `ReceiveInvariant.ChunkOutcome` | transfer/manager.go:646-690 | an accepted chunk drains the run it completes; the transfer ends exactly when nothing is missing and the end is known, by commit, digest or disk |
| `ReceiveInvariant.DrainKeeps` | transfer/manager.go:652-687 | draining stops at the first missing chunk, keeps every later one, and fails only by the disk |
| `ReceiveInvariant.WriteNextKeeps` | transfer/manager.go:657-686 | one turn of the inner loop keeps the invariant and advances by one chunk |
| `ReceiveInvariant.AppendKeeps` | transfer/manager.go:657-669 | the next waiting chunk always continues the file; a torn write leaves a disk that is still honest |
| `ReceiveInvariant.CheckpointKeeps` | transfer/manager.go:551-568 | a checkpoint keeps the invariant and makes all written bytes durable, or ends the transfer by a disk error |
| `ReceiveInvariant.SidecarKeeps` | transfer/manager.go:847-858 | the sidecar is replaced by one that records the bytes of the part file, or the transfer ends; every act on the way is sound |
| `ReceiveInvariant.ReportKeeps` | transfer/manager.go:677-686 | a progress report keeps the invariant, sends at most one message and leaves less than one progress interval unreported |
| `ReceiveInvariant.CompleteKeeps` | transfer/manager.go:569-604 | completion commits, finds a wrong digest or hits the disk; it finds a wrong digest exactly when the wanted digest differs from the hash of the bytes written, and then keeps the destination; with a working disk no part file and no sidecar remain |
| `ReceiveInvariant.CheckKeeps` | transfer/manager.go:573-581 | the digest is checked over exactly the bytes that are promoted |
| `ReceiveInvariant.PromoteKeeps` | transfer/manager.go:588-601 | promotion keeps the destination old, absent or whole at every step |
| `ReceiveInvariant.CommitKeeps` | transfer/manager.go:599-601 | the size is acknowledged only after the rename |
| `ReceiveInvariant.RejectKeeps` | transfer/manager.go:723-729 | a wrong digest ends the transfer with one `file_cancel` and leaves the destination alone; with a working disk no part file and no sidecar remain to be resumed |
| `ReceiveInvariant.FailKeeps` | transfer/manager.go:629-632 | a failure at any point leaves a sound record of the session, including its `file_cancel` |
| `ReceiveInvariant.HoldKeeps` | transfer/manager.go:646-647 | a waiting chunk is counted once |
| `ReceiveInvariant.AllWritten` | transfer/manager.go:570-571 | reaching the size forces nothing to wait |
| `Sessions.CrashSafeResume` | transfer/manager.go:467-516 | after any number of sessions for the same or different files, each stopped between any two disk acts or in a write, a positive offset `matchingPartial` returns is chunk-aligned, at most the size, and the part file is exactly that prefix of the source; only metadata in use that `matchingPartial` takes for the same file has to denote the same bytes |
| `Sessions.DigestsResumeApart` | transfer/manager.go:838 | files told apart only by their digests are resumed apart: after any stopped sessions for the others, an offer with another digest starts at 0, whatever bytes they denote |
| `Outcomes.ResumeCondition` | transfer/manager.go:832-845 | an offset is positive exactly when the sidecar is for a file of the same name, size, date and chunk size whose digest, if both have one, is the same but for case, and the part file has the recorded length, a chunk boundary inside the file; then it is that length |
| `Outcomes.OthersResumeApart` | transfer/manager.go:838 | after any stopped sessions for files that differ in name, size, date, chunk size or digest, an offer starts at 0, whatever bytes they denote |
| `Sessions.ApartIsConsistent` | transfer/manager.go:838 | files apart by their digests meet the hypothesis of `CrashSafeResume` whatever bytes they denote |
| `Sessions.ResumeExact` | transfer/manager.go:838 | where `matchingPartial` takes the kept file for the offered one, the part file it resumes is the right prefix for all files whose digests stand for their bytes, if and only if the metadata is the very same or both sides carry a digest |
| `Sessions.Mixup` | transfer/manager.go:838 | for any two such metadata of which one has no digest there are files that differ in their first byte and are resumed one as the other |
| `Sessions.DigestsAreConsistent` | transfer/manager.go:173-183 | metadata that all carry a digest, as every offer of `SendFile` does, meet the hypothesis of `CrashSafeResume` whenever digests stand for bytes |
| `Sessions.DigestlessMixup` | transfer/manager.go:838 | a sidecar without a digest matches every digest: an offer is resumed on the part file of another file |
| `Sessions.LeavesUsed` | transfer/manager.go:847-858 | the sidecar any sessions leave is for a file that one of them offered, or the one found at first |
| `Sessions.StopKeepsProgress` | transfer/manager.go:841-844 | on every disk a stop can leave, in the middle of a drain, a checkpoint, a commit or a write, the resume offset is what the last checkpoint recorded, if that is a chunk boundary and nothing was written, truncated, renamed or removed since, and otherwise 0 |
| `Sessions.LeftAfter` | transfer/manager.go:841-844 | the acts of a session decide the resume offset: only replacing the sidecar raises it, to the length of the part file |
| `Sessions.GrownPartRestarts` | transfer/manager.go:841-844 | a session that has written one chunk of two, stopped before its first checkpoint, starts again at 0 |
| `Sessions.CrashKeepsProgress` | transfer/manager.go:841-844 | for the states between two events: what a stop leaves is offered for resume exactly when the bytes written are the bytes last checkpointed and end on a chunk boundary; otherwise the offset is 0 |
| `Sessions.ResumeIsPrefix` | transfer/manager.go:832-845 | on an honest disk whose sidecar, if it matches, denotes the offered bytes, a positive offset names a chunk boundary and a part file that is that prefix |
| `Sessions.Aligned` | transfer/manager.go:841-844 | every offset returned is between 0 and the size and on a chunk boundary |
| `Sessions.CrashIsSafe` | transfer/manager.go:467-604 | wherever the process stops, the disk is honest and the destination safe |
| `Sessions.TornWrite` | transfer/manager.go:663 | a write cut short leaves an honest disk and the destination untouched |
| `Sessions.OpenKeeps` | transfer/manager.go:488-516 | opening the part file, truncated unless resuming, and recording the offset keep the disk honest |
| `Sessions.BeginKeeps` | transfer/manager.go:526-544 | re-reading the resumed bytes starts the loop with its invariant |
| `Sessions.StartKeeps` | transfer/manager.go:409-523 | `startReceive` on an honest disk establishes the invariant at the offered offset with one answer, or ends with a reason; in the honest case a matching sidecar denotes the offered bytes |
| `Sessions.StartsExactly` | transfer/manager.go:409-517 | with a working disk a session starts exactly when the metadata is valid, the size is within the limit, and the destination is free or may be overwritten |
| `Sessions.UnreadableKeeps` | transfer/manager.go:517-544 | when the resumed bytes cannot be read, the answer and the cancellation both go out, in either order, and the session is over with a sound record |
| `Sessions.RunKeeps` | transfer/manager.go:605-700 | every run of events keeps the invariant |
| `Sessions.LeavesHonest` | transfer/manager.go:467-604 | any number of stopped sessions leaves an honest disk, under consistency of the metadata in use |
| `Sessions.AckMeaning` | transfer/manager.go:551-568 | with both flags set, `file_ack(n)` below the size is sent with exactly n bytes in the part file, all synced, and a sidecar that says n; `file_ack(size)` with the part file gone and the whole checked file at the destination; acknowledgements strictly increase |
| `Sessions.ProgressMeaning` | transfer/manager.go:678-685 | with both flags set, `file_progress` never reaches the size, and strictly increases |
| `Sessions.VerifiedDestination` | transfer/manager.go:569-604 | whatever arrives and wherever the process stops, the destination is its old content, absent (only with overwrite), or the bytes hashed by a session that commits; without overwrite an old content stays; a commit has the offered length and the digest of the metadata, else of a `file_end` received |
| `Sessions.SessionOrderly` | transfer/manager.go:409-700 | in every session: one rename at the end, sidecars only for its own file, the end known is one received, and a running receiver is within its reorder limit |
| `Histories.OrderlyMoment` | transfer/manager.go:588-601 | at every moment of a session the sidecar is its own or the one found, and the destination is the old one, absent while overwritten, or the committed one |
| `Histories.OnEventOrderly` | transfer/manager.go:606-699 | every event keeps the order of disk acts and the reorder limit, whatever arrives |
| `Histories.DrainOrderly` | transfer/manager.go:652-687 | draining never renames, never commits and only shrinks the waiting bytes |
| `Histories.StartOrderly` | transfer/manager.go:455-460 | without overwrite an existing destination ends the session before any disk act |
| `Ordering.OrderIndependence` | transfer/manager.go:605-690 | over a working disk the arrivals decide: the transfer fails exactly when an arrival repeats a waiting chunk or overfills the buffer; among the sequences admitted so the outcome depends only on which chunks arrived and whether the end did: commit when all did, else waiting at the first gap |
| `Ordering.AnyOrderCommits` | transfer/manager.go:605-690 | every chunk from the start index once, in any order, with `file_end` anywhere, is committed with the bytes of the source whenever the reorder limit is at least the file size |
| `Ordering.RoomyAdmits` | transfer/manager.go:642-651 | a reorder limit of the file size admits every arrival without repetition |
| `Ordering.ChunkResult` | transfer/manager.go:628-690 | a chunk event turns the outcome for the arrivals so far into that for the enlarged set |
| `Ordering.EndResult` | transfer/manager.go:613-623 | an end message turns the outcome for the arrivals so far into that with the end known |
| `Ordering.TestsAgree` | transfer/manager.go:639-651 | the duplicate and limit tests of the loop are tests on the set of arrivals |
| `Ordering.NewChunk` | transfer/manager.go:646-690 | an accepted chunk commits the file exactly when it closes the last gap and the end is known |
| `Ordering.EndOutcome` | transfer/manager.go:613-623 | an end message with a right digest commits the file exactly when everything is written and is otherwise only noted |
| `Ordering.CatchUp` | transfer/manager.go:652-657 | draining moves the receiver to the first gap of the enlarged set |
| `Chunking.TotalChunksExact` | protocol/protocol.go:111-116 | for positive sizes within int64, the count covers the file if and only if `size + chunkSize - 1` does not wrap; otherwise it is not positive |
| `Chunking.ChunkBounds` | transfer/manager.go:633-637 | chunk i lies inside the file and ends where chunk i + 1 starts; only the last reaches the end |
| `Chunking.OffOrder` | transfer/manager.go:633-634 | chunk starts are ordered and within the file |
| `Chunking.OffEnds` | protocol/protocol.go:111-116 | the start after the last chunk is the size |
| `Chunking.AlignedOffset` | transfer/manager.go:526-527 | an aligned offset names one index, and is where that chunk starts |
| `Chunking.HeldBound` | transfer/manager.go:646-648 | chunks with indices in a range hold no more bytes than the file has there |
| `Packets.PacketRoundTrip` | protocol/protocol.go:57-94 | every packet that can be encoded decodes to its header and payload |
| `Packets.PacketRigid` | protocol/protocol.go:77-94 | no strict prefix and no strict extension of an encoded packet decodes |
| `Packets.DecodeFrame` | protocol/protocol.go:77-94 | a frame decodes exactly when its header is valid and its length field matches the bytes that follow |
| `Packets.DecodeSound` | protocol/protocol.go:77-94 | what decodes has version 1 and type 1, a big-endian header length from 1 to 65536 that fits the packet, a complete header with an id and no negative number, and exactly the announced number of bytes after it |
| `Packets.HeaderText` | protocol/protocol.go:61 | the exact text of a printed header with an alphanumeric id |
| `Packets.AssignMeans` | protocol/protocol.go:85-88 | a header is filled exactly when each known key has a value of its kind; the last member of a key counts, unknown keys change nothing |
| `Packets.SpacesIgnored` | protocol/protocol.go:85-88 | white space before an object and its members does not matter |
| `Packets.HeaderRoundTrip` | protocol/protocol.go:36-41 | a printed header parses to the same header |
| `Packets.MembersRoundTrip` | protocol/protocol.go:61 | a printed list of members parses to the same list, in order, whatever follows |
| `Packets.BigEndianRoundTrip` | protocol/protocol.go:71 | four big-endian bytes read back as the number |
| `Packets.EncodeChunk` | protocol/protocol.go:57-75 | the packet filled in place is the specified one, or none exactly when the header is invalid |
| `Packets.Fill` | protocol/protocol.go:68-74 | the array holds version, type, length, header and payload |
| `Packets.PutUint32` | protocol/protocol.go:71 | four bytes change to the big-endian number and no others |
| `Packets.Copy` | protocol/protocol.go:72-73 | a copy overwrites its range only |
| `Packets.PacketFits` | transfer/manager.go:111-115 | with a negotiated maximum above 4096 every chunk's packet fits it, a full chunk's only then; every packet is at most the high-water mark |
| `Packets.PacketLength` | protocol/protocol.go:57-75 | a packet with a generated id is at most 141 bytes longer than its payload |
| `Packets.HeaderLength` | protocol/protocol.go:61-67 | a generated id and three int64 numbers print in at most 135 bytes |
| `Json.StringRoundTrip` | protocol/protocol.go:61 | a printed string reads back as itself, whatever follows (section 7 of RFC 8259) |
| `Json.CharRoundTrip` | protocol/protocol.go:61 | each printed character reads back, escaped or not |
| `Json.Utf8RoundTrip` | protocol/protocol.go:61 | each scalar value survives its UTF-8 form |
| `Json.IntRoundTrip` | protocol/protocol.go:61 | a printed number reads back before any byte that does not continue it (section 6 of RFC 8259) |
| `Json.DecimalShift` | protocol/protocol.go:61 | decimal digits come with the most significant first |
| `Json.KnownTexts` | protocol/protocol.go:61 | known UTF-8 sequences of every width and known escapes of every kind |
| `Json.HtmlSafe` | protocol/protocol.go:61 | no control character, angle bracket, ampersand or line separator is printed as itself; every other character but quotation mark and backslash is |
| `Json.KnownReads` | protocol/protocol.go:85-88 | how escapes, surrogates, bad UTF-8 and bad numbers read that are never printed |
| `Json.DecimalLength` | protocol/protocol.go:61 | a number below a power of ten prints in that many digits |
| `Carriage.ChunkTravels` | transfer/manager.go:237-257 | every chunk of an admissible file of the chosen chunk size is encoded, decodes to exactly its header and bytes, and fits the transport |
| `Striping.AttemptsAreStableSort` | webrtc/parallel_channel.go:105-119 | repeatedly picking and removing the least-buffered candidate is a stable sort by buffered amount |
| `Striping.StableSortUnique` | webrtc/parallel_channel.go:105-119 | there is only one such order |
| `Striping.TryOrderIsStable` | webrtc/parallel_channel.go:97-119 | `Send` tries every candidate once, least buffered first, ties in rotated order |
| `Striping.OnePacket` | webrtc/parallel_channel.go:112-120 | a packet goes to the first candidate in that order that takes it and is queued there once; on error no channel got it, and there is an error exactly when all refuse |
| `Striping.PacketServed` | webrtc/parallel_channel.go:105-120 | the packet is on the least-buffered of the channels that take it, the first of those in rotated order, once; every other channel is as before; there is an error exactly when all refuse |
| `Striping.TakerFollowsAttempts` | webrtc/parallel_channel.go:105-119 | the removal loop follows the sorted order |
| `Striping.TakerIsFirst` | webrtc/parallel_channel.go:105-119 | the removal loop ends at the first channel of the sorted order that takes the packet, or with none exactly when all refuse |
| `Striping.TakerLeast` | webrtc/parallel_channel.go:105-119 | the channel that takes the packet has the least buffered of those that take it |
| `Striping.TryInOrder` | webrtc/parallel_channel.go:105-120 | the loop over the shrinking list ends and has the specified effect |
| `Striping.FindLeast` | webrtc/parallel_channel.go:106-111 | the inner loop finds the first of the least-buffered candidates |
| `Striping.TryOne` | webrtc/parallel_channel.go:112-117 | one attempt changes the tried channel or nothing |
| `Striping.DataChannel.Send` | webrtc/parallel_channel.go:113 | a channel queues the packet or refuses it unchanged |
| `ParallelChannels.ParallelChannel.Send` | webrtc/parallel_channel.go:94-121 | the channels tried are exactly the open ones of the lane table and the primary, each once, round from the cursor; the packet goes to the least-buffered one that takes it, ties broken from the cursor, and there is an error exactly when all refuse; the cursor advances modulo 2^64, every other channel and the lanes are untouched |
| `ParallelChannels.ParallelChannel.SendStriped` | webrtc/parallel_channel.go:97-120 | the same, without the cursor |
| `ParallelChannels.ParallelChannel.CandidatesCarry` | webrtc/parallel_channel.go:570-583 | the candidates are exactly the primary, if open, and the open channels of lanes that have opened |
| `Striping.TurnedAt` | webrtc/parallel_channel.go:101-102 | turning keeps every candidate: position k holds the one k places after the cursor, round the end |
| `Striping.SendOver` | webrtc/parallel_channel.go:97-120 | over any open channels, all of them are tried round from the cursor; one packet has the effect `PacketServed` states on them, and none on the others |
| `Striping.TurnedCandidates` | webrtc/parallel_channel.go:97-102 | the candidates are all there, turned so that the one at the cursor comes first |
| `ParallelChannels.ParallelChannel.StripesOfTable` | webrtc/parallel_channel.go:570-583 | the lanes the striping uses are open and attached in the lane table, and there are at most as many candidates as the local limit |
| `Striping.BinaryCandidates` | webrtc/parallel_channel.go:570-583 | the candidates are collected in the order of the walk |
| `Striping.CandidatesAreOpen` | webrtc/parallel_channel.go:570-583 | the candidates are exactly the open channels, each once, whatever the order in which the map is walked |
| `Striping.BufferedOver` | webrtc/parallel_channel.go:145-157 | the reported amount is the least of the open channels, or the primary's when none is open |
| `ParallelChannels.ParallelChannel.BufferedAmount` | webrtc/parallel_channel.go:145-157 | the least amount buffered on an open channel of the lane table, or the primary's when none is open |
| `Backpressure.LanesStayBelowHighWater` | transfer/manager.go:775-818 | in every run in which channels only drain between the check and `Send` and the first choice takes the packet, binary traffic takes no lane above 2 MiB, and the primary exceeds it by no more than the text still queued on it |
| `Backpressure.SendStaysLow` | transfer/manager.go:799-818 | a send takes no channel above the mark if and only if some channel that takes the packet has room, or none takes it |
| `Backpressure.FirstChoiceSuffices` | webrtc/parallel_channel.go:145-157 | the amount `BufferedAmount` reports is that of the channel `Send` tries first, so a first choice that takes the packet has room |
| `Backpressure.PassesMeansFits` | transfer/manager.go:804 | whatever the order of the walk, `BufferedAmount` lets a packet pass exactly when some open channel has room for it, or the primary when none is open |
| `Backpressure.RefusalOverfills` | transfer/manager.go:779-781 | when the first choice refuses, a send that was let pass can take another lane above the mark |
| `Backpressure.DrainKeepsFit` | transfer/manager.go:804-816 | draining keeps the room that was seen |
| `Backpressure.TargetLeast` | webrtc/parallel_channel.go:105-119 | the packet goes to the least-buffered of the channels that take it |
| `LaneOwnership.OneOwner` | webrtc/parallel_channel.go:214-253 | over all interleavings, each connection ever created is in flight to `installLane`, in the table at exactly one index, being closed, or closed; indices stay within the local limit of at most eight; an open lane has its channel; a closed channel has no lanes |
| `LaneOwnership.NeverReturns` | webrtc/parallel_channel.go:532-555 | a connection given up never returns to the table, and a closed channel never gets a lane again |
| `LaneOwnership.NothingLeaks` | webrtc/parallel_channel.go:214-241 | after shutdown, with no creator or remover still at work, every connection ever created has been closed |
| `LaneOwnership.ShutdownIsFinal` | webrtc/parallel_channel.go:214-240 | over all interleavings, a channel is closed exactly when it was shut down; then it has no lanes, and every connection offered to `installLane` after that ends up closing or closed and out of the table |
| `LaneOwnership.OpensExactly` | webrtc/parallel_channel.go:513-519 | over all interleavings, a lane of the table is open exactly when its open callback has run, and then has its channel |
| `LaneOwnership.LaneComesUp` | webrtc/parallel_channel.go:492-530 | a connection in flight to a free index of an open channel can be installed, attached and opened |
| `LaneOwnership.ShrinkLeavesLane` | webrtc/parallel_channel.go:346-353 | a later capability can lower the count below a lane that stays, so the bound on indices is the local limit |
| `LaneOwnership.HandlersAreRuns` | webrtc/parallel_channel.go:341-468 | what the negotiation loop does with any control message is a run of those steps |
| `LaneOwnership.StepKeeps` | webrtc/parallel_channel.go:492-555 | each section under the lock keeps the ownership invariant |
| `LaneOwnership.AttachedStep` | webrtc/parallel_channel.go:492-519 | each section keeps open lanes attached and open callbacks with their lane |
| `LaneOwnership.OwnedStep` | webrtc/parallel_channel.go:522-555 | each section hands a connection from one owner to exactly one other |
| `Lanes.ClampParallelConnections` | webrtc/parallel_channel.go:634-639 | the local limit is between one and eight: a request in range is honoured, a larger one cut to eight, a non-positive one becomes four |
| `Negotiation.CandidatesInOrder` | webrtc/parallel_channel.go:452-468 | in every run the connection of a lane has taken the candidates heard for it in order and once each, minus those beyond the sixty-fourth before the remote description and those it refuses; the rest is queued, at most sixty-four |
| `Negotiation.HandleKeeps` | webrtc/parallel_channel.go:341-373 | every control message keeps that account |
| `Negotiation.FlushStep` | webrtc/parallel_channel.go:557-568 | setting the description moves the queue into the connection, before any later candidate |
| `Negotiation.EarlyStep` | webrtc/parallel_channel.go:456-465 | before the description a candidate is queued while there is room |
| `Negotiation.LateStep` | webrtc/parallel_channel.go:466-467 | after it a candidate is applied at once |
| `Negotiation.OffersKeep` | webrtc/parallel_channel.go:354-360 | a failed offer clears its index and no other |
| `Negotiation.CapabilityKeepsLane` | webrtc/parallel_channel.go:354-381 | a capability message leaves an installed lane as it is, except exactly when the initiator offers the index again and no connection can be made |
| `Negotiation.CapabilityMakesLane` | webrtc/parallel_channel.go:346-404 | on an open channel, a capability message in range gives the initiator a lane with its channel at every free index below the count whose offer succeeds, and no lane and no queue where it fails; the other side only takes the count; out of range it is ignored |
| `Negotiation.OfferMakesLane` | webrtc/parallel_channel.go:406-434 | exactly which offer makes which lane, and that it leaves the others |
| `Negotiation.DescribedExactly` | webrtc/parallel_channel.go:406-450 | a lane has its remote description exactly when it had it before or the message is an acceptable answer for a lane the initiator has, or an acceptable offer for a free index; then its queue is empty and in the connection, all of it when nothing is refused |
| `Negotiation.CandidateArrives` | webrtc/parallel_channel.go:452-468 | which candidates are ignored, applied at once, refused, queued or dropped |
| `Negotiation.LanesEnd` | webrtc/parallel_channel.go:532-541 | a removed lane leaves with its queue and no other; a shutdown closes the channel and leaves no lane |
| `Negotiation.RepeatedCapabilityRemovesLane` | webrtc/parallel_channel.go:354-360 | two equal capability messages in a row, the second while no connection can be made: the attached lane is gone |
| `Negotiation.Accepted` | webrtc/parallel_channel.go:562-566 | flushing applies the queue up to, and without, the first candidate the connection refuses |
| `ParallelChannels.ParallelChannel.constructor` | webrtc/parallel_channel.go:70-88 | a new channel has no lanes and one negotiated connection |
| `ParallelChannels.ParallelChannel.InstallLane` | webrtc/parallel_channel.go:522-530 | a lane enters the table exactly when the channel is not closed and the index is free |
| `ParallelChannels.ParallelChannel.RemoveLane` | webrtc/parallel_channel.go:532-541 | the lane and its queue leave the table and its connection is closed |
| `ParallelChannels.ParallelChannel.RemoveLaneIfCurrent` | webrtc/parallel_channel.go:543-555 | only the lane still in the table is removed and closed |
| `ParallelChannels.ParallelChannel.AttachLaneChannel` | webrtc/parallel_channel.go:492-503 | a channel is attached to the current lane, and closed otherwise |
| `ParallelChannels.ParallelChannel.OnOpen` | webrtc/parallel_channel.go:513-519 | only the current lane is marked open, and it is |
| `ParallelChannels.ParallelChannel.Shutdown` | webrtc/parallel_channel.go:214-240 | the channel is closed, the table is emptied once and every connection it held is closed |
| `ParallelChannels.ParallelChannel.FlushLaneCandidates` | webrtc/parallel_channel.go:557-568 | the queue is taken and applied to the connection up to the first refusal, also when its lane has just left the table |
| `ParallelChannels.ParallelChannel.AcceptCandidate` | webrtc/parallel_channel.go:452-468 | a candidate is ignored, queued, dropped or applied as specified |
| `ParallelChannels.ParallelChannel.QueueCandidate` | webrtc/parallel_channel.go:459-462 | the candidate joins the queue of its index while there is room |
| `ParallelChannels.ParallelChannel.ApplyCandidate` | webrtc/parallel_channel.go:467 | the candidate is applied unless the connection refuses it |
| `ParallelChannels.ParallelChannel.AcceptAnswer` | webrtc/parallel_channel.go:436-450 | an answer that applies to a lane of the table leaves it described, without queue, its connection with all that was queued up to a refusal; any other changes nothing |
| `ParallelChannels.ParallelChannel.DescribeAndFlush` | webrtc/parallel_channel.go:446-449 | the description is set and the queue goes into the connection, or nothing happens |
| `ParallelChannels.ParallelChannel.InformedBy` | webrtc/parallel_channel.go:557-568 | after that the lane is described, its queue is gone, and its connection has taken all of it when nothing is refused |
| `ParallelChannels.ParallelChannel.MakeLane` | webrtc/parallel_channel.go:379-387 | a connection that does not enter the table is closed |
| `ParallelChannels.ParallelChannel.CreateOffer` | webrtc/parallel_channel.go:375-404 | the specified table and error, and a connection that is in the table or closed |
| `ParallelChannels.ParallelChannel.AcceptOffer` | webrtc/parallel_channel.go:406-434 | an offer for a free valid index of an open channel installs a new lane, described and with its queue applied when the description is set; the specified table in every case |
| `ParallelChannels.ParallelChannel.CreateOffers` | webrtc/parallel_channel.go:354-360 | the loop over the indices refines the recursive specification |
| `ParallelChannels.ParallelChannel.HandleCapability` | webrtc/parallel_channel.go:346-360 | the count is negotiated and the offers made |
| `ParallelChannels.ParallelChannel.Process` | webrtc/parallel_channel.go:341-373 | one control message, failure callback or shutdown has the effect of `Handle` |
| `ParallelChannels.AddAll` | webrtc/parallel_channel.go:562-567 | candidates are applied one by one until one is refused |
| `ParallelChannels.CloseAll` | webrtc/parallel_channel.go:226-228 | every removed lane's connection is closed |

## Left out

- Files, clocks, randomness and the network: system calls, timers, transfer ids and lanes are parameters or free
  steps; the hash is an unknown function.
- File names, directories, symbolic links, permissions and free-space queries of `startReceive`: the model starts
  after them, with one part file, sidecar and destination per session.
- The user's acceptance callback, the check for a duplicate or competing transfer, and emitted events.
- Loss of directory entries or of unsynced bytes after a power failure: a stop keeps what the calls had done.
- Bandwidth pacing: it only delays the sender.
- The length of timeouts: a timeout is a step that can happen at any time, so termination is proved for runs
  without one.
- The capacity of the receiver's event queue: its delay is part of the lanes.
- The terminal event of a transfer cancelled while its queue is full: two goroutines can report it
  (transfer/manager.go:393-397), and the code promises no order.
- A control message that cannot be sent: the sender of a control message ignores the error or gives up, which is
  an abort step here.
- A file that shrinks or grows while it is sent: `Sending.ReadFull` models the short read, the tiling theorems are
  about an unchanged file.
- The left-over `.new` file of a failed sidecar write: it is never read.
- General JSON: nested values, other literals, fractions and exponents, keys that differ only in case, and ids
  that are not valid UTF-8 (the encoder replaces their bytes). Header numbers outside int64 do not parse here.
- The text codec of control messages: they are values of a datatype.
- Text, priority and browser compatibility messages, `Close` of single channels, and threshold callbacks.
- Session descriptions, ICE and the primary connection's setup: a description is acceptable or not, a connection
  takes a candidate or refuses it.
- Establishment of lanes: an offer that is handled before the capability message is dropped
  (webrtc/parallel_channel.go:407), so the code does not promise any lane.
- Backpressure.LanesStayBelowHighWater: one sender; between the check and the send, channels only drain and the
  first choice takes the packet. `Backpressure.SendStaysLow` gives the exact condition for a single send.
- Ordering.AnyOrderCommits: asks for a reorder limit of the whole file; the exact condition on the arrivals is in
  `Ordering.OrderIndependence`, and the limit that suffices with a conforming sender in `Runs.WindowBound`.
- ParallelChannels.ParallelChannel.Send: the states of the channels change only by the send itself during the call.
- Sending.FileSender.StreamChunks: covers the stretch between two waits; the waits are steps of `Transfers`.
- Sessions.CrashSafeResume: two files in use that `matchingPartial` takes for the same one denote the same bytes.
  Digests on both sides are enough (`Sessions.DigestsAreConsistent`), and without them it can fail (`Sessions.Mixup`).
- Sessions.UnreadableKeeps: in a session that starts, the answer is put before the messages of the loop, although the
  loop runs beside it.
- ReceiveLoops.ReceiveLoop.Loop: takes its events from a finite sequence instead of blocking on a channel; the
  other exits of the select are events of that sequence.
