/** The receive loop of transfer/manager.go as a function of its state. */
module Receiving {
  import opened Wrappers
  import opened Chunking
  import opened Disks

  const PROGRESS_ACK_INTERVAL := 512 * 1024

  // hash is the hexadecimal SHA-256 of a byte sequence; nothing is assumed about it.
  datatype Config = Config(
    id: string, file: FileMetadata, overwrite: bool,
    durableAckInterval: int, maxReorderBufferBytes: int,
    hash: seq<byte> -> string)

  // What the session cannot foresee: whether the next system call succeeds, how much of a failing
  // write reaches the file, whether 100 ms have passed since the last progress message, and whether the
  // answer to the sender overtakes a loop that cannot read the part file.
  datatype Env = Env(ok: Trace -> bool, torn: Trace -> nat, due: Trace -> bool, overtakes: Trace -> bool)

  datatype Piece = Piece(offset: int, data: seq<byte>)

  datatype Event =
    | Chunk(id: string, index: int, offset: int, length: int, data: seq<byte>)
    | End(sha256: string)
    | Cancelled
    | Deadline
    | Closed

  datatype Reason =
    | InvalidMetadata | TooLarge | DestinationExists
    | BadIndexOrLength | BadOffsetOrLength | DuplicatePending | BufferExceeded
    | BrokenContinuity | DigestMismatch | MissingChunks | DiskError

  datatype Status = Running | Committed | Failed(reason: Reason) | Stopped

  datatype Receiver = Receiver(
    status: Status,
    expectedIndex: int, expectedOffset: int, filePos: int,
    lastDurable: int, lastProgressAck: int,
    pending: map<int, Piece>, pendingBytes: int,
    end: Option<string>, endTimer: bool,
    hashed: seq<byte>,
    out: seq<Message>,
    trace: Trace)

  function Do(s: Receiver, a: Act): (r: Receiver) { s.(trace := Then(s.trace, a)) }

  // A system call whose failure changes nothing.
  function Try(env: Env, s: Receiver, a: Act): Receiver {
    Do(s, if env.ok(s.trace) then a else Fruitless)
  }

  function Say(s: Receiver, m: Message): Receiver {
    s.(trace := Then(s.trace, Send(m)), out := s.out + [m])
  }

  function Fail(s: Receiver, reason: Reason): Receiver {
    Say(s, FileCancel).(status := Failed(reason))
  }

  // strings.EqualFold against a hexadecimal digest only folds ASCII letters.
  function Lower(ch: char): char { if 'A' <= ch <= 'Z' then ch - 'A' + 'a' else ch }

  predicate EqualFold(a: string, b: string) {
    |a| == |b| && forall i | 0 <= i < |a| :: Lower(a[i]) == Lower(b[i])
  }

  predicate SameFile(kept: FileMetadata, offered: FileMetadata) {
    && kept.name == offered.name && kept.size == offered.size
    && kept.lastModified == offered.lastModified && kept.chunkSize == offered.chunkSize
    && (kept.sha256 == "" || offered.sha256 == "" || EqualFold(kept.sha256, offered.sha256))
  }

  function MatchingPartial(d: Disk, offered: FileMetadata): int
    requires offered.chunkSize > 0
  {
    if d.sidecar.None? || !SameFile(d.sidecar.value.file, offered) then 0 else
    var received := d.sidecar.value.receivedBytes;
    if d.part.None? || |d.part.value| != received || received < 0 || received > offered.size
      || received % offered.chunkSize != 0
    then 0
    else received
  }

  function WritePartialMetadata(env: Env, s: Receiver, sidecar: Sidecar): Receiver {
    if !env.ok(s.trace) then Fail(Do(s, Fruitless), DiskError) else
    var s1 := Do(s, WriteRenewed(sidecar));
    if !env.ok(s1.trace) then Fail(Do(s1, Fruitless), DiskError) else Do(s1, ReplaceSidecar)
  }

  const IDLE := Receiver(Running, 0, 0, 0, 0, 0, map[], 0, None, false, [], [], Begin(Disk(None, [], None, None, None)))

  // startReceive: choose the resume offset, open the part file and record the session in the sidecar.
  function StartReceive(c: Config, env: Env, maxFileSize: int, found: Disk): Receiver {
    var s := IDLE.(trace := Begin(found));
    if !ValidMetadata(c.file) then Fail(s, InvalidMetadata)
    else if maxFileSize > 0 && c.file.size > maxFileSize then Fail(s, TooLarge)
    else if !c.overwrite && found.dest.Some? then Fail(s, DestinationExists)
    else
      var offset := if c.file.resume then MatchingPartial(found, c.file) else 0;
      var s1 := OpenPartial(c, env, s, offset);
      if !s1.status.Running? then s1 else BeginLoop(c, env, s1, offset)
  }

  function OpenPartial(c: Config, env: Env, s: Receiver, offset: int): Receiver {
    if !env.ok(s.trace) then Fail(Do(s, Fruitless), DiskError)
    else WritePartialMetadata(env, Do(s, OpenPart(offset == 0)), Sidecar(c.file, offset))
  }

  // receiveLoop up to its select loop: hash the bytes already there. The sender gets its answer meanwhile.
  function BeginLoop(c: Config, env: Env, s: Receiver, offset: int): Receiver
    requires c.file.chunkSize > 0
  {
    var answer := if offset > 0 then ResumeState(offset) else Accept;
    if offset > 0 && !env.ok(s.trace) then Unreadable(env, Do(s, Fruitless), answer) else
    var part := Now(s.trace).part;
    if part.None? || |part.value| < offset || offset < 0 then Unreadable(env, s, answer) else
    Say(s.(expectedIndex := offset / c.file.chunkSize, expectedOffset := offset, filePos := offset,
           lastDurable := offset, lastProgressAck := offset, hashed := part.value[..offset]), answer)
  }

  // The answer and the cancellation go out side by side, in either order.
  function Unreadable(env: Env, s: Receiver, answer: Message): Receiver {
    if env.overtakes(s.trace) then Fail(Say(s, answer), DiskError) else Say(Fail(s, DiskError), answer)
  }

  function Checkpoint(c: Config, env: Env, s: Receiver): Receiver {
    if !env.ok(s.trace) then Fail(Do(s, Fruitless), DiskError) else
    var s1 := Do(s, SyncPart).(lastDurable := s.expectedOffset);
    var s2 := WritePartialMetadata(env, s1, Sidecar(c.file, s1.lastDurable));
    if s2.status.Running? && (s.expectedOffset < c.file.size || !c.file.commitAck)
    then Say(s2, FileAck(s2.lastDurable)) else s2
  }

  function Wanted(c: Config, end: string): string {
    if c.file.sha256 != "" then c.file.sha256 else end
  }

  function Complete(c: Config, env: Env, s: Receiver): Receiver {
    if s.end.None? || s.expectedOffset != c.file.size || |s.pending| != 0 then s else
    var want := Wanted(c, s.end.value);
    if want != "" && !EqualFold(want, c.hash(s.hashed)) then
      var s1 := Fail(s, DigestMismatch);
      Try(env, Try(env, s1, RemovePart), RemoveSidecar)
    else
      var s1 := Do(s, CheckDigest(want));
      var s2 := if s1.lastDurable != s1.expectedOffset then Checkpoint(c, env, s1) else s1;
      if !s2.status.Running? then s2 else Promote(c, env, s2)
  }

  // Close, replace the destination, drop the sidecar, acknowledge the whole file.
  function Promote(c: Config, env: Env, s: Receiver): Receiver {
    if !env.ok(s.trace) then Fail(Do(s, Fruitless), DiskError) else
    var s1 := Do(s, ClosePart);
    var s2 := if c.overwrite then Try(env, s1, RemoveDest) else s1;
    if !env.ok(s2.trace) then Fail(Do(s2, Fruitless), DiskError) else
    var s3 := Try(env, Do(s2, RenamePart), RemoveSidecar);
    Say(s3, FileAck(c.file.size)).(status := Committed)
  }

  // The chunk at expectedIndex leaves the reorder map and is appended to the part file.
  function Append(env: Env, s: Receiver): Receiver
    requires s.expectedIndex in s.pending
  {
    var piece := s.pending[s.expectedIndex];
    var s1 := s.(pending := s.pending - {s.expectedIndex}, pendingBytes := s.pendingBytes - |piece.data|);
    if piece.offset != s.expectedOffset then Fail(s1, BrokenContinuity)
    else if !env.ok(s1.trace) then
      var n := Min(env.torn(s1.trace), |piece.data|);
      Fail(Do(s1, WritePart(s1.filePos, piece.data[..n])), DiskError)
    else
      Do(s1, WritePart(s1.filePos, piece.data)).(
        filePos := s.filePos + |piece.data|, hashed := s.hashed + piece.data,
        expectedOffset := s.expectedOffset + |piece.data|, expectedIndex := s.expectedIndex + 1)
  }

  function Report(c: Config, env: Env, s: Receiver): Receiver {
    if s.expectedOffset < c.file.size &&
       (s.expectedOffset - s.lastProgressAck >= PROGRESS_ACK_INTERVAL || env.due(s.trace))
    then Say(s.(lastProgressAck := s.expectedOffset),
             if c.file.progressAck then FileProgress(s.expectedOffset) else FileAck(s.expectedOffset))
    else s
  }

  // One round of the drain loop.
  function WriteNext(c: Config, env: Env, s: Receiver): Receiver
    requires s.expectedIndex in s.pending
  {
    var s1 := Append(env, s);
    if !s1.status.Running? then s1 else
    var s2 := if s1.expectedOffset - s1.lastDurable >= c.durableAckInterval || s1.expectedOffset == c.file.size
              then Checkpoint(c, env, s1) else s1;
    if !s2.status.Running? then s2 else Report(c, env, s2)
  }

  function Drain(c: Config, env: Env, s: Receiver): Receiver
    decreases |s.pending|
  {
    if s.status.Running? && s.expectedIndex in s.pending then
      assert s.pending == (s.pending - {s.expectedIndex})[s.expectedIndex := s.pending[s.expectedIndex]];
      Drain(c, env, WriteNext(c, env, s))
    else s
  }

  function OnChunk(c: Config, env: Env, s: Receiver, e: Event): Receiver
    requires e.Chunk?
  {
    var m := c.file;
    if e.id != c.id || e.index < 0 || e.index >= m.totalChunks || e.length != |e.data| then
      Fail(s, BadIndexOrLength)
    else
      var at := e.index * m.chunkSize;
      var len := Min(m.chunkSize, m.size - at);
      if e.offset != at || e.length != len || at < 0 || at + len > m.size then Fail(s, BadOffsetOrLength)
      else if e.index < s.expectedIndex then s
      else if e.index in s.pending then Fail(s, DuplicatePending)
      else
        var s1 := s.(pending := s.pending[e.index := Piece(e.offset, e.data)],
                     pendingBytes := s.pendingBytes + |e.data|);
        if s1.pendingBytes > c.maxReorderBufferBytes then Fail(s1, BufferExceeded) else
        var s2 := Drain(c, env, s1);
        if s2.status.Running? then Complete(c, env, s2) else s2
  }

  // One round of the select loop; a transfer that has ended ignores what still arrives.
  function OnEvent(c: Config, env: Env, s: Receiver, e: Event): Receiver {
    if !s.status.Running? then s else
    match e
    case Chunk(_, _, _, _, _) => OnChunk(c, env, s, e)
    case End(sha256) =>
      var s1 := Complete(c, env, s.(end := Some(sha256)));
      if s1.status.Running? then s1.(endTimer := true) else s1
    case Deadline => if s.endTimer then Fail(s, MissingChunks) else s
    case Cancelled => s.(status := Stopped)
    case Closed => s.(status := Stopped)
  }

  function Run(c: Config, env: Env, s: Receiver, events: seq<Event>): Receiver {
    if events == [] then s else OnEvent(c, env, Run(c, env, s, events[..|events| - 1]), events[|events| - 1])
  }
}
