/** What every reachable state of the receive loop satisfies, and what every act of a session respects. */
module ReceiveInvariant {
  import opened Wrappers
  import opened Chunking
  import opened Disks
  import opened Receiving

  // world gives the bytes an offered file denotes. With honest set, every chunk carries those bytes and
  // every part file found on disk holds them; without it nothing is assumed about chunk contents.
  // found is the disk the session started from.
  datatype Claim = Claim(world: FileMetadata -> seq<byte>, honest: bool, found: Disk)

  // No system call fails.
  ghost predicate AllOk(env: Env) { forall t :: env.ok(t) }

  ghost predicate GoodConfig(c: Config, k: Claim) {
    && Admissible(c.file) && c.durableAckInterval > 0 && c.maxReorderBufferBytes > 0
    && (k.honest ==> |k.world(c.file)| == c.file.size)
  }

  // A part file as long as its sidecar says is that prefix of the sidecar's file.
  ghost predicate HonestDisk(world: FileMetadata -> seq<byte>, d: Disk) {
    d.sidecar.Some? && d.part.Some? && |d.part.value| == d.sidecar.value.receivedBytes ==>
      d.part.value <= world(d.sidecar.value.file)
  }

  // x is a whole file whose digest was compared, when there was one to compare with.
  ghost predicate Whole(c: Config, k: Claim, v: View, x: seq<byte>) {
    && |x| == c.file.size
    && v.checked.Some?
    && (v.checked.value == "" || EqualFold(v.checked.value, c.hash(x)))
    && (c.file.sha256 != "" ==> v.checked.value == c.file.sha256)
    && (k.honest ==> x == k.world(c.file))
  }

  // The destination is what it was, absent (only when overwriting), or the whole file.
  ghost predicate DestSound(c: Config, k: Claim, v: View) {
    || v.disk.dest == v.found.dest
    || (v.disk.dest.None? && c.overwrite)
    || (v.disk.dest.Some? && Whole(c, k, v, v.disk.dest.value))
  }

  // Both flags are set by the sender of this repository.
  predicate Modern(c: Config) { c.file.commitAck && c.file.progressAck }

  // file_ack(n) below the size: n bytes are synced and the sidecar says n. file_ack(size): committed.
  ghost predicate AckSound(c: Config, k: Claim, v: View, n: int) {
    var d := v.disk;
    && v.lastAck < n <= c.file.size
    && (n < c.file.size ==>
          && d.part == Some(d.synced) && |d.synced| == n && d.sidecar == Some(Sidecar(c.file, n)))
    && (n == c.file.size ==> d.part.None? && d.dest.Some? && Whole(c, k, v, d.dest.value))
  }

  // Act a respects what the session has done up to v.
  ghost predicate StepSound(c: Config, k: Claim, v: View, a: Act) {
    var d := v.disk;
    && DestSound(c, k, Next(v, a))
    && (k.honest ==> HonestDisk(k.world, Apply(d, a)))
    && (a.WritePart? ==>
          && d.part.Some? && a.pos == |d.part.value|
          && d.sidecar.Some? && d.sidecar.value.receivedBytes <= a.pos)
    && (a.ReplaceSidecar? ==> d.part.Some? && d.renewed == Some(Sidecar(c.file, |d.part.value|)))
    && (a.ReplaceSidecar? && v.sent != [] ==> d.part == Some(d.synced))
    && (Modern(c) && a.Send? && a.message.FileAck? ==> AckSound(c, k, v, a.message.receivedBytes))
    && (Modern(c) && a.Send? && a.message.FileProgress? ==>
          v.lastProgress < a.message.receivedBytes < c.file.size)
  }

  ghost predicate Sound(c: Config, k: Claim, t: Trace) {
    match t
    case Begin(d) => k.honest ==> HonestDisk(k.world, d)
    case Then(p, a) => Sound(c, k, p) && StepSound(c, k, ViewOf(p), a)
  }

  ghost predicate PieceSound(c: Config, k: Claim, i: int, p: Piece) {
    var at := i * c.file.chunkSize;
    && p.offset == at && |p.data| == ChunkLen(c.file, i)
    && 0 <= at && at + |p.data| <= c.file.size
    && (k.honest ==> at + |p.data| <= |k.world(c.file)| && p.data == k.world(c.file)[at..at + |p.data|])
  }

  // The messages already sent claim no more than what has been written, and not the end before the commit.
  ghost predicate OutSound(c: Config, out: seq<Message>, offset: int, committed: bool) {
    forall m | m in out ::
      && (m.FileAck? || m.FileProgress? ==> m.receivedBytes <= offset)
      && (m.FileProgress? ==> m.receivedBytes < c.file.size)
      && (m.FileAck? && Modern(c) && m.receivedBytes >= c.file.size ==> committed)
  }

  ghost predicate Logged(c: Config, k: Claim, s: Receiver) {
    && Sound(c, k, s.trace) && ViewOf(s.trace).sent == s.out && ViewOf(s.trace).found == k.found
    && OutSound(c, s.out, s.expectedOffset, s.status.Committed?)
  }

  ghost predicate Placed(c: Config, k: Claim, index: int, offset: int, pos: int, hashed: seq<byte>) {
    && 0 <= index <= c.file.totalChunks
    && offset == Off(c.file, index) == pos == |hashed|
    && (k.honest ==> hashed <= k.world(c.file))
  }

  ghost predicate PendingSound(c: Config, k: Claim, index: int, pending: map<int, Piece>, bytes: int) {
    && (forall i | i in pending :: index <= i < c.file.totalChunks && PieceSound(c, k, i, pending[i]))
    && bytes == Held(c.file, pending.Keys, c.file.totalChunks)
  }

  // The disk holds what was hashed, and the sidecar says what was last made durable.
  ghost predicate Mirrored(c: Config, v: View, hashed: seq<byte>, lastDurable: int, lastProgressAck: int) {
    && v.disk.part == Some(hashed)
    && v.disk.sidecar == Some(Sidecar(c.file, lastDurable))
    && v.disk.dest == v.found.dest
    && 0 <= lastDurable <= |hashed| && 0 <= lastProgressAck <= |hashed|
    && (Modern(c) ==> v.lastAck <= lastDurable && v.lastAck < c.file.size && v.lastProgress <= lastProgressAck)
  }

  // The reassembly invariant, as it stands between any two statements of the drain loop.
  ghost predicate Core(c: Config, k: Claim, s: Receiver) {
    && s.status.Running?
    && Placed(c, k, s.expectedIndex, s.expectedOffset, s.filePos, s.hashed)
    && PendingSound(c, k, s.expectedIndex, s.pending, s.pendingBytes)
    && Mirrored(c, ViewOf(s.trace), s.hashed, s.lastDurable, s.lastProgressAck)
    && Logged(c, k, s)
  }

  // What checkpoints and progress messages keep up to date.
  ghost predicate Timely(c: Config, s: Receiver) {
    && (s.expectedOffset == c.file.size ==> s.lastDurable == c.file.size)
    && s.expectedOffset - s.lastDurable < c.durableAckInterval
    && (s.expectedOffset < c.file.size ==> s.expectedOffset - s.lastProgressAck < PROGRESS_ACK_INTERVAL)
  }

  ghost predicate Over(c: Config, k: Claim, s: Receiver) {
    && !s.status.Running?
    && Logged(c, k, s)
    && (s.status.Committed? ==>
          && Now(s.trace).dest == Some(s.hashed) && Now(s.trace).part.None?
          && s.end.Some? && ViewOf(s.trace).checked == Some(Wanted(c, s.end.value))
          && Whole(c, k, ViewOf(s.trace), s.hashed) && s.expectedOffset == c.file.size)
  }

  // Between two events: drained, up to date, and not waiting with everything at hand.
  ghost predicate Waiting(c: Config, k: Claim, s: Receiver) {
    && Core(c, k, s) && Timely(c, s)
    && s.expectedIndex !in s.pending
    && (s.end.Some? ==> s.endTimer && s.expectedOffset < c.file.size)
  }

  ghost predicate Inv(c: Config, k: Claim, s: Receiver) {
    if s.status.Running? then Waiting(c, k, s) else Over(c, k, s)
  }

  // ---------- single acts ----------

  lemma SoundStep(c: Config, k: Claim, t: Trace, a: Act)
    requires Sound(c, k, t) && StepSound(c, k, ViewOf(t), a)
    ensures Sound(c, k, Then(t, a)) && ViewOf(Then(t, a)) == Next(ViewOf(t), a)
  {}

  lemma SoundNow(c: Config, k: Claim, t: Trace)
    requires Sound(c, k, t)
    ensures DestSound(c, k, ViewOf(t))
    ensures k.honest ==> HonestDisk(k.world, Now(t))
  {}

  // There is a digest to compare with, and it is not that of the bytes.
  predicate DigestDiffers(c: Config, end: string, bytes: seq<byte>) {
    Wanted(c, end) != "" && !EqualFold(Wanted(c, end), c.hash(bytes))
  }

  // Acts that respect every history.
  predicate Harmless(a: Act) {
    || a.Fruitless? || a.ClosePart? || a.SyncPart? || a.WriteRenewed? || a.RemoveSidecar? || a.RemovePart?
    || (a.Send? && (a.message.FileCancel? || a.message.Accept? || a.message.ResumeState?))
  }

  lemma HarmlessStep(c: Config, k: Claim, t: Trace, a: Act)
    requires Sound(c, k, t) && Harmless(a)
    ensures Sound(c, k, Then(t, a)) && ViewOf(Then(t, a)) == Next(ViewOf(t), a)
  {
    SoundNow(c, k, t);
  }

  lemma SyncStep(c: Config, k: Claim, t: Trace)
    requires Sound(c, k, t) && Now(t).part.Some?
    ensures var u := Then(t, SyncPart);
      Sound(c, k, u) && ViewOf(u) == ViewOf(t).(disk := Now(t).(synced := Now(t).part.value))
  {
    HarmlessStep(c, k, t, SyncPart);
  }

  // Closing the part file, or a failed call.
  lemma IdleStep(c: Config, k: Claim, t: Trace, a: Act)
    requires Sound(c, k, t) && (a.ClosePart? || a.Fruitless?)
    ensures Sound(c, k, Then(t, a)) && ViewOf(Then(t, a)) == ViewOf(t)
  {}

  // A whole, checked part file may become the destination.
  lemma RenameStep(c: Config, k: Claim, t: Trace)
    requires Sound(c, k, t) && Now(t).part.Some? && Whole(c, k, ViewOf(t), Now(t).part.value)
    ensures var u := Then(t, RenamePart);
      && Sound(c, k, u) && ViewOf(u) == ViewOf(t).(disk := Now(t).(dest := Now(t).part, part := None))
      && Whole(c, k, ViewOf(u), Now(t).part.value)
  {}

  lemma RemoveDestStep(c: Config, k: Claim, t: Trace)
    requires Sound(c, k, t) && c.overwrite
    ensures var u := Then(t, RemoveDest);
      Sound(c, k, u) && ViewOf(u) == ViewOf(t).(disk := Now(t).(dest := None))
  {
    SoundNow(c, k, t);
    SoundStep(c, k, t, RemoveDest);
  }

  lemma AckStep(c: Config, k: Claim, t: Trace, n: int)
    requires Sound(c, k, t) && (Modern(c) ==> AckSound(c, k, ViewOf(t), n))
    ensures var u := Then(t, Send(FileAck(n)));
      Sound(c, k, u) && ViewOf(u) == ViewOf(t).(lastAck := n, sent := ViewOf(t).sent + [FileAck(n)])
  {}

  lemma ProgressStep(c: Config, k: Claim, t: Trace, n: int)
    requires Sound(c, k, t) && (Modern(c) ==> ViewOf(t).lastProgress < n < c.file.size)
    ensures var u := Then(t, Send(FileProgress(n)));
      Sound(c, k, u) && ViewOf(u) == ViewOf(t).(lastProgress := n, sent := ViewOf(t).sent + [FileProgress(n)])
  {}

  // One more message, sent when offset bytes have been written.
  lemma OutStep(c: Config, out: seq<Message>, m: Message, offset: int, committed: bool, before: bool)
    requires OutSound(c, out, offset, before) && (before ==> committed)
    requires m.FileAck? || m.FileProgress? ==> m.receivedBytes <= offset
    requires m.FileProgress? ==> m.receivedBytes < c.file.size
    requires m.FileAck? && Modern(c) && m.receivedBytes >= c.file.size ==> committed
    ensures OutSound(c, out + [m], offset, committed)
  {}

  /** A failed call or a cancel message changes nothing, so any running transfer may fail. */
  lemma FailKeeps(c: Config, k: Claim, s: Receiver, reason: Reason)
    requires Logged(c, k, s) && !s.status.Committed?
    ensures Over(c, k, Fail(s, reason))
  {
    HarmlessStep(c, k, s.trace, Send(FileCancel));
    hide Sound, ViewOf, Whole;
  }

  lemma DiskFailKeeps(c: Config, k: Claim, s: Receiver)
    requires Logged(c, k, s) && !s.status.Committed?
    ensures Over(c, k, Fail(Do(s, Fruitless), DiskError))
  {
    HarmlessStep(c, k, s.trace, Fruitless);
    hide Sound, ViewOf, Whole;
    FailKeeps(c, k, Do(s, Fruitless), DiskError);
  }

  // ---------- checkpoint ----------

  /** A sidecar may record all n bytes of a part file that holds the first n bytes of the source. */
  lemma SidecarKeeps(c: Config, k: Claim, env: Env, s: Receiver, n: int)
    requires s.status.Running? && Logged(c, k, s)
    requires Now(s.trace).part.Some? && |Now(s.trace).part.value| == n
    requires s.out != [] ==> Now(s.trace).part == Some(Now(s.trace).synced)
    requires k.honest ==> Now(s.trace).part.value <= k.world(c.file)
    ensures var r := WritePartialMetadata(env, s, Sidecar(c.file, n));
      if r.status.Running? then
        && r == s.(trace := r.trace) && Logged(c, k, r)
        && ViewOf(r.trace) == ViewOf(s.trace).(
             disk := Now(s.trace).(sidecar := Some(Sidecar(c.file, n)), renewed := None))
      else Over(c, k, r) && r.status == Failed(DiskError) && s.out <= r.out
  {
    hide Sound, ViewOf, EqualFold, OutSound;
    if !env.ok(s.trace) {
      DiskFailKeeps(c, k, s);
    } else {
      HarmlessStep(c, k, s.trace, WriteRenewed(Sidecar(c.file, n)));
      var s1 := Do(s, WriteRenewed(Sidecar(c.file, n)));
      if !env.ok(s1.trace) {
        DiskFailKeeps(c, k, s1);
      } else {
        SoundNow(c, k, s1.trace);
        SoundStep(c, k, s1.trace, ReplaceSidecar);
      }
    }
  }

  /** A checkpoint makes every written byte durable before it is acknowledged. */
  lemma CheckpointKeeps(c: Config, k: Claim, env: Env, s: Receiver)
    requires GoodConfig(c, k) && Core(c, k, s) && s.lastDurable < s.expectedOffset
    ensures var r := Checkpoint(c, env, s);
      && s.out <= r.out
      && (AllOk(env) ==> r.status.Running?)
      && if r.status.Running? then
        && Core(c, k, r) && r.lastDurable == s.expectedOffset
        && r == s.(lastDurable := r.lastDurable, trace := r.trace, out := r.out)
        && |r.out| <= |s.out| + 1
      else Over(c, k, r) && r.status == Failed(DiskError)
  {
    OffOrder(c.file, s.expectedIndex, s.expectedIndex);
    assert |s.hashed| == s.expectedOffset <= c.file.size && (k.honest ==> s.hashed <= k.world(c.file));
    hide Sound, StepSound, ViewOf, Next, Whole, Placed, PendingSound, OutSound;
    if !env.ok(s.trace) {
      DiskFailKeeps(c, k, s);
    } else {
      SyncStep(c, k, s.trace);
      var s1 := Do(s, SyncPart).(lastDurable := s.expectedOffset);
      SidecarKeeps(c, k, env, s1, s1.lastDurable);
      var s2 := WritePartialMetadata(env, s1, Sidecar(c.file, s1.lastDurable));
      if s2.status.Running? && (s.expectedOffset < c.file.size || !c.file.commitAck) {
        OutStep(c, s2.out, FileAck(s2.lastDurable), s2.expectedOffset, false, false);
        AckStep(c, k, s2.trace, s2.lastDurable);
      }
    }
  }

  // ---------- the drain loop ----------

  lemma WriteStep(c: Config, k: Claim, t: Trace, hashed: seq<byte>, data: seq<byte>)
    requires Sound(c, k, t) && Now(t).part == Some(hashed)
    requires Now(t).sidecar.Some? && 0 <= Now(t).sidecar.value.receivedBytes <= |hashed|
    ensures var u := Then(t, WritePart(|hashed|, data));
      Sound(c, k, u) && ViewOf(u) == ViewOf(t).(disk := Now(t).(part := Some(hashed + data)))
  {
    SoundNow(c, k, t);
    assert Overwritten(hashed, |hashed|, data) == hashed + data;
    if data == [] { assert hashed + data == hashed; }
    SoundStep(c, k, t, WritePart(|hashed|, data));
  }

  /** Appending the next chunk keeps the invariant; its offset always continues the file. */
  lemma AppendKeeps(c: Config, k: Claim, env: Env, s: Receiver)
    requires GoodConfig(c, k) && Core(c, k, s) && s.expectedIndex in s.pending
    ensures var r := Append(env, s);
      && s.out <= r.out
      && (AllOk(env) ==> r.status.Running?)
      && if r.status.Running? then
        && Core(c, k, r)
        && r == s.(pending := s.pending - {s.expectedIndex}, pendingBytes := r.pendingBytes,
                   filePos := r.filePos, hashed := s.hashed + s.pending[s.expectedIndex].data,
                   expectedOffset := r.expectedOffset, expectedIndex := s.expectedIndex + 1, trace := r.trace)
        && s.expectedOffset < r.expectedOffset
      else Over(c, k, r) && r.status == Failed(DiskError)
  {
    var i := s.expectedIndex;
    var piece := s.pending[i];
    var s1 := s.(pending := s.pending - {i}, pendingBytes := s.pendingBytes - |piece.data|);
    PlaceNext(c, k, s);
    hide Sound, ViewOf, Whole, Placed, PendingSound;
    if env.ok(s1.trace) {
      WriteStep(c, k, s.trace, s.hashed, piece.data);
    } else {
      var some := piece.data[..Min(env.torn(s1.trace), |piece.data|)];
      WriteStep(c, k, s.trace, s.hashed, some);
      FailKeeps(c, k, Do(s1, WritePart(s.filePos, some)), DiskError);
    }
  }

  lemma PlaceNext(c: Config, k: Claim, s: Receiver)
    requires GoodConfig(c, k) && s.expectedIndex in s.pending
    requires Placed(c, k, s.expectedIndex, s.expectedOffset, s.filePos, s.hashed)
    requires PendingSound(c, k, s.expectedIndex, s.pending, s.pendingBytes)
    ensures var i, piece := s.expectedIndex, s.pending[s.expectedIndex];
      && piece.offset == s.expectedOffset == s.filePos == |s.hashed| && 0 < |piece.data|
      && Placed(c, k, i + 1, s.expectedOffset + |piece.data|, s.filePos + |piece.data|, s.hashed + piece.data)
      && PendingSound(c, k, i + 1, s.pending - {i}, s.pendingBytes - |piece.data|)
  {
    var i := s.expectedIndex;
    ChunkBounds(c.file, i);
    HeldRemove(c.file, s.pending.Keys, i, c.file.totalChunks);
    assert PieceSound(c, k, i, s.pending[i]);
    assert (s.pending - {i}).Keys == s.pending.Keys - {i};
  }

  lemma ReportKeeps(c: Config, k: Claim, env: Env, s: Receiver)
    requires GoodConfig(c, k) && Core(c, k, s) && s.lastProgressAck < s.expectedOffset
    requires s.expectedOffset == c.file.size ==> s.lastDurable == c.file.size
    requires s.expectedOffset - s.lastDurable < c.durableAckInterval
    ensures var r := Report(c, env, s);
      && Core(c, k, r) && Timely(c, r)
      && r == s.(lastProgressAck := r.lastProgressAck, trace := r.trace, out := r.out)
      && s.out <= r.out && |r.out| <= |s.out| + 1
  {
    assert |s.hashed| == s.expectedOffset;
    hide Sound, StepSound, ViewOf, Next, Whole, Placed, PendingSound, OutSound;
    if s.expectedOffset < c.file.size {
      if c.file.progressAck {
        OutStep(c, s.out, FileProgress(s.expectedOffset), s.expectedOffset, false, false);
        ProgressStep(c, k, s.trace, s.expectedOffset);
      } else {
        OutStep(c, s.out, FileAck(s.expectedOffset), s.expectedOffset, false, false);
        AckStep(c, k, s.trace, s.expectedOffset);
      }
    }
  }

  lemma WriteNextKeeps(c: Config, k: Claim, env: Env, s: Receiver)
    requires GoodConfig(c, k) && Core(c, k, s) && Timely(c, s) && s.expectedIndex in s.pending
    ensures var r := WriteNext(c, env, s);
      && s.out <= r.out
      && (AllOk(env) ==> r.status.Running?)
      && if r.status.Running? then
        && Core(c, k, r) && Timely(c, r)
        && r.expectedIndex == s.expectedIndex + 1
        && r.pending == s.pending - {s.expectedIndex}
        && r.hashed == s.hashed + s.pending[s.expectedIndex].data
        && r.end == s.end && r.endTimer == s.endTimer
        && |r.out| <= |s.out| + 2
      else Over(c, k, r) && r.status == Failed(DiskError)
  {
    OffOrder(c.file, s.expectedIndex, s.expectedIndex);
    hide ViewOf, Placed, PendingSound, Mirrored, Logged, Over, Append, Checkpoint, Report;
    AppendKeeps(c, k, env, s);
    var s1 := Append(env, s);
    if s1.status.Running? {
      var s2 := s1;
      if s1.expectedOffset - s1.lastDurable >= c.durableAckInterval || s1.expectedOffset == c.file.size {
        CheckpointKeeps(c, k, env, s1);
        s2 := Checkpoint(c, env, s1);
      }
      if s2.status.Running? { ReportKeeps(c, k, env, s2); }
    }
  }

  /** Draining ends at the first missing chunk; only the disk can make it fail. */
  lemma {:induction false} DrainKeeps(c: Config, k: Claim, env: Env, s: Receiver)
    requires GoodConfig(c, k) && Core(c, k, s) && Timely(c, s)
    ensures var r := Drain(c, env, s);
      && s.out <= r.out
      && (AllOk(env) ==> r.status.Running?)
      && if r.status.Running? then
        && Core(c, k, r) && Timely(c, r) && r.expectedIndex !in s.pending
        && s.expectedIndex <= r.expectedIndex
        && (forall i | s.expectedIndex <= i < r.expectedIndex :: i in s.pending)
        && r.pending.Keys == (set i | i in s.pending.Keys && i > r.expectedIndex)
        && r.end == s.end && r.endTimer == s.endTimer
        && |r.out| <= |s.out| + 2 * (r.expectedIndex - s.expectedIndex)
      else Over(c, k, r) && r.status == Failed(DiskError)
    decreases |s.pending|
  {
    hide Placed, PieceSound, Held, Mirrored, Logged, Over, Timely, WriteNext;
    if s.expectedIndex in s.pending {
      WriteNextKeeps(c, k, env, s);
      var s1 := WriteNext(c, env, s);
      assert s.pending == (s.pending - {s.expectedIndex})[s.expectedIndex := s.pending[s.expectedIndex]];
      if s1.status.Running? {
        DrainKeeps(c, k, env, s1);
        var r := Drain(c, env, s1);
        if r.status.Running? {
          assert r.pending.Keys == set i | i in s.pending.Keys && i > r.expectedIndex;
        }
      }
    }
  }

  // ---------- completion ----------

  lemma PromoteKeeps(c: Config, k: Claim, env: Env, s: Receiver)
    requires GoodConfig(c, k) && Core(c, k, s) && s.expectedOffset == c.file.size
    requires s.end.Some? && ViewOf(s.trace).checked == Some(Wanted(c, s.end.value))
    requires Whole(c, k, ViewOf(s.trace), s.hashed)
    ensures var r := Promote(c, env, s);
      && Over(c, k, r) && s.out <= r.out && |r.out| == |s.out| + 1
      && r.status in {Committed, Failed(DiskError)}
      && r.expectedIndex == s.expectedIndex && r.expectedOffset == s.expectedOffset && r.hashed == s.hashed
      && (AllOk(env) ==> r.status.Committed? && Now(r.trace).sidecar.None?)
  {
    hide Sound, StepSound, ViewOf, Next, EqualFold, Placed, PendingSound, OutSound;
    if !env.ok(s.trace) {
      DiskFailKeeps(c, k, s);
      return;
    }
    IdleStep(c, k, s.trace, ClosePart);
    var s1 := Do(s, ClosePart);
    var s2 := s1;
    if c.overwrite {
      RemoveDestStep(c, k, s1.trace);
      IdleStep(c, k, s1.trace, Fruitless);
      s2 := Try(env, s1, RemoveDest);
    }
    if !env.ok(s2.trace) {
      DiskFailKeeps(c, k, s2);
      return;
    }
    RenameStep(c, k, s2.trace);
    CommitKeeps(c, k, env, Do(s2, RenamePart));
  }

  // After the rename: the sidecar goes, and only then the whole size is acknowledged.
  lemma CommitKeeps(c: Config, k: Claim, env: Env, s: Receiver)
    requires s.status.Running? && Logged(c, k, s) && s.expectedOffset == c.file.size
    requires Now(s.trace).dest == Some(s.hashed) && Now(s.trace).part.None?
    requires s.end.Some? && ViewOf(s.trace).checked == Some(Wanted(c, s.end.value))
    requires Whole(c, k, ViewOf(s.trace), s.hashed)
    requires Modern(c) ==> ViewOf(s.trace).lastAck < c.file.size
    ensures var r := Say(Try(env, s, RemoveSidecar), FileAck(c.file.size)).(status := Committed);
      Over(c, k, r) && (AllOk(env) ==> Now(r.trace).sidecar.None?)
  {
    hide Sound, StepSound, ViewOf, EqualFold, OutSound;
    HarmlessStep(c, k, s.trace, RemoveSidecar);
    HarmlessStep(c, k, s.trace, Fruitless);
    var s1 := Try(env, s, RemoveSidecar);
    OutStep(c, s1.out, FileAck(c.file.size), s1.expectedOffset, true, false);
    AckStep(c, k, s1.trace, c.file.size);
  }

  lemma RejectKeeps(c: Config, k: Claim, env: Env, s: Receiver)
    requires Logged(c, k, s) && s.status.Running?
    ensures var r := Try(env, Try(env, Fail(s, DigestMismatch), RemovePart), RemoveSidecar);
      && Over(c, k, r) && r.status == Failed(DigestMismatch) && r.out == s.out + [FileCancel]
      && Now(r.trace).dest == Now(s.trace).dest
      && (AllOk(env) ==> Now(r.trace).part.None? && Now(r.trace).sidecar.None?)
  {
    hide Sound, StepSound, ViewOf, Whole;
    var s1 := Fail(s, DigestMismatch);
    FailKeeps(c, k, s, DigestMismatch);
    HarmlessStep(c, k, s.trace, Send(FileCancel));
    HarmlessStep(c, k, s1.trace, if env.ok(s1.trace) then RemovePart else Fruitless);
    var s2 := Try(env, s1, RemovePart);
    HarmlessStep(c, k, s2.trace, if env.ok(s2.trace) then RemoveSidecar else Fruitless);
  }

  lemma AllWritten(c: Config, k: Claim, s: Receiver)
    requires GoodConfig(c, k) && Core(c, k, s)
    ensures s.expectedOffset == |s.hashed| <= c.file.size
    ensures s.expectedOffset == c.file.size <==> s.expectedIndex == c.file.totalChunks
    ensures s.expectedOffset == c.file.size ==> s.pending == map[]
  {
    OffOrder(c.file, s.expectedIndex, s.expectedIndex);
    hide Logged, Mirrored;
    if s.expectedIndex == c.file.totalChunks {
      forall i | i in s.pending ensures false { }
      assert s.pending == map[];
    }
  }

  /** With everything written and the end known, completion commits, finds a wrong digest, or hits the disk. */
  lemma CompleteKeeps(c: Config, k: Claim, env: Env, s: Receiver)
    requires GoodConfig(c, k) && Core(c, k, s) && Timely(c, s)
    ensures var r := Complete(c, env, s);
      if s.end.None? || s.expectedOffset < c.file.size then r == s else
      && Over(c, k, r) && s.out <= r.out && |r.out| == |s.out| + 1
      && r.status in {Committed, Failed(DigestMismatch), Failed(DiskError)}
      && r.expectedIndex == s.expectedIndex && r.expectedOffset == s.expectedOffset && r.hashed == s.hashed
      && (AllOk(env) ==> r.status != Failed(DiskError) && Now(r.trace).part.None? && Now(r.trace).sidecar.None?)
      && (r.status == Failed(DigestMismatch) <==> DigestDiffers(c, s.end.value, s.hashed))
      && (r.status == Failed(DigestMismatch) ==> r.out == s.out + [FileCancel] && Now(r.trace).dest == k.found.dest)
  {
    AllWritten(c, k, s);
    if s.end.Some? && s.expectedOffset == c.file.size {
      var want := Wanted(c, s.end.value);
      if want != "" && !EqualFold(want, c.hash(s.hashed)) {
        hide Core, Over, Promote, Checkpoint;
        RejectKeeps(c, k, env, s);
      } else {
        CheckKeeps(c, k, s);
        hide Core, Over, Promote, Checkpoint, Whole, Logged, EqualFold;
        PromoteKeeps(c, k, env, Do(s, CheckDigest(want)));
      }
    }
  }

  // Completion leaves what is known of the end.
  lemma CompleteEnd(c: Config, env: Env, s: Receiver)
    ensures Complete(c, env, s).end == s.end
  {}

  lemma CheckKeeps(c: Config, k: Claim, s: Receiver)
    requires GoodConfig(c, k) && Core(c, k, s) && s.end.Some? && s.expectedOffset == c.file.size
    requires var want := Wanted(c, s.end.value); want == "" || EqualFold(want, c.hash(s.hashed))
    ensures var r := Do(s, CheckDigest(Wanted(c, s.end.value)));
      && Core(c, k, r) && Whole(c, k, ViewOf(r.trace), s.hashed)
      && ViewOf(r.trace).checked == Some(Wanted(c, s.end.value))
  {}

  // ---------- one event ----------

  // A chunk event that carries the bytes of the offered file, when the claim says so.
  ghost predicate Truthful(c: Config, k: Claim, e: Event) {
    e.Chunk? && k.honest && 0 <= e.offset && e.offset + |e.data| <= c.file.size ==>
      |k.world(c.file)| == c.file.size && e.data == k.world(c.file)[e.offset..e.offset + |e.data|]
  }

  // The chunk passes the index, offset and length checks.
  predicate WellFormed(c: Config, e: Event) {
    && e.Chunk? && e.id == c.id && 0 <= e.index < c.file.totalChunks && e.length == |e.data|
    && e.offset == e.index * c.file.chunkSize && e.length == ChunkLen(c.file, e.index)
  }

  // The state in which a well-formed new chunk has been put in the reorder map.
  function Held1(s: Receiver, e: Event): Receiver
    requires e.Chunk?
  {
    s.(pending := s.pending[e.index := Piece(e.offset, e.data)], pendingBytes := s.pendingBytes + |e.data|)
  }

  lemma OnChunkCases(c: Config, k: Claim, env: Env, s: Receiver, e: Event)
    requires GoodConfig(c, k) && e.Chunk?
    ensures var r := OnChunk(c, env, s, e);
      if !WellFormed(c, e) then r in {Fail(s, BadIndexOrLength), Fail(s, BadOffsetOrLength)}
      else if e.index < s.expectedIndex then r == s
      else if e.index in s.pending then r == Fail(s, DuplicatePending)
      else if Held1(s, e).pendingBytes > c.maxReorderBufferBytes then r == Fail(Held1(s, e), BufferExceeded)
      else var s2 := Drain(c, env, Held1(s, e)); r == if s2.status.Running? then Complete(c, env, s2) else s2
  {
    if 0 <= e.index < c.file.totalChunks { ChunkBounds(c.file, e.index); }
  }

  lemma HoldKeeps(c: Config, k: Claim, s: Receiver, e: Event)
    requires GoodConfig(c, k) && Waiting(c, k, s) && WellFormed(c, e) && Truthful(c, k, e)
    requires s.expectedIndex <= e.index && e.index !in s.pending
    ensures Core(c, k, Held1(s, e)) && Timely(c, Held1(s, e))
  {
    hide Sound, ViewOf, OutSound, Mirrored, Placed;
    ChunkBounds(c.file, e.index);
    HeldAdd(c.file, s.pending.Keys, e.index, c.file.totalChunks);
    assert Held1(s, e).pending.Keys == s.pending.Keys + {e.index};
  }

  /** Every event keeps the invariant of the receive loop. */
  lemma OnEventKeeps(c: Config, k: Claim, env: Env, s: Receiver, e: Event)
    requires GoodConfig(c, k) && Inv(c, k, s) && Truthful(c, k, e)
    ensures Inv(c, k, OnEvent(c, env, s, e))
    ensures s.out <= OnEvent(c, env, s, e).out
  {
    hide Sound, ViewOf, OutSound, Placed, PendingSound, Mirrored, Whole, EqualFold, Drain, Complete,
         OnChunk, WellFormed;
    if s.status.Running? {
      match e
      case Chunk(_, _, _, _, _) =>
        OnChunkCases(c, k, env, s, e);
        FailKeeps(c, k, s, BadIndexOrLength);
        FailKeeps(c, k, s, BadOffsetOrLength);
        FailKeeps(c, k, s, DuplicatePending);
        if WellFormed(c, e) && s.expectedIndex <= e.index && e.index !in s.pending {
          HoldKeeps(c, k, s, e);
          FailKeeps(c, k, Held1(s, e), BufferExceeded);
          DrainKeeps(c, k, env, Held1(s, e));
          var s2 := Drain(c, env, Held1(s, e));
          if s2.status.Running? { CompleteKeeps(c, k, env, s2); }
        }
      case End(sha256) => CompleteKeeps(c, k, env, s.(end := Some(sha256)));
      case Deadline => FailKeeps(c, k, s, MissingChunks);
      case Cancelled =>
      case Closed =>
    }
  }

  // The receive loop takes the chunk into its reorder map.
  predicate Accepts(c: Config, s: Receiver, e: Event) {
    && WellFormed(c, e) && s.expectedIndex <= e.index && e.index !in s.pending
    && s.pendingBytes + |e.data| <= c.maxReorderBufferBytes
  }

  // After chunk i joins the pending ones, the run of chunks from expectedIndex up to gap is written.
  ghost predicate Drained(s: Receiver, i: int, r: Receiver) {
    var held, gap := s.pending.Keys + {i}, r.expectedIndex;
    && s.expectedIndex <= gap && gap !in held
    && (forall j | s.expectedIndex <= j < gap :: j in held)
    && (r.status.Running? ==> r.pending.Keys == set j | j in held && j > gap)
  }

  /** What an accepted chunk does: it drains the run it completes, and ends the transfer when nothing is missing. */
  lemma ChunkOutcome(c: Config, k: Claim, env: Env, s: Receiver, e: Event)
    requires GoodConfig(c, k) && Waiting(c, k, s) && Truthful(c, k, e) && Accepts(c, s, e)
    ensures var r := OnEvent(c, env, s, e);
      && r.status in {Running, Committed, Failed(DigestMismatch), Failed(DiskError)}
      && (AllOk(env) ==> r.status != Failed(DiskError))
      && (r.status != Failed(DiskError) ==>
            && Drained(s, e.index, r) && r.expectedIndex <= c.file.totalChunks
            && r.end == s.end
            && (r.status.Running? <==> r.expectedIndex < c.file.totalChunks || s.end.None?)
            && (r.status.Running? ==> |r.out| <= |s.out| + 2 * (r.expectedIndex - s.expectedIndex))
            && (!r.status.Running? ==> |r.out| <= |s.out| + 2 * (r.expectedIndex - s.expectedIndex) + 1)
            && (!r.status.Running? ==>
                  && (r.status == Failed(DigestMismatch) <==> DigestDiffers(c, s.end.value, r.hashed))
                  && (r.status == Failed(DigestMismatch) ==> Now(r.trace).dest == k.found.dest)
                  && r.expectedOffset == c.file.size
                  && (AllOk(env) ==> Now(r.trace).part.None? && Now(r.trace).sidecar.None?))
            && (k.honest && r.expectedIndex == c.file.totalChunks ==> r.hashed == k.world(c.file)))
  {
    hide Sound, ViewOf, OutSound, PieceSound, Held, Whole, EqualFold, Mirrored, Truthful, Fits, ValidMetadata;
    var h := Held1(s, e);
    var s2 := Drain(c, env, h);
    OnChunkCases(c, k, env, s, e);
    HoldKeeps(c, k, s, e);
    DrainKeeps(c, k, env, h);
    assert h.pending.Keys == s.pending.Keys + {e.index};
    hide Drain, OnChunk, Complete, WellFormed;
    if s2.status.Running? {
      CompleteKeeps(c, k, env, s2);
      AllWritten(c, k, s2);
      assert k.honest && s2.expectedOffset == c.file.size ==> s2.hashed == k.world(c.file);
      hide Core, Timely, Over, EqualFold;
    }
  }
}
