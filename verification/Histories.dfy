/** What the acts of a receive session are, in order: whose sidecars it writes, and that it renames once, at the end. */
module Histories {
  import opened Wrappers
  import opened Chunking
  import opened Disks
  import opened Receiving

  // Nothing has been renamed; the destination is removed only to overwrite it; every sidecar put in place is one the
  // session has just written for its own file.
  ghost predicate Preparing(t: Trace, c: Config)
  {
    t.Then? ==>
      && Preparing(t.before, c) && !t.act.RenamePart?
      && (t.act.RemoveDest? ==> c.overwrite)
      && (t.act.WriteRenewed? ==> t.act.sidecar.file == c.file)
      && (t.act.ReplaceSidecar? ==> t.before.Then? && t.before.act.WriteRenewed?)
  }

  // The part file is closed, and with overwriting the old destination removed, right before the rename.
  ghost predicate Cleared(t: Trace, c: Config)
  {
    && t.Then?
    && if c.overwrite then (t.act.RemoveDest? || t.act.Fruitless?) && t.before.Then? && t.before.act.ClosePart?
       else t.act.ClosePart?
  }

  // One rename, after which the destination is left alone.
  ghost predicate Landed(t: Trace, c: Config)
  {
    && t.Then?
    && if t.act.RenamePart? then Preparing(t.before, c) && Cleared(t.before, c)
       else Landed(t.before, c) && (t.act.RemoveSidecar? || t.act.Fruitless? || t.act.Send?)
  }

  ghost predicate Orderly(s: Receiver, c: Config)
  {
    if s.status.Committed? then Landed(s.trace, c) else Preparing(s.trace, c)
  }

  // ---------- the receive loop is orderly ----------

  predicate Plain(a: Act) { !(a.RenamePart? || a.RemoveDest? || a.WriteRenewed? || a.ReplaceSidecar?) }

  lemma Step(t: Trace, a: Act, c: Config)
    requires Preparing(t, c) && Plain(a)
    ensures Preparing(Then(t, a), c)
  {}

  lemma FailOrderly(s: Receiver, reason: Reason, c: Config)
    requires Preparing(s.trace, c)
    ensures Orderly(Fail(s, reason), c) && Orderly(Fail(Do(s, Fruitless), reason), c)
  {
    Step(s.trace, Send(FileCancel), c);
    Step(s.trace, Fruitless, c);
    Step(Then(s.trace, Fruitless), Send(FileCancel), c);
  }

  lemma SidecarOrderly(c: Config, env: Env, s: Receiver, n: int)
    requires s.status.Running? && Preparing(s.trace, c)
    ensures var r := WritePartialMetadata(env, s, Sidecar(c.file, n));
      && Preparing(r.trace, c) && !r.status.Committed?
      && r == s.(status := r.status, trace := r.trace, out := r.out)
  {
    FailOrderly(s, DiskError, c);
    var s1 := Do(s, WriteRenewed(Sidecar(c.file, n)));
    assert Preparing(s1.trace, c);
    FailOrderly(s1, DiskError, c);
  }

  lemma CheckpointOrderly(c: Config, env: Env, s: Receiver)
    requires s.status.Running? && Preparing(s.trace, c)
    ensures var r := Checkpoint(c, env, s);
      && Preparing(r.trace, c) && !r.status.Committed?
      && r == s.(status := r.status, lastDurable := r.lastDurable, trace := r.trace, out := r.out)
  {
    FailOrderly(s, DiskError, c);
    Step(s.trace, SyncPart, c);
    var s1 := Do(s, SyncPart).(lastDurable := s.expectedOffset);
    SidecarOrderly(c, env, s1, s1.lastDurable);
    var s2 := WritePartialMetadata(env, s1, Sidecar(c.file, s1.lastDurable));
    Step(s2.trace, Send(FileAck(s2.lastDurable)), c);
    hide Preparing, WritePartialMetadata;
  }

  lemma AppendOrderly(c: Config, env: Env, s: Receiver)
    requires s.status.Running? && s.expectedIndex in s.pending && Preparing(s.trace, c)
    ensures var r := Append(env, s);
      && Preparing(r.trace, c) && !r.status.Committed? && r.pendingBytes <= s.pendingBytes
      && r.end == s.end && r.endTimer == s.endTimer
  {
    var piece := s.pending[s.expectedIndex];
    FailOrderly(s, BrokenContinuity, c);
    var torn := WritePart(s.filePos, piece.data[..Min(env.torn(s.trace), |piece.data|)]);
    Step(s.trace, torn, c);
    FailOrderly(Do(s, torn), DiskError, c);
    Step(s.trace, WritePart(s.filePos, piece.data), c);
    hide Preparing;
  }

  lemma WriteNextOrderly(c: Config, env: Env, s: Receiver)
    requires s.status.Running? && s.expectedIndex in s.pending && Preparing(s.trace, c)
    ensures var r := WriteNext(c, env, s);
      && Preparing(r.trace, c) && !r.status.Committed? && r.pendingBytes <= s.pendingBytes
      && r.end == s.end && r.endTimer == s.endTimer
  {
    AppendOrderly(c, env, s);
    var s1 := Append(env, s);
    if s1.status.Running? {
      CheckpointOrderly(c, env, s1);
      forall t, m | Preparing(t, c) ensures Preparing(Then(t, Send(m)), c) {
        Step(t, Send(m), c);
      }
    }
    hide Preparing, Append, Checkpoint;
  }

  lemma {:induction false} DrainOrderly(c: Config, env: Env, s: Receiver)
    requires s.status.Running? && Preparing(s.trace, c)
    ensures var r := Drain(c, env, s);
      && Preparing(r.trace, c) && !r.status.Committed? && r.pendingBytes <= s.pendingBytes
      && r.end == s.end && r.endTimer == s.endTimer
    decreases |s.pending|
  {
    if s.expectedIndex in s.pending {
      WriteNextOrderly(c, env, s);
      assert s.pending == (s.pending - {s.expectedIndex})[s.expectedIndex := s.pending[s.expectedIndex]];
      var t := WriteNext(c, env, s);
      hide WriteNext, Preparing;
      if t.status.Running? {
        DrainOrderly(c, env, t);
      }
    }
  }

  lemma PromoteOrderly(c: Config, env: Env, s: Receiver)
    requires s.status.Running? && Preparing(s.trace, c)
    ensures var r := Promote(c, env, s); Orderly(r, c) && r.end == s.end && !r.status.Running?
  {
    FailOrderly(s, DiskError, c);
    Step(s.trace, ClosePart, c);
    var s1 := Do(s, ClosePart);
    var s2 := if c.overwrite then Try(env, s1, RemoveDest) else s1;
    assert Preparing(s2.trace, c);
    FailOrderly(s2, DiskError, c);
    var s3 := Do(s2, RenamePart);
    assert Landed(s3.trace, c);
    assert Landed(Try(env, s3, RemoveSidecar).trace, c);
  }

  lemma CompleteOrderly(c: Config, env: Env, s: Receiver)
    requires s.status.Running? && Preparing(s.trace, c)
    ensures var r := Complete(c, env, s); Orderly(r, c) && r.end == s.end && (r.status.Running? ==> r == s)
  {
    if s.end.Some? {
      RejectOrderly(c, env, s);
      Step(s.trace, CheckDigest(Wanted(c, s.end.value)), c);
      var s1 := Do(s, CheckDigest(Wanted(c, s.end.value)));
      CheckpointOrderly(c, env, s1);
      var s2 := Checkpoint(c, env, s1);
      PromoteOrderly(c, env, s1);
      if s2.status.Running? {
        PromoteOrderly(c, env, s2);
      }
    }
    hide Promote, Checkpoint, EqualFold, Preparing, Landed;
  }

  lemma RejectOrderly(c: Config, env: Env, s: Receiver)
    requires s.status.Running? && Preparing(s.trace, c)
    ensures Orderly(Try(env, Try(env, Fail(s, DigestMismatch), RemovePart), RemoveSidecar), c)
  {
    FailOrderly(s, DigestMismatch, c);
    var s1 := Fail(s, DigestMismatch);
    var s2 := Try(env, s1, RemovePart);
    Step(s1.trace, s2.trace.act, c);
    Step(s2.trace, Try(env, s2, RemoveSidecar).trace.act, c);
  }

  lemma OnChunkOrderly(c: Config, env: Env, s: Receiver, e: Event)
    requires e.Chunk? && s.status.Running? && Preparing(s.trace, c) && s.pendingBytes <= c.maxReorderBufferBytes
    ensures var r := OnChunk(c, env, s, e);
      && Orderly(r, c) && r.end == s.end
      && (r.status.Running? ==> r.pendingBytes <= c.maxReorderBufferBytes && r.endTimer == s.endTimer)
  {
    hide Drain, Complete, Preparing, Landed;
    FailOrderly(s, BadIndexOrLength, c);
    FailOrderly(s, BadOffsetOrLength, c);
    FailOrderly(s, DuplicatePending, c);
    var s1 := s.(pending := s.pending[e.index := Piece(e.offset, e.data)], pendingBytes := s.pendingBytes + |e.data|);
    FailOrderly(s1, BufferExceeded, c);
    DrainOrderly(c, env, s1);
    var s2 := Drain(c, env, s1);
    if s2.status.Running? {
      CompleteOrderly(c, env, s2);
    }
  }

  // An event keeps the order of acts and the reorder limit; the end known is the last one received, and starts the
  // timer for what is still missing.
  lemma OnEventOrderly(c: Config, env: Env, s: Receiver, e: Event)
    requires Orderly(s, c) && (s.status.Running? ==> s.pendingBytes <= c.maxReorderBufferBytes)
    ensures var r := OnEvent(c, env, s, e);
      && Orderly(r, c) && (r.status.Running? ==> r.pendingBytes <= c.maxReorderBufferBytes)
      && (r.end == s.end || (e.End? && r.end == Some(e.sha256)))
      && (r.status.Running? ==> r.endTimer == (s.endTimer || e.End?))
  {
    if s.status.Running? {
      match e
      case Chunk(_, _, _, _, _) => OnChunkOrderly(c, env, s, e);
      case End(sha256) => CompleteOrderly(c, env, s.(end := Some(sha256)));
      case Deadline => FailOrderly(s, MissingChunks, c);
      case _ =>
    }
    hide OnChunk, Complete, Preparing, Landed;
  }

  ghost predicate EndAmong(s: Receiver, events: seq<Event>)
  {
    s.end.Some? ==> End(s.end.value) in events
  }

  ghost predicate Ended(events: seq<Event>) { exists e :: e in events && e.End? }

  lemma {:induction false} RunOrderly(c: Config, env: Env, s: Receiver, events: seq<Event>)
    requires Orderly(s, c) && s.end.None? && !s.endTimer
    requires s.status.Running? ==> s.pendingBytes <= c.maxReorderBufferBytes
    ensures var r := Run(c, env, s, events);
      && Orderly(r, c) && EndAmong(r, events)
      && (r.status.Running? ==>
            && r.pendingBytes <= c.maxReorderBufferBytes
            && (r.endTimer <==> Ended(events)))
  {
    if events != [] {
      var init, e := events[..|events| - 1], events[|events| - 1];
      RunOrderly(c, env, s, init);
      OnEventOrderly(c, env, Run(c, env, s, init), e);
      assert events == init + [e];
      hide OnEvent, Orderly;
    }
  }

  lemma StartOrderly(c: Config, env: Env, maxFileSize: int, found: Disk)
    requires c.maxReorderBufferBytes >= 0
    ensures var s := StartReceive(c, env, maxFileSize, found);
      && Orderly(s, c) && s.end.None? && !s.endTimer && s.pendingBytes == 0 && !s.status.Committed?
      && (!c.overwrite && found.dest.Some? ==> s.trace == Then(Begin(found), Send(FileCancel)) && !s.status.Running?)
  {
    var s := IDLE.(trace := Begin(found));
    assert Preparing(s.trace, c);
    FailOrderly(s, InvalidMetadata, c);
    FailOrderly(s, TooLarge, c);
    FailOrderly(s, DestinationExists, c);
    if ValidMetadata(c.file) {
      var offset := if c.file.resume then MatchingPartial(found, c.file) else 0;
      BeginOrderly(c, env, s, offset);
    }
    hide MatchingPartial, ValidMetadata, OpenPartial, BeginLoop, Preparing;
  }

  lemma BeginOrderly(c: Config, env: Env, s: Receiver, offset: int)
    requires s.status.Running? && Preparing(s.trace, c) && c.file.chunkSize > 0
    requires s.end.None? && !s.endTimer && s.pendingBytes == 0
    ensures var s1 := OpenPartial(c, env, s, offset);
      && Orderly(s1, c) && s1.end.None? && !s1.endTimer && s1.pendingBytes == 0 && !s1.status.Committed?
      && (s1.status.Running? ==>
            var r := BeginLoop(c, env, s1, offset);
            Orderly(r, c) && r.end.None? && !r.endTimer && r.pendingBytes == 0 && !r.status.Committed?)
  {
    FailOrderly(s, DiskError, c);
    Step(s.trace, OpenPart(offset == 0), c);
    SidecarOrderly(c, env, Do(s, OpenPart(offset == 0)), offset);
    var s1 := OpenPartial(c, env, s, offset);
    if s1.status.Running? {
      var answer := if offset > 0 then ResumeState(offset) else Accept;
      UnreadableOrderly(env, s1, answer, c);
      Step(s1.trace, Fruitless, c);
      UnreadableOrderly(env, Do(s1, Fruitless), answer, c);
      Step(s1.trace, Send(answer), c);
    }
    hide Preparing, WritePartialMetadata, Unreadable, ViewOf;
  }

  lemma UnreadableOrderly(env: Env, s: Receiver, answer: Message, c: Config)
    requires Preparing(s.trace, c) && s.status.Running?
    ensures var r := Unreadable(env, s, answer);
      && Orderly(r, c) && !r.status.Committed?
      && r.end == s.end && r.endTimer == s.endTimer && r.pendingBytes == s.pendingBytes
  {
    Step(s.trace, Send(answer), c);
    FailOrderly(Say(s, answer), DiskError, c);
    Step(s.trace, Send(FileCancel), c);
    Step(Fail(s, DiskError).trace, Send(answer), c);
  }

  // ---------- what the order of acts says of the disk ----------

  // The sidecar there is, if any, is one of the two.
  ghost predicate SidecarFrom(d: Disk, found: Disk, file: FileMetadata)
  {
    d.sidecar.Some? ==> d.sidecar.value.file == file || d.sidecar == found.sidecar
  }

  lemma {:induction false} PreparingMeans(t: Trace, c: Config)
    requires Preparing(t, c)
    ensures Now(t).dest == ViewOf(t).found.dest || (Now(t).dest.None? && c.overwrite)
    ensures SidecarFrom(Now(t), ViewOf(t).found, c.file)
    decreases t
  {
    if t.Then? {
      PreparingMeans(t.before, c);
    }
  }

  lemma {:induction false} LandedMeans(t: Trace, c: Config)
    requires Landed(t, c)
    ensures SidecarFrom(Now(t), ViewOf(t).found, c.file)
    decreases t
  {
    if t.act.RenamePart? {
      PreparingMeans(t.before, c);
    } else {
      LandedMeans(t.before, c);
    }
  }

  lemma {:induction false} PreparingMoment(p: Trace, t: Trace, c: Config)
    requires Moment(p, t) && Preparing(t, c)
    ensures Preparing(p, c) && ViewOf(p).found == ViewOf(t).found
    decreases t
  {
    if p != t {
      PreparingMoment(p, t.before, c);
    }
  }

  // Before the rename a session prepares; from it on the destination is the final one.
  lemma {:induction false} LandedMoment(p: Trace, t: Trace, c: Config)
    requires Moment(p, t) && Landed(t, c)
    ensures Preparing(p, c) || (Landed(p, c) && Now(p).dest == Now(t).dest)
    ensures ViewOf(p).found == ViewOf(t).found
    decreases t
  {
    if p != t {
      assert ViewOf(t.before).found == ViewOf(t).found;
      if t.act.RenamePart? {
        PreparingMoment(p, t.before, c);
      } else {
        assert Now(t).dest == Now(t.before).dest;
        LandedMoment(p, t.before, c);
      }
    }
  }

  /** What a moment of an orderly session finds: the sidecar is the session's own or the one it found, and the
      destination is the old one, absent while it is overwritten, or the final one of a committed session. */
  lemma OrderlyMoment(c: Config, s: Receiver, p: Trace)
    requires Orderly(s, c) && Moment(p, s.trace)
    ensures var d, found := Now(p), ViewOf(s.trace).found;
      && SidecarFrom(d, found, c.file)
      && (d.dest == found.dest || (d.dest.None? && c.overwrite) || (s.status.Committed? && d.dest == Now(s.trace).dest))
  {
    hide Preparing, Landed, Moment;
    if s.status.Committed? {
      LandedMoment(p, s.trace, c);
    } else {
      PreparingMoment(p, s.trace, c);
    }
    if Preparing(p, c) {
      PreparingMeans(p, c);
    } else {
      LandedMeans(p, c);
    }
  }

  lemma {:induction false} NoRename(p: Trace, t: Trace, c: Config)
    requires Preparing(t, c)
    ensures !Moment(Then(p, RenamePart), t)
    decreases t
  {
    if t.Then? {
      NoRename(p, t.before, c);
    }
  }

  /** The rename of an orderly session is its only one and comes right after closing the part file and, when
      overwriting, removing the old destination. */
  lemma {:induction false} RenameMoment(p: Trace, t: Trace, c: Config)
    requires Moment(Then(p, RenamePart), t) && Landed(t, c)
    ensures Cleared(p, c) && forall q :: !Moment(Then(q, RenamePart), p)
    decreases t
  {
    if t.act.RenamePart? {
      forall q ensures !Moment(Then(q, RenamePart), t.before) {
        NoRename(q, t.before, c);
      }
    } else {
      RenameMoment(p, t.before, c);
    }
  }
}
