/** What a receive session tells its sender, and when: answers, acknowledgements, reports and cancellations. */
module Announcements {
  import opened Wrappers
  import opened Chunking
  import opened Disks
  import opened Receiving
  import opened ReceiveInvariant
  import opened Sessions
  import ReceiveLoops
  import opened Transfers

  // What a sender knows that has heard everything: the bytes acknowledged, the bytes reported, the cancellations.
  datatype Heard = Heard(acked: int, reported: int, cancels: nat)

  ghost function Told(t: Trace): Heard
  {
    match t
    case Begin(_) => Heard(0, 0, 0)
    case Then(p, Send(ResumeState(n))) => Heard(n, n, Told(p).cancels)
    case Then(p, Send(FileAck(n))) => Told(p).(acked := n)
    case Then(p, Send(FileProgress(n))) => Told(p).(reported := n)
    case Then(p, Send(FileCancel)) => Told(p).(cancels := Told(p).cancels + 1)
    case Then(p, _) => Told(p)
  }

  // The act is due: an acknowledgement below the size when enough has become durable since the last one, a report when
  // enough has been written since the last one or its time has come.
  ghost predicate Due(c: Config, env: Env, p: Trace, a: Act)
  {
    match a
    case Send(FileAck(n)) => n < c.file.size ==> n - Told(p).acked >= c.durableAckInterval
    case Send(FileProgress(n)) => n - Told(p).reported >= 524288 || env.due(p)
    case _ => true
  }

  ghost predicate AllDue(c: Config, env: Env, t: Trace)
  {
    t.Then? ==> AllDue(c, env, t.before) && Due(c, env, t.before, t.act)
  }

  ghost predicate Timed(c: Config, env: Env, s: Receiver)
  {
    && AllDue(c, env, s.trace)
    && Told(s.trace).cancels == (if s.status.Failed? then 1 else 0)
    && (s.status.Running? ==>
          && s.lastDurable <= s.expectedOffset
          && Told(s.trace).reported == s.lastProgressAck
          && (s.lastDurable < c.file.size ==> Told(s.trace).acked == s.lastDurable))
  }

  // Between two events: what is not reported yet did not have to be.
  ghost predicate Prompt(c: Config, env: Env, s: Receiver)
  {
    s.status.Running? && s.lastProgressAck != s.expectedOffset && s.expectedOffset < c.file.size ==> !env.due(s.trace)
  }

  // ---------- the receive loop ----------

  lemma Quiet(c: Config, env: Env, t: Trace, a: Act)
    requires AllDue(c, env, t) && !a.Send?
    ensures AllDue(c, env, Then(t, a)) && Told(Then(t, a)) == Told(t)
  {}

  lemma FailTimed(c: Config, env: Env, s: Receiver, reason: Reason)
    requires AllDue(c, env, s.trace) && Told(s.trace).cancels == 0
    ensures Timed(c, env, Fail(s, reason))
  {}

  lemma DiskFailTimed(c: Config, env: Env, s: Receiver)
    requires AllDue(c, env, s.trace) && Told(s.trace).cancels == 0
    ensures Timed(c, env, Fail(Do(s, Fruitless), DiskError))
  {
    Quiet(c, env, s.trace, Fruitless);
    FailTimed(c, env, Do(s, Fruitless), DiskError);
  }

  lemma SidecarTimed(c: Config, env: Env, s: Receiver, sidecar: Sidecar)
    requires s.status.Running? && AllDue(c, env, s.trace) && Told(s.trace).cancels == 0
    ensures var r := WritePartialMetadata(env, s, sidecar);
      if r.status.Running? then r == s.(trace := r.trace) && AllDue(c, env, r.trace) && Told(r.trace) == Told(s.trace)
      else r.status.Failed? && Timed(c, env, r)
  {
    hide Timed, AllDue, Told;
    DiskFailTimed(c, env, s);
    Quiet(c, env, s.trace, WriteRenewed(sidecar));
    var s1 := Do(s, WriteRenewed(sidecar));
    DiskFailTimed(c, env, s1);
    Quiet(c, env, s1.trace, ReplaceSidecar);
  }

  lemma CheckpointTimed(c: Config, env: Env, s: Receiver)
    requires s.status.Running? && Timed(c, env, s) && c.file.commitAck
    requires s.expectedOffset < c.file.size ==> s.expectedOffset - s.lastDurable >= c.durableAckInterval
    ensures var r := Checkpoint(c, env, s);
      Timed(c, env, r) && (r.status.Running? || r.status.Failed?) && r.end == s.end
  {
    DiskFailTimed(c, env, s);
    Quiet(c, env, s.trace, SyncPart);
    var s1 := Do(s, SyncPart).(lastDurable := s.expectedOffset);
    SidecarTimed(c, env, s1, Sidecar(c.file, s1.lastDurable));
    hide WritePartialMetadata;
  }

  lemma AppendTimed(c: Config, env: Env, s: Receiver)
    requires s.status.Running? && Timed(c, env, s) && s.expectedIndex in s.pending
    ensures var r := Append(env, s);
      && Timed(c, env, r) && (r.status.Running? || r.status.Failed?)
      && (r.status.Running? ==> r.lastDurable == s.lastDurable)
  {
    var piece := s.pending[s.expectedIndex];
    var torn := WritePart(s.filePos, piece.data[..Min(env.torn(s.trace), |piece.data|)]);
    FailTimed(c, env, s, BrokenContinuity);
    Quiet(c, env, s.trace, torn);
    FailTimed(c, env, Do(s, torn), DiskError);
    Quiet(c, env, s.trace, WritePart(s.filePos, piece.data));
  }

  lemma ReportTimed(c: Config, env: Env, s: Receiver)
    requires s.status.Running? && Timed(c, env, s) && c.file.progressAck
    ensures Timed(c, env, Report(c, env, s)) && Report(c, env, s).status.Running? && Prompt(c, env, Report(c, env, s))
  {}

  lemma WriteNextTimed(c: Config, env: Env, s: Receiver)
    requires s.status.Running? && Timed(c, env, s) && s.expectedIndex in s.pending && Modern(c)
    ensures var r := WriteNext(c, env, s);
      Timed(c, env, r) && Prompt(c, env, r) && (r.status.Running? || r.status.Failed?)
  {
    hide Append, Checkpoint, Report, Timed;
    AppendTimed(c, env, s);
    var s1 := Append(env, s);
    if s1.status.Running? {
      var s2 := s1;
      if s1.expectedOffset - s1.lastDurable >= c.durableAckInterval || s1.expectedOffset == c.file.size {
        CheckpointTimed(c, env, s1);
        s2 := Checkpoint(c, env, s1);
      }
      if s2.status.Running? { ReportTimed(c, env, s2); }
    }
  }

  lemma {:induction false} DrainTimed(c: Config, env: Env, s: Receiver)
    requires s.status.Running? && Timed(c, env, s) && Prompt(c, env, s) && Modern(c)
    ensures var r := Drain(c, env, s);
      Timed(c, env, r) && Prompt(c, env, r) && (r.status.Running? || r.status.Failed?)
    decreases |s.pending|
  {
    hide WriteNext, Timed, Prompt;
    if s.expectedIndex in s.pending {
      assert s.pending == (s.pending - {s.expectedIndex})[s.expectedIndex := s.pending[s.expectedIndex]];
      WriteNextTimed(c, env, s);
      ReceiveLoops.WriteNextShrinks(c, env, s);
      var t := WriteNext(c, env, s);
      if t.status.Running? { DrainTimed(c, env, t); }
    }
  }

  lemma PromoteTimed(c: Config, env: Env, s: Receiver)
    requires s.status.Running? && Timed(c, env, s)
    ensures var r := Promote(c, env, s); Timed(c, env, r) && !r.status.Running?
  {
    DiskFailTimed(c, env, s);
    Quiet(c, env, s.trace, ClosePart);
    var s1 := Do(s, ClosePart);
    var s2 := if c.overwrite then Try(env, s1, RemoveDest) else s1;
    if c.overwrite { Quiet(c, env, s1.trace, s2.trace.act); }
    DiskFailTimed(c, env, s2);
    var s3 := Do(s2, RenamePart);
    Quiet(c, env, s2.trace, RenamePart);
    Quiet(c, env, s3.trace, Try(env, s3, RemoveSidecar).trace.act);
  }

  lemma RejectTimed(c: Config, env: Env, s: Receiver)
    requires s.status.Running? && Timed(c, env, s)
    ensures Timed(c, env, Try(env, Try(env, Fail(s, DigestMismatch), RemovePart), RemoveSidecar))
  {
    FailTimed(c, env, s, DigestMismatch);
    var s1 := Fail(s, DigestMismatch);
    var s2 := Try(env, s1, RemovePart);
    Quiet(c, env, s1.trace, s2.trace.act);
    Quiet(c, env, s2.trace, Try(env, s2, RemoveSidecar).trace.act);
  }

  lemma CompleteTimed(c: Config, env: Env, s: Receiver)
    requires s.status.Running? && Timed(c, env, s) && c.file.commitAck
    ensures Timed(c, env, Complete(c, env, s)) && (Complete(c, env, s).status.Running? ==> Complete(c, env, s) == s)
  {
    if s.end.Some? {
      RejectTimed(c, env, s);
      var s1 := Do(s, CheckDigest(Wanted(c, s.end.value)));
      Quiet(c, env, s.trace, CheckDigest(Wanted(c, s.end.value)));
      hide Promote, Checkpoint, EqualFold, AllDue, Told;
      PromoteTimed(c, env, s1);
      if s.expectedOffset == c.file.size { CheckpointTimed(c, env, s1); }
      var s2 := Checkpoint(c, env, s1);
      if s.expectedOffset == c.file.size && s2.status.Running? { PromoteTimed(c, env, s2); }
    }
  }

  lemma OnChunkTimed(c: Config, env: Env, s: Receiver, e: Event)
    requires e.Chunk? && s.status.Running? && Timed(c, env, s) && Prompt(c, env, s) && Modern(c)
    ensures Timed(c, env, OnChunk(c, env, s, e)) && Prompt(c, env, OnChunk(c, env, s, e))
  {
    hide Drain, Complete, AllDue, Told;
    FailTimed(c, env, s, BadIndexOrLength);
    FailTimed(c, env, s, BadOffsetOrLength);
    FailTimed(c, env, s, DuplicatePending);
    var s1 := Held1(s, e);
    FailTimed(c, env, s1, BufferExceeded);
    DrainTimed(c, env, s1);
    var s2 := Drain(c, env, s1);
    if s2.status.Running? { CompleteTimed(c, env, s2); }
  }

  lemma OnEventTimed(c: Config, env: Env, s: Receiver, e: Event)
    requires Timed(c, env, s) && Prompt(c, env, s) && Modern(c)
    ensures Timed(c, env, OnEvent(c, env, s, e)) && Prompt(c, env, OnEvent(c, env, s, e))
  {
    hide OnChunk, Complete, AllDue, Told;
    if s.status.Running? {
      match e
      case Chunk(_, _, _, _, _) => OnChunkTimed(c, env, s, e);
      case End(sha256) => CompleteTimed(c, env, s.(end := Some(sha256)));
      case Deadline => FailTimed(c, env, s, MissingChunks);
      case _ =>
    }
  }

  lemma {:induction false} RunTimed(c: Config, env: Env, s: Receiver, events: seq<Event>)
    requires Timed(c, env, s) && Prompt(c, env, s) && Modern(c)
    ensures Timed(c, env, Run(c, env, s, events)) && Prompt(c, env, Run(c, env, s, events))
  {
    if events != [] {
      var init, e := events[..|events| - 1], events[|events| - 1];
      RunTimed(c, env, s, init);
      OnEventTimed(c, env, Run(c, env, s, init), e);
    }
  }

  // ---------- the start ----------

  lemma OpenTimed(c: Config, env: Env, s: Receiver, offset: int)
    requires s.status.Running? && AllDue(c, env, s.trace) && Told(s.trace) == Heard(0, 0, 0)
    ensures var r := OpenPartial(c, env, s, offset);
      if r.status.Running? then r == s.(trace := r.trace) && AllDue(c, env, r.trace) && Told(r.trace) == Heard(0, 0, 0)
      else Timed(c, env, r)
  {
    DiskFailTimed(c, env, s);
    Quiet(c, env, s.trace, OpenPart(offset == 0));
    SidecarTimed(c, env, Do(s, OpenPart(offset == 0)), Sidecar(c.file, offset));
    hide WritePartialMetadata, Told, AllDue, Timed;
  }

  lemma UnreadableTimed(c: Config, env: Env, s: Receiver, answer: Message)
    requires AllDue(c, env, s.trace) && Told(s.trace) == Heard(0, 0, 0) && (answer.Accept? || answer.ResumeState?)
    ensures Timed(c, env, Unreadable(env, s, answer))
  {
    FailTimed(c, env, s, DiskError);
    FailTimed(c, env, Say(s, answer), DiskError);
  }

  lemma BeginTimed(c: Config, env: Env, s: Receiver, offset: int)
    requires c.file.chunkSize > 0 && s == IDLE.(trace := s.trace) && offset >= 0
    requires AllDue(c, env, s.trace) && Told(s.trace) == Heard(0, 0, 0)
    ensures Timed(c, env, BeginLoop(c, env, s, offset)) && Prompt(c, env, BeginLoop(c, env, s, offset))
  {
    var answer := if offset > 0 then ResumeState(offset) else Accept;
    Quiet(c, env, s.trace, Fruitless);
    UnreadableTimed(c, env, Do(s, Fruitless), answer);
    UnreadableTimed(c, env, s, answer);
    hide Unreadable, ViewOf;
  }

  lemma StartTimed(c: Config, env: Env, maxFileSize: int, found: Disk)
    requires ValidMetadata(c.file) ==> Fits(c.file)
    ensures var s := StartReceive(c, env, maxFileSize, found); Timed(c, env, s) && Prompt(c, env, s)
  {
    var s := IDLE.(trace := Begin(found));
    FailTimed(c, env, s, InvalidMetadata);
    FailTimed(c, env, s, TooLarge);
    FailTimed(c, env, s, DestinationExists);
    if ValidMetadata(c.file) {
      var offset := if c.file.resume then MatchingPartial(found, c.file) else 0;
      Aligned(found, c.file);
      OpenTimed(c, env, s, offset);
      var s1 := OpenPartial(c, env, s, offset);
      if s1.status.Running? { BeginTimed(c, env, s1, offset); }
    }
    hide OpenPartial, BeginLoop, MatchingPartial, ValidMetadata, Timed;
  }

  // ---------- what a session tells ----------

  lemma {:induction false} DueMoment(c: Config, env: Env, p: Trace, a: Act, t: Trace)
    requires AllDue(c, env, t) && Moment(Then(p, a), t)
    ensures Due(c, env, p, a)
    decreases t
  {
    if Then(p, a) != t { DueMoment(c, env, p, a, t.before); }
  }

  /** Messages go out when they are due and not before: an acknowledgement below the size only when the durable interval
      has been written since the last one, a report only after 512 KiB or when its time has come. */
  lemma OnlyWhenDue(x: Session, found: Disk, p: Trace, n: int)
    requires Configured(x.c) && Modern(x.c)
    ensures Moment(Then(p, Send(FileAck(n))), Sessions.End(x, found).trace) && n < x.c.file.size ==>
      n - Told(p).acked >= x.c.durableAckInterval
    ensures Moment(Then(p, Send(FileProgress(n))), Sessions.End(x, found).trace) ==>
      n - Told(p).reported >= 524288 || x.env.due(p)
  {
    SessionTimed(x, found);
    hide Sessions.End;
    if Moment(Then(p, Send(FileAck(n))), Sessions.End(x, found).trace) {
      DueMoment(x.c, x.env, p, Send(FileAck(n)), Sessions.End(x, found).trace);
    }
    if Moment(Then(p, Send(FileProgress(n))), Sessions.End(x, found).trace) {
      DueMoment(x.c, x.env, p, Send(FileProgress(n)), Sessions.End(x, found).trace);
    }
  }

  lemma SessionTimed(x: Session, found: Disk)
    requires Configured(x.c) && Modern(x.c)
    ensures Timed(x.c, x.env, Sessions.End(x, found)) && Prompt(x.c, x.env, Sessions.End(x, found))
  {
    StartTimed(x.c, x.env, x.maxFileSize, found);
    RunTimed(x.c, x.env, StartReceive(x.c, x.env, x.maxFileSize, found), x.events);
    hide StartReceive, Run;
  }

  /** Nothing that is due is left out: while a session runs, the sender has been told of every durable byte below the
      size, of all but less than the durable interval of the written ones unless everything is written, and of all but
      less than 512 KiB by the reports, and of all of them when the period of a report has passed. A session cancels
      exactly once when it fails, and otherwise never. */
  lemma ToldInTime(x: Session, found: Disk)
    requires Configured(x.c) && Modern(x.c)
    ensures var r := Sessions.End(x, found); var told := Told(r.trace);
      && told.cancels == (if r.status.Failed? then 1 else 0)
      && (r.status.Running? && r.expectedOffset < x.c.file.size ==>
            && told.acked == r.lastDurable
            && 0 <= r.expectedOffset - told.acked < x.c.durableAckInterval
            && 0 <= r.expectedOffset - told.reported < 524288
            && (told.reported == r.expectedOffset || !x.env.due(r.trace)))
  {
    SessionTimed(x, found);
    var r := Sessions.End(x, found);
    if r.status.Running? {
      var k := Claim(_ => [], false, found);
      StillRunning(x, k);
      AllWritten(x.c, k, r);
    }
    hide Sessions.End, GoodConfig, AllDue, Told, Placed, PendingSound, Logged;
  }

  // ---------- the sender's flags ----------

  lemma {:induction false} RunGrows(c: Config, env: Env, s: Receiver, events: seq<Event>)
    requires s.status.Running?
    ensures Grows(c, s, Run(c, env, s, events))
  {
    if events != [] {
      var init, e := events[..|events| - 1], events[|events| - 1];
      RunGrows(c, env, s, init);
      var t := Run(c, env, s, init);
      if t.status.Running? {
        OnEventGrows(c, env, t, e);
        hide OnEvent, Grows;
        GrowsOn(c, s, t, OnEvent(c, env, t, e));
      }
    }
  }

  /** The sender's flags choose the messages: reports are file_progress with its flag and file_ack without, and nothing
      else is file_progress. Every durable mark a running session has reached is acknowledged, the size itself only
      without the other flag. */
  lemma FlagsChooseMessages(x: Session, found: Disk)
    requires Configured(x.c) && StartReceive(x.c, x.env, x.maxFileSize, found).status.Running?
    ensures var r, file := Sessions.End(x, found), x.c.file;
      && file.chunkSize > 0
      && (forall m | m in r.out && m.FileProgress? :: file.progressAck)
      && (r.status.Running? ==>
            && (r.lastProgressAck == Offered(x.c, found)
                || (if file.progressAck then FileProgress(r.lastProgressAck) else FileAck(r.lastProgressAck)) in r.out)
            && (r.lastDurable == Offered(x.c, found)
                || FileAck(r.lastDurable) in r.out || (r.lastDurable >= file.size && file.commitAck)))
  {
    var s := StartReceive(x.c, x.env, x.maxFileSize, found);
    StartKeeps(x.c, Claim(_ => [], false, found), x.env, x.maxFileSize, found);
    hide StartReceive, Waiting;
    RunGrows(x.c, x.env, s, x.events);
  }
}
