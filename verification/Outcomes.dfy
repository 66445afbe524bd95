/** How a receive session ends: by the digest, by the timeout, by an event, by a chunk it refuses. */
module Outcomes {
  import opened Wrappers
  import opened Chunking
  import opened Disks
  import opened Receiving
  import opened ReceiveInvariant
  import opened Histories
  import opened Sessions

  // ---------- digests ----------

  // hex.EncodeToString prints only these.
  predicate LowerHex(s: string) { forall i | 0 <= i < |s| :: '0' <= s[i] <= '9' || 'a' <= s[i] <= 'f' }

  // The same letter, one small and one capital.
  predicate CapitalOf(big: char, small: char)
  {
    'A' <= big <= 'Z' && 'a' <= small <= 'z' && (big as int) - ('A' as int) == (small as int) - ('a' as int)
  }

  // Equal but for the case of letters.
  predicate SameButCase(a: string, b: string)
  {
    |a| == |b| && forall i | 0 <= i < |a| :: a[i] == b[i] || CapitalOf(a[i], b[i]) || CapitalOf(b[i], a[i])
  }

  lemma FoldMeans(a: string, b: string)
    ensures EqualFold(a, b) <==> SameButCase(a, b)
    ensures LowerHex(a) && LowerHex(b) ==> (SameButCase(a, b) <==> a == b)
  {}

  // The digest a session asks for: that of the metadata, else that of the end message.
  function Asked(c: Config, end: string): string { if c.file.sha256 == "" then end else c.file.sha256 }

  // What the digest has decided once everything is written and the end is known.
  ghost predicate Decided(c: Config, k: Claim, env: Env, r: Receiver)
  {
    && (r.status.Committed? || r.status == Failed(DigestMismatch) ==> r.end.Some? && r.expectedOffset == c.file.size)
    && (r.end.Some? && r.expectedOffset == c.file.size ==>
          var asked := Asked(c, r.end.value);
          && !r.status.Running?
          && (r.status.Committed? ==> asked == "" || SameButCase(asked, c.hash(r.hashed)))
          && (r.status == Failed(DigestMismatch) ==>
                asked != "" && !SameButCase(asked, c.hash(r.hashed)) && Now(r.trace).dest == k.found.dest)
          && (AllOk(env) ==>
                && r.status in {Committed, Failed(DigestMismatch)}
                && Now(r.trace).part.None? && Now(r.trace).sidecar.None?))
  }

  lemma DecidedStep(c: Config, k: Claim, env: Env, s: Receiver, e: Event)
    requires GoodConfig(c, k) && Inv(c, k, s) && Truthful(c, k, e) && Decided(c, k, env, s)
    ensures Decided(c, k, env, OnEvent(c, env, s, e))
  {
    if s.status.Running? {
      OnEventKeeps(c, k, env, s, e);
      match e
      case Chunk(_, _, _, _, _) => DecidedChunk(c, k, env, s, e);
      case End(sha256) => DecidedEnd(c, k, env, s, e);
      case _ =>
    }
  }

  lemma DecidedEnd(c: Config, k: Claim, env: Env, s: Receiver, e: Event)
    requires GoodConfig(c, k) && Waiting(c, k, s) && e.End?
    ensures Decided(c, k, env, OnEvent(c, env, s, e))
  {
    var s1 := s.(end := Some(e.sha256));
    CompleteKeeps(c, k, env, s1);
    AllWritten(c, k, s1);
    CompleteEnd(c, env, s1);
    FoldMeans(Asked(c, e.sha256), c.hash(s.hashed));
    hide Core, Over, Timely, Complete, SameButCase, EqualFold, ViewOf;
  }

  lemma DecidedChunk(c: Config, k: Claim, env: Env, s: Receiver, e: Event)
    requires GoodConfig(c, k) && Waiting(c, k, s) && e.Chunk? && Truthful(c, k, e)
    ensures Decided(c, k, env, OnEvent(c, env, s, e))
  {
    if Accepts(c, s, e) {
      DecidedNew(c, k, env, s, e);
    } else {
      OnChunkCases(c, k, env, s, e);
      hide OnChunk, Core, Timely, SameButCase, EqualFold, ViewOf, Drain, Complete, GoodConfig, Truthful, WellFormed;
    }
  }

  lemma DecidedNew(c: Config, k: Claim, env: Env, s: Receiver, e: Event)
    requires GoodConfig(c, k) && Waiting(c, k, s) && Truthful(c, k, e) && Accepts(c, s, e)
    ensures Decided(c, k, env, OnEvent(c, env, s, e))
  {
    assert s.status.Running?;
    hide OnEvent, Core, Timely, SameButCase, EqualFold, ViewOf, Drained, GoodConfig, Truthful, Logged, Whole,
         WellFormed;
    var r := OnEvent(c, env, s, e);
    ChunkOutcome(c, k, env, s, e);
    OnEventKeeps(c, k, env, s, e);
    if s.end.Some? { FoldMeans(Asked(c, s.end.value), c.hash(r.hashed)); }
  }

  lemma {:induction false} DecidedRun(c: Config, k: Claim, env: Env, s: Receiver, events: seq<Event>)
    requires GoodConfig(c, k) && Inv(c, k, s) && Decided(c, k, env, s)
    requires forall e | e in events :: Truthful(c, k, e)
    ensures Decided(c, k, env, Run(c, env, s, events))
  {
    if events != [] {
      var init, e := events[..|events| - 1], events[|events| - 1];
      RunKeeps(c, k, env, s, init);
      DecidedRun(c, k, env, s, init);
      DecidedStep(c, k, env, Run(c, env, s, init), e);
    }
  }

  /** A session commits only bytes with the digest asked for: that of the metadata or, when that has none, that of the
      end message; digests that differ only in the case of letters are the same. Over a working disk, once everything
      is written and the end is known, it commits exactly when the digests agree or none was asked for, and leaves no
      part file and no sidecar either way. */
  lemma DigestDecides(x: Session, found: Disk)
    requires Configured(x.c)
    ensures var r := Sessions.End(x, found);
      && (r.status.Committed? || r.status == Failed(DigestMismatch) ==>
            r.end.Some? && r.expectedOffset == x.c.file.size)
      && (r.end.Some? && r.expectedOffset == x.c.file.size ==>
            var asked, got := Asked(x.c, r.end.value), x.c.hash(r.hashed);
            && Receiving.End(r.end.value) in x.events
            && (r.status.Committed? ==> asked == "" || SameButCase(asked, got))
            && (r.status.Committed? && asked != "" && LowerHex(asked) && LowerHex(got) ==> got == asked)
            && (AllOk(x.env) ==>
                  && (r.status.Committed? <==> asked == "" || SameButCase(asked, got))
                  && (LowerHex(asked) && LowerHex(got) ==> (r.status.Committed? <==> asked == "" || got == asked))
                  && (!r.status.Committed? ==>
                        r.status == Failed(DigestMismatch) && Now(r.trace).dest == found.dest)
                  && Now(r.trace).part.None? && Now(r.trace).sidecar.None?))
  {
    var k := Claim(_ => [], false, found);
    var s, r := StartReceive(x.c, x.env, x.maxFileSize, found), Sessions.End(x, found);
    StartKeeps(x.c, k, x.env, x.maxFileSize, found);
    SessionOrderly(x, found);
    if s.status.Running? {
      DecidedRun(x.c, k, x.env, s, x.events);
    } else {
      RunStays(x.c, x.env, s, x.events);
      StartOrderly(x.c, x.env, x.maxFileSize, found);
    }
    if r.end.Some? { FoldMeans(Asked(x.c, r.end.value), x.c.hash(r.hashed)); }
    hide StartReceive, Run, Inv, Orderly, EqualFold, SameButCase, LowerHex, GoodConfig, Allowed, Ready, HonestDisk,
         ViewOf;
  }

  /** Only a session that commits renames, once, with the part file just closed and, when it may overwrite, the old
      destination just removed, or nothing there to remove. */
  lemma RenameOnce(x: Session, found: Disk, p: Trace)
    requires Configured(x.c) && Moment(Then(p, RenamePart), Sessions.End(x, found).trace)
    ensures Sessions.End(x, found).status.Committed? && p.Then?
    ensures if x.c.overwrite then
        (p.act.RemoveDest? || p.act.Fruitless?) && p.before.Then? && p.before.act.ClosePart?
      else p.act.ClosePart?
    ensures forall q :: !Moment(Then(q, RenamePart), p)
  {
    SessionOrderly(x, found);
    var r := Sessions.End(x, found);
    hide Sessions.End, Moment, Preparing, Landed;
    if r.status.Committed? {
      RenameMoment(p, r.trace, x.c);
    } else {
      NoRename(p, r.trace, x.c);
    }
  }

  /** Once the sender has its answer, a sidecar is put in place only when the part file is synced, and records exactly
      the synced bytes. */
  lemma SidecarSynced(x: Session, found: Disk, p: Trace)
    requires Configured(x.c) && Moment(Then(p, ReplaceSidecar), Sessions.End(x, found).trace) && ViewOf(p).sent != []
    ensures var d := Now(p);
      d.part == Some(d.synced) && Now(Then(p, ReplaceSidecar)).sidecar == Some(Sidecar(x.c.file, |d.synced|))
  {
    var k := Claim(_ => [], false, found);
    SessionSound(x, k);
    SoundMoment(x.c, k, Then(p, ReplaceSidecar), Sessions.End(x, found).trace);
    hide Sessions.End, DestSound, HonestDisk;
  }

  // ---------- events that end a session ----------

  // The session with one more event.
  function More(x: Session, e: Event): Session { x.(events := x.events + [e]) }

  lemma OneMore(x: Session, found: Disk, e: Event)
    ensures Sessions.End(More(x, e), found) == OnEvent(x.c, x.env, Sessions.End(x, found), e)
  {
    var events := x.events + [e];
    assert events[..|events| - 1] == x.events;
  }

  // u is r after one more message, with another status and nothing else.
  predicate SaysOnly(r: Receiver, u: Receiver, m: Message, status: Status)
  {
    u == r.(status := status, out := r.out + [m], trace := u.trace) && Now(u.trace) == Now(r.trace)
  }

  lemma FailSays(r: Receiver, reason: Reason)
    ensures SaysOnly(r, Fail(r, reason), FileCancel, Failed(reason))
  {}

  // A running session has its invariant, whatever arrived.
  lemma RunningWaits(x: Session, found: Disk) returns (k: Claim)
    requires Configured(x.c) && Sessions.End(x, found).status.Running?
    ensures k == Claim(_ => [], false, found) && !k.honest
    ensures GoodConfig(x.c, k) && Waiting(x.c, k, Sessions.End(x, found))
  {
    k := Claim(_ => [], false, found);
    StillRunning(x, k);
  }

  /** A timeout ends a running session exactly when the end message has arrived, and then a chunk is still missing: the
      session fails with one cancel message and leaves the disk as it is. Without the end message nothing happens. */
  lemma TimeoutEnds(x: Session, found: Disk)
    requires Configured(x.c) && Sessions.End(x, found).status.Running?
    ensures var r, u := Sessions.End(x, found), Sessions.End(More(x, Deadline), found);
      if exists e :: e in x.events && e.End? then
        SaysOnly(r, u, FileCancel, Failed(MissingChunks))
      else u == r
    ensures var r := Sessions.End(x, found);
      r.end.Some? ==> r.expectedIndex < x.c.file.totalChunks && r.expectedIndex !in r.pending
  {
    hide Sessions.End, Orderly, GoodConfig, SaysOnly, ViewOf, Logged, Mirrored, PendingSound, Timely;
    OneMore(x, found, Deadline);
    SessionOrderly(x, found);
    var r := Sessions.End(x, found);
    var k := RunningWaits(x, found);
    AllWritten(x.c, k, r);
    FailSays(r, MissingChunks);
  }

  /** A cancellation or a closed channel ends a running session with no message, and leaves the disk and what is known
      as they are. */
  lemma StopEnds(x: Session, found: Disk, e: Event)
    requires (e.Cancelled? || e.Closed?) && Sessions.End(x, found).status.Running?
    ensures Sessions.End(More(x, e), found) == Sessions.End(x, found).(status := Stopped)
  {
    OneMore(x, found, e);
    hide Sessions.End;
  }

  // The chunk carries another id, an index outside the file, or not the bytes it announces.
  predicate Misnumbered(x: Session, e: Event)
    requires e.Chunk?
  {
    e.id != x.c.id || e.index < 0 || e.index >= x.c.file.totalChunks || e.length != |e.data|
  }

  // The chunk is not where its index says, or not as long as the file makes it.
  predicate Misplaced(x: Session, e: Event)
    requires e.Chunk?
  {
    var m := x.c.file;
    e.offset != e.index * m.chunkSize || |e.data| != Min(m.chunkSize, m.size - e.index * m.chunkSize)
  }

  lemma ChunkTests(c: Config, k: Claim, env: Env, r: Receiver, e: Event)
    requires GoodConfig(c, k) && Waiting(c, k, r) && !k.honest && e.Chunk?
    ensures var u := OnEvent(c, env, r, e);
      if e.id != c.id || e.index < 0 || e.index >= c.file.totalChunks || e.length != |e.data| then
        u == Fail(r, BadIndexOrLength)
      else if e.offset != e.index * c.file.chunkSize || |e.data| != ChunkLen(c.file, e.index) then
        u == Fail(r, BadOffsetOrLength)
      else if e.index < r.expectedIndex then u == r
      else if e.index in r.pending then u == Fail(r, DuplicatePending)
      else if r.pendingBytes + |e.data| > c.maxReorderBufferBytes then u == Fail(Held1(r, e), BufferExceeded)
      else u.status in {Running, Committed, Failed(DigestMismatch), Failed(DiskError)}
  {
    assert r.status.Running?;
    OnChunkCases(c, k, env, r, e);
    if Accepts(c, r, e) { ChunkOutcome(c, k, env, r, e); }
    hide Waiting, GoodConfig, Drain, Complete, Drained;
  }

  /** Which chunks end a running session, with one cancel message and no act on the disk, and which change nothing. */
  lemma ChunkRefusals(x: Session, found: Disk, e: Event)
    requires Configured(x.c) && Sessions.End(x, found).status.Running?
    requires e.Chunk?
    ensures var r, u := Sessions.End(x, found), Sessions.End(More(x, e), found);
      if Misnumbered(x, e) then SaysOnly(r, u, FileCancel, Failed(BadIndexOrLength))
      else if Misplaced(x, e) then SaysOnly(r, u, FileCancel, Failed(BadOffsetOrLength))
      else if e.index < r.expectedIndex then u == r
      else if e.index in r.pending then SaysOnly(r, u, FileCancel, Failed(DuplicatePending))
      else if r.pendingBytes + |e.data| > x.c.maxReorderBufferBytes then
        u.status == Failed(BufferExceeded) && u.out == r.out + [FileCancel] && Now(u.trace) == Now(r.trace)
      else u.status in {Running, Committed, Failed(DigestMismatch), Failed(DiskError)}
  {
    hide Sessions.End, OnEvent, Waiting, GoodConfig, SaysOnly;
    OneMore(x, found, e);
    var r := Sessions.End(x, found);
    var k := RunningWaits(x, found);
    ChunkTests(x.c, k, x.env, r, e);
    FailSays(r, BadIndexOrLength);
    FailSays(r, BadOffsetOrLength);
    FailSays(r, DuplicatePending);
  }

  // ---------- how a session starts ----------

  // What validFileMetadata asks for, the int64 range of the size included.
  predicate Acceptable(m: FileMetadata)
  {
    && 1 <= |m.name| <= 255 && 0 <= m.size <= 0x7FFF_FFFF_FFFF_FFFF && 1 <= m.chunkSize <= 1048576
    && m.totalChunks == TotalChunks(m.size, m.chunkSize)
    && (m.sha256 == "" ||
        (|m.sha256| == 64
         && forall i | 0 <= i < 64 ::
              '0' <= m.sha256[i] <= '9' || 'a' <= m.sha256[i] <= 'f' || 'A' <= m.sha256[i] <= 'F'))
  }

  /** Why an offer is refused: its metadata, then its size, then a destination that may not be overwritten, each with
      one cancel message and before any act on the disk. A session that starts has offered the bytes that can be
      resumed, or none when the sender does not want to resume. */
  lemma StartVerdict(c: Config, env: Env, maxFileSize: int, found: Disk)
    requires ValidMetadata(c.file) ==> Fits(c.file)
    ensures var r, m := StartReceive(c, env, maxFileSize, found), c.file;
      && (r.status == Failed(InvalidMetadata) <==> !Acceptable(m))
      && (r.status == Failed(TooLarge) <==> Acceptable(m) && 0 < maxFileSize < m.size)
      && (r.status == Failed(DestinationExists) <==>
            Acceptable(m) && !(0 < maxFileSize < m.size) && !c.overwrite && found.dest.Some?)
      && (r.status in {Failed(InvalidMetadata), Failed(TooLarge), Failed(DestinationExists)} ==>
            r.trace == Then(Begin(found), Send(FileCancel)) && r.out == [FileCancel])
      && (r.status.Running? ==>
            && Acceptable(m)
            && var n := if m.resume then MatchingPartial(found, m) else 0;
            r.expectedOffset == n && r.out == [if n > 0 then ResumeState(n) else Accept])
  {
    assert ValidMetadata(c.file) <==> Acceptable(c.file);
    if ValidMetadata(c.file) {
      var offset := if c.file.resume then MatchingPartial(found, c.file) else 0;
      Aligned(found, c.file);
      StartsOrDisk(c, env, found, offset);
    }
    hide OpenPartial, BeginLoop, MatchingPartial, ValidMetadata, Acceptable, Fits;
  }

  // Once the offer is admitted, only the disk can stop it.
  lemma StartsOrDisk(c: Config, env: Env, found: Disk, offset: int)
    requires c.file.chunkSize > 0
    ensures var s1 := OpenPartial(c, env, IDLE.(trace := Begin(found)), offset);
      && (!s1.status.Running? ==> s1.status == Failed(DiskError))
      && (s1.status.Running? ==>
            var r := BeginLoop(c, env, s1, offset);
            && (!r.status.Running? ==> r.status == Failed(DiskError))
            && (r.status.Running? ==>
                  r.expectedOffset == offset && r.out == [if offset > 0 then ResumeState(offset) else Accept]))
  {
    hide ViewOf;
  }

  // ---------- which part file an offer resumes ----------

  // The same file as far as name, size, date, chunk size and, where both have one, digest tell.
  predicate Alike(kept: FileMetadata, offered: FileMetadata)
  {
    && kept.name == offered.name && kept.size == offered.size
    && kept.lastModified == offered.lastModified && kept.chunkSize == offered.chunkSize
    && (kept.sha256 != "" && offered.sha256 != "" ==> SameButCase(kept.sha256, offered.sha256))
  }

  /** An offer is resumed exactly when the sidecar is for an alike file and the part file has the recorded length, a
      chunk boundary inside the file; the media type and the sender's flags do not matter. */
  lemma ResumeCondition(d: Disk, offered: FileMetadata)
    requires offered.chunkSize > 0
    ensures var n := MatchingPartial(d, offered);
      && 0 <= n
      && (n > 0 <==>
            && d.sidecar.Some? && d.part.Some? && Alike(d.sidecar.value.file, offered)
            && 0 < d.sidecar.value.receivedBytes == |d.part.value| <= offered.size
            && |d.part.value| % offered.chunkSize == 0)
      && (n > 0 ==> n == |d.part.value|)
  {
    if d.sidecar.Some? { FoldMeans(d.sidecar.value.file.sha256, offered.sha256); }
    hide EqualFold, SameButCase;
  }

  /** After any stopped sessions for other files, an offer starts at 0, whatever the files denote: a different name,
      size, date or chunk size, or another digest, is enough to tell them apart. */
  lemma OthersResumeApart(world: FileMetadata -> seq<byte>, xs: seq<Session>, d0: Disk, d: Disk, offered: FileMetadata)
    requires Leaves(world, xs, d0, d) && offered.chunkSize > 0
    requires d0.sidecar.Some? ==> !Alike(d0.sidecar.value.file, offered)
    requires forall x | x in xs :: !Alike(x.c.file, offered)
    ensures MatchingPartial(d, offered) == 0
  {
    var used := (set x | x in xs :: x.c.file) + if d0.sidecar.Some? then {d0.sidecar.value.file} else {};
    LeavesUsed(world, used, xs, d0, d);
    ResumeCondition(d, offered);
    hide Leaves, Alike, MatchingPartial;
  }
}
