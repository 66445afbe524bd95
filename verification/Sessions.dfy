/** Receive sessions from start to end or crash: acknowledgements, destination, resume. */
module Sessions {
  import opened Wrappers
  import opened Chunking
  import opened Disks
  import opened Receiving
  import opened ReceiveInvariant
  import opened Histories

  // Among the metadata in use, what matchingPartial takes for the same file denotes the same bytes.
  ghost predicate Consistent(world: FileMetadata -> seq<byte>, used: set<FileMetadata>) {
    && (forall kept, offered | kept in used && offered in used && SameFile(kept, offered) ::
          world(kept) == world(offered))
    && (forall m | m in used && m.size >= 0 :: |world(m)| == m.size)
  }

  // What matchingPartial would take from this disk for the offered file denotes the bytes of that file.
  ghost predicate Denotes(world: FileMetadata -> seq<byte>, d: Disk, offered: FileMetadata) {
    && (offered.size >= 0 ==> |world(offered)| == offered.size)
    && (d.sidecar.Some? && SameFile(d.sidecar.value.file, offered) ==> world(d.sidecar.value.file) == world(offered))
  }

  predicate Configured(c: Config) {
    && c.durableAckInterval > 0 && c.maxReorderBufferBytes > 0
    && (ValidMetadata(c.file) ==> Fits(c.file))
  }

  ghost predicate Ready(c: Config, k: Claim) {
    Configured(c) && (k.honest ==> Denotes(k.world, k.found, c.file))
  }

  // ---------- resuming ----------

  /** A positive resume offset is a chunk boundary inside the file, and the part file is that prefix of it. */
  lemma ResumeIsPrefix(world: FileMetadata -> seq<byte>, d: Disk, offered: FileMetadata)
    requires Admissible(offered) && Denotes(world, d, offered) && HonestDisk(world, d)
    ensures var n := MatchingPartial(d, offered);
      && 0 <= n <= offered.size && n % offered.chunkSize == 0
      && 0 <= n / offered.chunkSize <= offered.totalChunks && Off(offered, n / offered.chunkSize) == n
      && (n > 0 ==> d.part == Some(world(offered)[..n]))
  {
    var n := MatchingPartial(d, offered);
    Aligned(d, offered);
    hide Off, Fits, EqualFold;
    if n > 0 {
      assert SameFile(d.sidecar.value.file, offered);
      assert d.part.value == world(offered)[..n];
    }
  }

  // Files have their length, and a digest stands for the bytes of a file of its size.
  ghost predicate Faithful(world: FileMetadata -> seq<byte>) {
    && (forall m: FileMetadata :: m.size >= 0 ==> |world(m)| == m.size)
    && (forall a: FileMetadata, b: FileMetadata | a.size == b.size && a.sha256 != "" && b.sha256 != ""
          && EqualFold(a.sha256, b.sha256) :: world(a) == world(b))
  }

  // The resume matchingPartial allows starts with the right bytes, whatever the files denote.
  ghost predicate ResumesRight(kept: FileMetadata, offered: FileMetadata, n: int)
    requires offered.chunkSize > 0
  {
    forall world, d | Faithful(world) && Holds(world, d, kept, n) ::
      MatchingPartial(d, offered) == n && 0 <= n <= |world(offered)| && d.part == Some(world(offered)[..n])
  }

  // An honest disk with n bytes of the kept file and a sidecar that says so.
  ghost predicate Holds(world: FileMetadata -> seq<byte>, d: Disk, kept: FileMetadata, n: int) {
    HonestDisk(world, d) && d.sidecar == Some(Sidecar(kept, n)) && d.part.Some? && |d.part.value| == n
  }

  /** Where the code resumes, the bytes are right for every faithful world if and only if the metadata is the very same
      or both sides carry a digest: the test on the digests is sound exactly when there are digests to compare. */
  lemma ResumeExact(kept: FileMetadata, offered: FileMetadata, n: int)
    requires Admissible(offered) && SameFile(kept, offered)
    requires 0 < n <= offered.size && n % offered.chunkSize == 0
    ensures ResumesRight(kept, offered, n) <==> kept == offered || (kept.sha256 != "" && offered.sha256 != "")
  {
    if kept == offered || (kept.sha256 != "" && offered.sha256 != "") {
      forall world: FileMetadata -> seq<byte>, d: Disk | Faithful(world) && Holds(world, d, kept, n)
        ensures MatchingPartial(d, offered) == n && 0 <= n <= |world(offered)| && d.part == Some(world(offered)[..n])
      {
        assert world(kept) == world(offered);
        assert d.part.value == world(offered)[..n];
      }
    } else {
      Mixup(kept, offered, n);
    }
  }

  // Two different files, one of them without a digest: zeros for that one, ones for all others.
  lemma Mixup(kept: FileMetadata, offered: FileMetadata, n: int)
    requires Admissible(offered) && SameFile(kept, offered) && kept != offered && 0 < n <= offered.size
    requires kept.sha256 == "" || offered.sha256 == ""
    ensures !ResumesRight(kept, offered, n)
  {
    var bare := if kept.sha256 == "" then kept else offered;
    var world: FileMetadata -> seq<byte> := (m: FileMetadata) =>
      if m.size < 0 then [] else Filled(m.size, if m == bare then 0 else 1);
    var part := world(kept)[..n];
    var d := Disk(Some(part), part, Some(Sidecar(kept, n)), None, None);
    assert Faithful(world) && Holds(world, d, kept, n);
    assert world(offered)[..n][0] != part[0];
  }

  function Filled(size: nat, b: byte): (s: seq<byte>)
    ensures |s| == size && forall i | 0 <= i < size :: s[i] == b
  {
    seq(size, _ => b)
  }

  /** Files that all carry a digest, as every offer of SendFile does, are consistent in every faithful world. */
  lemma DigestsAreConsistent(world: FileMetadata -> seq<byte>, used: set<FileMetadata>)
    requires Faithful(world) && forall m | m in used :: m.sha256 != ""
    ensures Consistent(world, used)
  {}

  // Two files with the same name, size, date and chunk size, told apart by their digests.
  predicate ApartByDigest(a: FileMetadata, b: FileMetadata) {
    a.sha256 != "" && b.sha256 != "" && !EqualFold(a.sha256, b.sha256)
  }

  /** A sidecar without a digest matches every digest: its part file can be resumed as the start of another file. */
  lemma DigestlessMixup()
    ensures exists world: FileMetadata -> seq<byte>, d: Disk, offered: FileMetadata ::
      && Admissible(offered) && |world(offered)| == offered.size && HonestDisk(world, d)
      && MatchingPartial(d, offered) == 1 && d.part != Some(world(offered)[..1])
  {
    var digest := seq(64, _ => '0');
    var offered := FileMetadata("f", 2, "", 1, 2, 0, digest, true, true, true);
    var kept := offered.(sha256 := "");
    var world: FileMetadata -> seq<byte> := m => if m == offered then [1, 1] else [0, 0];
    var d := Disk(Some([0]), [0], Some(Sidecar(kept, 1)), None, None);
    assert TotalChunks(2, 1) == 2;
    assert SameFile(kept, offered);
    assert world(kept) == [0] + [0] && world(offered)[..1] == [1];
    assert MatchingPartial(d, offered) == 1 && HonestDisk(world, d);
  }

  lemma Aligned(d: Disk, offered: FileMetadata)
    requires Admissible(offered)
    ensures var n := MatchingPartial(d, offered);
      && 0 <= n <= offered.size && n % offered.chunkSize == 0
      && Off(offered, n / offered.chunkSize) == n && 0 <= n / offered.chunkSize <= offered.totalChunks
      && (n > 0 ==> d.part.Some? && |d.part.value| == n && d.sidecar.Some?)
  {
    AlignedOffset(offered, MatchingPartial(d, offered));
  }

  // What a stop after these acts leaves to resume for the session's file, act by act: a checkpoint puts the length of
  // the part file there, and the next byte written, truncation, rename or removal takes it away.
  function LeftToResume(t: Trace, m: FileMetadata): int
    requires m.chunkSize > 0
  {
    match t
    case Begin(found) => MatchingPartial(found, m)
    case Then(p, ReplaceSidecar) => Boundary(Now(p), m)
    case Then(p, WritePart(_, data)) => if data == [] then LeftToResume(p, m) else 0
    case Then(p, OpenPart(truncate)) => if truncate then 0 else LeftToResume(p, m)
    case Then(_, RenamePart) => 0
    case Then(_, RemovePart) => 0
    case Then(_, RemoveSidecar) => 0
    case Then(p, _) => LeftToResume(p, m)
  }

  // The length of the part file, if a session can start there.
  function Boundary(d: Disk, m: FileMetadata): int
    requires m.chunkSize > 0
  {
    if d.part.Some? && |d.part.value| <= m.size && |d.part.value| % m.chunkSize == 0 then |d.part.value| else 0
  }

  lemma {:induction false} LeftAfter(c: Config, k: Claim, t: Trace)
    requires Sound(c, k, t) && c.file.chunkSize > 0
    ensures MatchingPartial(Now(t), c.file) == LeftToResume(t, c.file)
    decreases t
  {
    if t.Then? {
      LeftAfter(c, k, t.before);
      LeftStep(c, k, t.before, t.act);
    }
  }

  lemma LeftStep(c: Config, k: Claim, p: Trace, a: Act)
    requires Sound(c, k, Then(p, a)) && c.file.chunkSize > 0
    requires MatchingPartial(Now(p), c.file) == LeftToResume(p, c.file)
    ensures MatchingPartial(Now(Then(p, a)), c.file) == LeftToResume(Then(p, a), c.file)
  {
    hide DestSound, AckSound, HonestDisk;
    match a
    case WritePart(pos, data) => assert data == [] ==> Now(p).part.value + [] == Now(p).part.value;
    case Send(m) => assert Now(Then(p, a)) == Now(p);
    case _ =>
  }

  /** Wherever a session stops, in the middle of a drain, a checkpoint, a write or the commit, an offer of the same file
      resumes at what the last checkpoint recorded if nothing was written since, and at 0 otherwise. */
  lemma StopKeepsProgress(x: Session, k: Claim, d: Disk)
    requires Allowed(x, k) && (k.honest ==> HonestDisk(k.world, k.found)) && x.c.file.chunkSize > 0
    requires CrashLeaves(End(x, k.found).trace, d)
    ensures forall p | Moment(p, End(x, k.found).trace) && d == Now(p) ::
      MatchingPartial(d, x.c.file) == LeftToResume(p, x.c.file)
    ensures (forall p | Moment(p, End(x, k.found).trace) :: d != Now(p)) ==> MatchingPartial(d, x.c.file) == 0
  {
    SessionSound(x, k);
    var t := End(x, k.found).trace;
    hide End;
    forall p | Moment(p, t) && d == Now(p) ensures MatchingPartial(d, x.c.file) == LeftToResume(p, x.c.file) {
      SoundMoment(x.c, k, p, t);
      LeftAfter(x.c, k, p);
    }
    if forall p | Moment(p, t) :: d != Now(p) {
      var p, pos, data, n: nat :| Moment(Then(p, WritePart(pos, data)), t) && n <= |data|
        && d == Apply(Now(p), WritePart(pos, data[..n]));
      BeforeMoment(p, WritePart(pos, data), t);
      SoundMoment(x.c, k, Then(p, WritePart(pos, data)), t);
      TornProgress(x.c, k, p, pos, data, n);
    }
  }

  lemma TornProgress(c: Config, k: Claim, p: Trace, pos: int, data: seq<byte>, n: nat)
    requires Sound(c, k, Then(p, WritePart(pos, data))) && n <= |data| && c.file.chunkSize > 0
    ensures var d := Apply(Now(p), WritePart(pos, data[..n]));
      if n == 0 then d == Now(p) else MatchingPartial(d, c.file) == 0
  {
    var part := Now(p).part.value;
    assert Overwritten(part, pos, data[..n]) == part + data[..n];
    if n == 0 { assert part + data[..n] == part; }
    hide DestSound, AckSound, HonestDisk;
  }

  /** While a transfer waits, what a crash leaves can be resumed exactly when the last write was checkpointed
      on a chunk boundary; otherwise the next session restarts at zero. */
  lemma CrashKeepsProgress(c: Config, k: Claim, s: Receiver)
    requires GoodConfig(c, k) && Waiting(c, k, s)
    ensures MatchingPartial(Now(s.trace), c.file) ==
      if s.expectedOffset == s.lastDurable && s.lastDurable % c.file.chunkSize == 0 then s.lastDurable else 0
  {}

  // The disks a process stop can leave: those between two acts of the session, or in the middle of a write.
  ghost predicate CrashLeaves(t: Trace, d: Disk) {
    || (exists p :: Moment(p, t) && d == Now(p))
    || (exists p, pos, data, n: nat :: Moment(Then(p, WritePart(pos, data)), t) && n <= |data|
          && d == Apply(Now(p), WritePart(pos, data[..n])))
  }

  lemma {:induction false} SoundMoment(c: Config, k: Claim, p: Trace, t: Trace)
    requires Moment(p, t) && Sound(c, k, t)
    ensures Sound(c, k, p) && ViewOf(p).found == ViewOf(t).found
    decreases t
  {
    SameFound(p, t);
    if p != t { SoundMoment(c, k, p, t.before); }
  }

  lemma {:induction false} SameFound(p: Trace, t: Trace)
    requires Moment(p, t)
    ensures ViewOf(p).found == ViewOf(t).found
    decreases t
  {
    if p != t { SameFound(p, t.before); }
  }

  lemma TornWrite(c: Config, k: Claim, p: Trace, pos: int, data: seq<byte>, n: nat)
    requires Sound(c, k, Then(p, WritePart(pos, data))) && n <= |data|
    ensures var d := Apply(Now(p), WritePart(pos, data[..n]));
      (k.honest ==> HonestDisk(k.world, d)) && d.dest == Now(p).dest
  {}

  // The destination is its old content, absent while being overwritten, or a whole checked file.
  ghost predicate DestinationSafe(c: Config, k: Claim, t: Trace, d: Disk) {
    || d.dest == ViewOf(t).found.dest
    || (d.dest.None? && c.overwrite)
    || (exists p :: Moment(p, t) && d.dest.Some? && Whole(c, k, ViewOf(p), d.dest.value))
  }

  /** Wherever the process stops, the disk is honest and the destination safe. */
  lemma CrashIsSafe(c: Config, k: Claim, t: Trace, d: Disk)
    requires Sound(c, k, t) && CrashLeaves(t, d)
    ensures k.honest ==> HonestDisk(k.world, d)
    ensures DestinationSafe(c, k, t, d)
  {
    hide Sound, ViewOf, Whole, HonestDisk, Apply, Moment;
    if p :| Moment(p, t) && d == Now(p) {
      SoundMoment(c, k, p, t);
      SoundNow(c, k, p);
    } else {
      var p, pos, data, n: nat :| Moment(Then(p, WritePart(pos, data)), t) && n <= |data|
        && d == Apply(Now(p), WritePart(pos, data[..n]));
      SoundMoment(c, k, Then(p, WritePart(pos, data)), t);
      TornWrite(c, k, p, pos, data, n);
      BeforeMoment(p, WritePart(pos, data), t);
      SoundMoment(c, k, p, t);
      SoundNow(c, k, p);
    }
  }

  lemma {:induction false} BeforeMoment(p: Trace, a: Act, t: Trace)
    requires Moment(Then(p, a), t)
    ensures Moment(p, t)
    decreases t
  {
    if Then(p, a) != t { BeforeMoment(p, a, t.before); }
  }

  // ---------- one session ----------

  lemma OpenStep(c: Config, k: Claim, t: Trace, truncate: bool)
    requires Sound(c, k, t) && (!truncate ==> Now(t).part.Some?)
    ensures var u := Then(t, OpenPart(truncate));
      Sound(c, k, u) && ViewOf(u) == ViewOf(t).(
        disk := Now(t).(part := Some(if truncate then [] else Now(t).part.value)))
  {}

  lemma AnswerStep(c: Config, k: Claim, t: Trace, m: Message)
    requires Sound(c, k, t) && (m.Accept? || m.ResumeState?)
    ensures var u := Then(t, Send(m));
      Sound(c, k, u) && ViewOf(u) == ViewOf(t).(sent := ViewOf(t).sent + [m])
  {}

  lemma OpenKeeps(c: Config, k: Claim, env: Env, found: Disk, offset: int)
    requires Admissible(c.file) && k.found == found && (k.honest ==> HonestDisk(k.world, found))
    requires offset >= 0 && (offset > 0 ==> found.part.Some? && |found.part.value| == offset)
    requires k.honest && offset > 0 ==> found.part.value <= k.world(c.file)
    ensures var r := OpenPartial(c, env, IDLE.(trace := Begin(found)), offset);
      if r.status.Running? then
        && r == IDLE.(trace := r.trace) && Logged(c, k, r)
        && (var v := ViewOf(r.trace);
            && v.disk.part.Some? && |v.disk.part.value| == offset
            && v.disk.sidecar == Some(Sidecar(c.file, offset))
            && v.disk.dest == found.dest
            && v.lastAck == v.lastProgress == -1
            && (k.honest ==> v.disk.part.value <= k.world(c.file)))
      else Over(c, k, r) && r.status == Failed(DiskError)
  {
    var s := IDLE.(trace := Begin(found));
    assert ViewOf(s.trace) == View(found, found, -1, -1, None, []);
    hide Whole, Admissible;
    if !env.ok(s.trace) {
      DiskFailKeeps(c, k, s);
    } else {
      OpenStep(c, k, s.trace, offset == 0);
      hide Sound;
      SidecarKeeps(c, k, env, Do(s, OpenPart(offset == 0)), offset);
    }
  }

  lemma UnreadableKeeps(c: Config, k: Claim, env: Env, s: Receiver, answer: Message)
    requires s.status.Running? && Logged(c, k, s) && s.out == [] && (answer.Accept? || answer.ResumeState?)
    ensures var r := Unreadable(env, s, answer); Over(c, k, r) && r.status == Failed(DiskError)
  {
    AnswerStep(c, k, s.trace, answer);
    FailKeeps(c, k, s, DiskError);
    var failed := Fail(s, DiskError);
    AnswerStep(c, k, failed.trace, answer);
    hide Sound, ViewOf, Whole;
    assert Logged(c, k, Say(s, answer));
    FailKeeps(c, k, Say(s, answer), DiskError);
  }

  lemma BeginKeeps(c: Config, k: Claim, env: Env, s: Receiver, offset: int)
    requires GoodConfig(c, k) && s == IDLE.(trace := s.trace) && Logged(c, k, s)
    requires 0 <= offset <= c.file.size && offset % c.file.chunkSize == 0
    requires var v := ViewOf(s.trace);
      && v.disk.part.Some? && |v.disk.part.value| == offset
      && v.disk.sidecar == Some(Sidecar(c.file, offset))
      && v.disk.dest == v.found.dest
      && v.lastAck == v.lastProgress == -1
      && (k.honest ==> v.disk.part.value <= k.world(c.file))
    ensures var r := BeginLoop(c, env, s, offset);
      if r.status.Running? then
        && Waiting(c, k, r) && r.expectedOffset == offset && r.pending == map[] && r.end.None?
        && r.expectedIndex == offset / c.file.chunkSize && r.lastProgressAck == r.lastDurable == offset
        && r.out == [if offset > 0 then ResumeState(offset) else Accept]
      else Over(c, k, r) && r.status == Failed(DiskError)
    ensures AllOk(env) ==> BeginLoop(c, env, s, offset).status.Running?
  {
    AlignedOffset(c.file, offset);
    HeldEmpty(c.file, c.file.totalChunks);
    var none: map<int, Piece> := map[];
    assert none.Keys == {};
    hide Sound, ViewOf, Off, ValidMetadata, Fits, Held, Unreadable;
    var part := Now(s.trace).part.value;
    assert part[..offset] == part;
    var answer := if offset > 0 then ResumeState(offset) else Accept;
    HarmlessStep(c, k, s.trace, Fruitless);
    UnreadableKeeps(c, k, env, Do(s, Fruitless), answer);
    AnswerStep(c, k, s.trace, answer);
    hide OutSound, Over;
    OutStep(c, s.out, answer, 0, false, false);
    assert OutSound(c, [answer], offset, false) by { OutGrows(c, [answer], 0, offset); }
  }

  lemma OutGrows(c: Config, out: seq<Message>, low: int, high: int)
    requires OutSound(c, out, low, false) && low <= high
    ensures OutSound(c, out, high, false)
  {}

  // The offset a session resumes from.
  function Offered(c: Config, found: Disk): int
    requires c.file.chunkSize > 0
  {
    if c.file.resume then MatchingPartial(found, c.file) else 0
  }

  /** Starting a session on an honest disk establishes the invariant of the receive loop. */
  lemma StartKeeps(c: Config, k: Claim, env: Env, maxFileSize: int, found: Disk)
    requires Ready(c, k) && k.found == found && (k.honest ==> HonestDisk(k.world, found))
    ensures var r := StartReceive(c, env, maxFileSize, found);
      && Inv(c, k, r) && !r.status.Committed?
      && (r.status.Running? ==>
            && GoodConfig(c, k)
            && r.expectedOffset == Offered(c, found) && r.pending == map[] && r.end.None?
            && r.expectedIndex == r.expectedOffset / c.file.chunkSize
            && r.lastProgressAck == r.lastDurable == r.expectedOffset
            && r.out == [if r.expectedOffset > 0 then ResumeState(r.expectedOffset) else Accept])
  {
    var s := IDLE.(trace := Begin(found));
    assert Logged(c, k, s);
    FailKeeps(c, k, s, InvalidMetadata); FailKeeps(c, k, s, TooLarge); FailKeeps(c, k, s, DestinationExists);
    if ValidMetadata(c.file) {
      var offset := Offered(c, found);
      Aligned(found, c.file);
      AlignedOffset(c.file, 0);
      if k.honest { ResumeIsPrefix(k.world, found, c.file); }
      OpenKeeps(c, k, env, found, offset);
      var s1 := OpenPartial(c, env, s, offset);
      hide OpenPartial, BeginLoop, Logged, MatchingPartial, Denotes, Off;
      if s1.status.Running? { BeginKeeps(c, k, env, s1, offset); }
    }
  }

  /** With a working disk a session runs exactly when the metadata is valid, the size limit is met, and the destination
      is free or may be overwritten. */
  lemma StartsExactly(c: Config, env: Env, maxFileSize: int, found: Disk)
    requires AllOk(env) && (ValidMetadata(c.file) ==> Fits(c.file))
    ensures StartReceive(c, env, maxFileSize, found).status.Running? <==>
      && ValidMetadata(c.file) && (maxFileSize <= 0 || c.file.size <= maxFileSize)
      && (c.overwrite || found.dest.None?)
  {
    if ValidMetadata(c.file) {
      var offset := Offered(c, found);
      Aligned(found, c.file);
      AlignedOffset(c.file, 0);
      OpensOk(c, env, found, offset);
      hide OpenPartial, MatchingPartial, ViewOf, ValidMetadata, Fits;
    }
  }

  lemma OpensOk(c: Config, env: Env, found: Disk, offset: int)
    requires AllOk(env) && offset >= 0 && (offset > 0 ==> found.part.Some? && |found.part.value| == offset)
    ensures var s := OpenPartial(c, env, IDLE.(trace := Begin(found)), offset);
      s.status.Running? && Now(s.trace).part.Some? && |Now(s.trace).part.value| >= offset
  {
    var s := Do(IDLE.(trace := Begin(found)), OpenPart(offset == 0));
    assert Now(Begin(found)) == found;
    assert Now(s.trace) == Apply(found, OpenPart(offset == 0));
    var s1 := Do(s, WriteRenewed(Sidecar(c.file, offset)));
    assert Now(s1.trace).part == Now(s.trace).part;
    assert Now(Do(s1, ReplaceSidecar).trace).part == Now(s.trace).part;
  }

  /** Every run of a session keeps the invariant of the receive loop. */
  lemma {:induction false} RunKeeps(c: Config, k: Claim, env: Env, s: Receiver, events: seq<Event>)
    requires GoodConfig(c, k) && Inv(c, k, s)
    requires forall e | e in events :: Truthful(c, k, e)
    ensures Inv(c, k, Run(c, env, s, events))
  {
    if events != [] {
      RunKeeps(c, k, env, s, events[..|events| - 1]);
      OnEventKeeps(c, k, env, Run(c, env, s, events[..|events| - 1]), events[|events| - 1]);
    }
  }

  lemma {:induction false} RunStays(c: Config, env: Env, s: Receiver, events: seq<Event>)
    requires !s.status.Running?
    ensures Run(c, env, s, events) == s
  {
    if events != [] { RunStays(c, env, s, events[..|events| - 1]); }
  }

  // ---------- whole sessions ----------

  datatype Session = Session(c: Config, env: Env, maxFileSize: int, events: seq<Event>)

  function End(x: Session, found: Disk): Receiver {
    Run(x.c, x.env, StartReceive(x.c, x.env, x.maxFileSize, found), x.events)
  }

  ghost predicate Allowed(x: Session, k: Claim) {
    Ready(x.c, k) && forall e | e in x.events :: Truthful(x.c, k, e)
  }

  /** The invariant at the end of any session, whatever the chunks, the timing and the disk failures. */
  lemma SessionSound(x: Session, k: Claim)
    requires Allowed(x, k) && (k.honest ==> HonestDisk(k.world, k.found))
    ensures Inv(x.c, k, End(x, k.found)) && Sound(x.c, k, End(x, k.found).trace)
    ensures ViewOf(End(x, k.found).trace).found == k.found
  {
    StartKeeps(x.c, k, x.env, x.maxFileSize, k.found);
    var s := StartReceive(x.c, x.env, x.maxFileSize, k.found);
    if s.status.Running? {
      RunKeeps(x.c, k, x.env, s, x.events);
    } else {
      RunStays(x.c, x.env, s, x.events);
    }
  }

  /** In every state of every session that still runs: the part file is what was hashed, offset and index agree,
      the reorder map holds later chunks only, and the whole file written means durable and nothing pending. */
  lemma Reassembly(x: Session, k: Claim)
    requires Allowed(x, k) && (k.honest ==> HonestDisk(k.world, k.found)) && End(x, k.found).status.Running?
    ensures var r, m := End(x, k.found), x.c.file;
      && r.expectedOffset == Min(r.expectedIndex * m.chunkSize, m.size) == |r.hashed|
      && Now(r.trace).part == Some(r.hashed)
      && (k.honest ==> r.hashed <= k.world(m))
      && (forall i | i in r.pending :: r.expectedIndex < i < m.totalChunks)
      && r.pendingBytes == Held(m, r.pending.Keys, m.totalChunks) <= m.size - r.expectedOffset
      && r.pendingBytes <= x.c.maxReorderBufferBytes
      && (r.expectedOffset == m.size ==> r.pending == map[] && r.lastDurable == m.size)
  {
    SessionOrderly(x, k.found);
    StillRunning(x, k);
    hide End, GoodConfig, Allowed, Waiting, Held;
    WaitingMeans(x.c, k, End(x, k.found));
  }

  lemma SessionOrderly(x: Session, found: Disk)
    requires Configured(x.c)
    ensures var r := End(x, found);
      && Orderly(r, x.c) && EndAmong(r, x.events)
      && (r.status.Running? ==>
            r.pendingBytes <= x.c.maxReorderBufferBytes && (r.endTimer <==> Ended(x.events)))
  {
    StartOrderly(x.c, x.env, x.maxFileSize, found);
    hide StartReceive, Run;
    RunOrderly(x.c, x.env, StartReceive(x.c, x.env, x.maxFileSize, found), x.events);
  }

  lemma WaitingMeans(c: Config, k: Claim, r: Receiver)
    requires GoodConfig(c, k) && Waiting(c, k, r)
    ensures var m := c.file;
      && r.expectedOffset == Min(r.expectedIndex * m.chunkSize, m.size) == |r.hashed|
      && Now(r.trace).part == Some(r.hashed)
      && (k.honest ==> r.hashed <= k.world(m))
      && (forall i | i in r.pending :: r.expectedIndex < i < m.totalChunks)
      && r.pendingBytes == Held(m, r.pending.Keys, m.totalChunks) <= m.size - r.expectedOffset
      && (r.expectedOffset == m.size ==> r.pending == map[] && r.lastDurable == m.size)
  {
    AllWritten(c, k, r);
    PendingFits(c, k, r);
    hide Logged, PieceSound, Held;
    assert r.expectedIndex !in r.pending;
  }

  lemma StillRunning(x: Session, k: Claim)
    requires Allowed(x, k) && (k.honest ==> HonestDisk(k.world, k.found)) && End(x, k.found).status.Running?
    ensures GoodConfig(x.c, k) && Waiting(x.c, k, End(x, k.found))
  {
    SessionSound(x, k);
    var s := StartReceive(x.c, x.env, x.maxFileSize, k.found);
    if !s.status.Running? { RunStays(x.c, x.env, s, x.events); }
    StartKeeps(x.c, k, x.env, x.maxFileSize, k.found);
  }

  lemma PendingFits(c: Config, k: Claim, s: Receiver)
    requires GoodConfig(c, k) && Core(c, k, s)
    ensures 0 <= s.pendingBytes <= c.file.size - s.expectedOffset
  {
    OffOrder(c.file, s.expectedIndex, c.file.totalChunks);
    HeldBound(c.file, s.pending.Keys, s.expectedIndex, c.file.totalChunks, c.file.totalChunks);
  }

  /** No chunk ever breaks the continuity of the file, whatever arrives. */
  lemma {:induction false} ContinuityHolds(c: Config, k: Claim, env: Env, s: Receiver, events: seq<Event>)
    requires GoodConfig(c, k) && Waiting(c, k, s) && !k.honest
    ensures Run(c, env, s, events).status != Failed(BrokenContinuity)
  {
    if events != [] {
      var init, e := events[..|events| - 1], events[|events| - 1];
      ContinuityHolds(c, k, env, s, init);
      RunKeeps(c, k, env, s, init);
      var t := Run(c, env, s, init);
      if t.status.Running? {
        if e.Chunk? {
          OnChunkCases(c, k, env, t, e);
          if Accepts(c, t, e) { ChunkOutcome(c, k, env, t, e); }
        } else if e.End? {
          CompleteKeeps(c, k, env, t.(end := Some(e.sha256)));
        }
      }
    }
  }

  // ---------- what acknowledgements mean ----------

  lemma {:induction false} EarlierAck(c: Config, k: Claim, q: Trace, n: int, t: Trace)
    requires Sound(c, k, t) && Modern(c) && Moment(Then(q, Send(FileAck(n))), t)
    ensures n <= ViewOf(t).lastAck
    decreases t
  {
    if Then(q, Send(FileAck(n))) != t { EarlierAck(c, k, q, n, t.before); }
  }

  lemma {:induction false} EarlierProgress(c: Config, k: Claim, q: Trace, n: int, t: Trace)
    requires Sound(c, k, t) && Modern(c) && Moment(Then(q, Send(FileProgress(n))), t)
    ensures n <= ViewOf(t).lastProgress
    decreases t
  {
    if Then(q, Send(FileProgress(n))) != t { EarlierProgress(c, k, q, n, t.before); }
  }

  /** file_ack(n) below the size follows the sync of n bytes and a sidecar that says n; file_ack(size) follows
      the rename of the whole checked file; both streams of reports strictly increase. */
  lemma AckMeaning(x: Session, k: Claim, p: Trace, n: int)
    requires Allowed(x, k) && (k.honest ==> HonestDisk(k.world, k.found)) && Modern(x.c)
    requires Moment(Then(p, Send(FileAck(n))), End(x, k.found).trace)
    ensures var d := Now(p);
      && n <= x.c.file.size
      && (n < x.c.file.size ==>
            d.part == Some(d.synced) && |d.synced| == n && d.sidecar == Some(Sidecar(x.c.file, n)))
      && (n == x.c.file.size ==> d.part.None? && d.dest.Some? && Whole(x.c, k, ViewOf(p), d.dest.value))
    ensures forall q, m :: Moment(Then(q, Send(FileAck(m))), p) ==> m < n
  {
    SessionSound(x, k);
    SoundMoment(x.c, k, Then(p, Send(FileAck(n))), End(x, k.found).trace);
    forall q, m | Moment(Then(q, Send(FileAck(m))), p) ensures m < n {
      EarlierAck(x.c, k, q, m, p);
    }
  }

  /** file_progress never claims the whole file, and strictly increases. */
  lemma ProgressMeaning(x: Session, k: Claim, p: Trace, n: int)
    requires Allowed(x, k) && (k.honest ==> HonestDisk(k.world, k.found)) && Modern(x.c)
    requires Moment(Then(p, Send(FileProgress(n))), End(x, k.found).trace)
    ensures n < x.c.file.size
    ensures forall q, m :: Moment(Then(q, Send(FileProgress(m))), p) ==> m < n
  {
    SessionSound(x, k);
    SoundMoment(x.c, k, Then(p, Send(FileProgress(n))), End(x, k.found).trace);
    forall q, m | Moment(Then(q, Send(FileProgress(m))), p) ensures m < n {
      EarlierProgress(x.c, k, q, m, p);
    }
  }

  // A disk left by a stop is, but for a write cut short, the disk of some moment.
  lemma CrashAtMoment(t: Trace, d: Disk) returns (p: Trace)
    requires CrashLeaves(t, d)
    ensures Moment(p, t) && d.sidecar == Now(p).sidecar && d.dest == Now(p).dest
  {
    if q :| Moment(q, t) && d == Now(q) {
      p := q;
    } else {
      var q, pos, data, n: nat :| Moment(Then(q, WritePart(pos, data)), t) && n <= |data|
        && d == Apply(Now(q), WritePart(pos, data[..n]));
      BeforeMoment(q, WritePart(pos, data), t);
      p := q;
    }
  }

  /** Whatever arrives and wherever the process stops, the destination is its old content, absent while it is being
      overwritten, or the final content of a session that commits; without overwriting an old content stays. What a
      session commits is the bytes it hashed, of the length offered, with the digest of the metadata or, when that has
      none, of an end message it received. */
  lemma VerifiedDestination(x: Session, k: Claim, d: Disk)
    requires Allowed(x, k) && !k.honest && CrashLeaves(End(x, k.found).trace, d)
    ensures DestinationSafe(x.c, k, End(x, k.found).trace, d) && ViewOf(End(x, k.found).trace).found == k.found
    ensures var r := End(x, k.found);
      && (d.dest == k.found.dest || (d.dest.None? && x.c.overwrite)
          || (r.status.Committed? && d.dest == Some(r.hashed)))
      && (!x.c.overwrite && k.found.dest.Some? ==> d.dest == k.found.dest)
      && (r.status.Committed? ==>
            && Now(r.trace).dest == Some(r.hashed) && |r.hashed| == x.c.file.size
            && r.end.Some? && Receiving.End(r.end.value) in x.events && !DigestDiffers(x.c, r.end.value, r.hashed))
  {
    SessionSound(x, k);
    SessionOrderly(x, k.found);
    var r := End(x, k.found);
    CrashIsSafe(x.c, k, r.trace, d);
    var p := CrashAtMoment(r.trace, d);
    OrderlyMoment(x.c, r, p);
    if !x.c.overwrite && k.found.dest.Some? {
      KeptDestination(x, k.found);
    }
    hide End, Orderly, Moment, CrashLeaves, Sound, Whole;
  }

  lemma KeptDestination(x: Session, found: Disk)
    requires Configured(x.c) && !x.c.overwrite && found.dest.Some?
    ensures !End(x, found).status.Committed?
  {
    StartOrderly(x.c, x.env, x.maxFileSize, found);
    RunStays(x.c, x.env, StartReceive(x.c, x.env, x.maxFileSize, found), x.events);
    hide StartReceive;
  }

  // ---------- many sessions ----------

  // A session in which every chunk carries the bytes its offered file denotes.
  ghost predicate Offers(x: Session, world: FileMetadata -> seq<byte>, found: Disk) {
    Configured(x.c) && forall e | e in x.events :: Truthful(x.c, Claim(world, true, found), e)
  }

  // d is what the sessions leave of disk d0 when each is stopped somewhere.
  ghost predicate Leaves(world: FileMetadata -> seq<byte>, xs: seq<Session>, d0: Disk, d: Disk) {
    if xs == [] then d == d0 else
      var x := xs[|xs| - 1];
      exists found ::
        && Leaves(world, xs[..|xs| - 1], d0, found)
        && Offers(x, world, found)
        && CrashLeaves(End(x, found).trace, d)
  }

  // The metadata the sessions and the first disk have used.
  ghost predicate Uses(used: set<FileMetadata>, xs: seq<Session>, d0: Disk) {
    (d0.sidecar.Some? ==> d0.sidecar.value.file in used) && forall x | x in xs :: x.c.file in used
  }

  // A sidecar after the sessions is for a file that was in use.
  lemma {:induction false} LeavesUsed(world: FileMetadata -> seq<byte>, used: set<FileMetadata>, xs: seq<Session>,
                                      d0: Disk, d: Disk)
    requires Leaves(world, xs, d0, d) && Uses(used, xs, d0)
    ensures d.sidecar.Some? ==> d.sidecar.value.file in used
    decreases |xs|
  {
    if xs != [] {
      var x, init := xs[|xs| - 1], xs[..|xs| - 1];
      var found :| Leaves(world, init, d0, found) && Offers(x, world, found) && CrashLeaves(End(x, found).trace, d);
      assert forall y | y in init :: y in xs;
      LeavesUsed(world, used, init, d0, found);
      SessionOrderly(x, found);
      FoundBy(x, found);
      var p := CrashAtMoment(End(x, found).trace, d);
      OrderlyMoment(x.c, End(x, found), p);
      hide End, Orderly, Moment, CrashLeaves, Leaves, ViewOf;
      assert x in xs;
    }
  }

  lemma FoundBy(x: Session, found: Disk)
    requires Configured(x.c)
    ensures ViewOf(End(x, found).trace).found == found
  {
    var k := Claim(_ => [], false, found);
    StartKeeps(x.c, k, x.env, x.maxFileSize, found);
    var s := StartReceive(x.c, x.env, x.maxFileSize, found);
    if s.status.Running? {
      RunKeeps(x.c, k, x.env, s, x.events);
    } else {
      RunStays(x.c, x.env, s, x.events);
    }
    hide StartReceive, Run, Core, Waiting, Over, Sound;
  }

  lemma {:induction false} LeavesHonest(world: FileMetadata -> seq<byte>, used: set<FileMetadata>, xs: seq<Session>,
                                        d0: Disk, d: Disk)
    requires Consistent(world, used) && Uses(used, xs, d0) && HonestDisk(world, d0) && Leaves(world, xs, d0, d)
    ensures HonestDisk(world, d)
    decreases |xs|
  {
    if xs != [] {
      var x, init := xs[|xs| - 1], xs[..|xs| - 1];
      var found :| Leaves(world, init, d0, found) && Offers(x, world, found) && CrashLeaves(End(x, found).trace, d);
      assert x in xs && forall y | y in init :: y in xs;
      LeavesHonest(world, used, init, d0, found);
      LeavesUsed(world, used, init, d0, found);
      assert Denotes(world, found, x.c.file);
      var k := Claim(world, true, found);
      SessionSound(x, k);
      CrashIsSafe(x.c, k, End(x, found).trace, d);
    }
  }

  // A receiver of two one-byte chunks, its files not there yet, and the first chunk.
  ghost predicate TwoBytes(x: Session, k: Claim) {
    var m := x.c.file;
    && Admissible(m) && m.size == 2 && m.chunkSize == 1 && m.totalChunks == 2
    && x.c.durableAckInterval == 10 && x.c.maxReorderBufferBytes == 10 && x.maxFileSize == 0
    && x.env == Env(_ => true, _ => 0, _ => false, _ => false)
    && x.events == [Chunk(x.c.id, 0, 0, 1, [7])]
    && !k.honest && k.found == Disk(None, [], None, None, None)
  }

  /** So it happens: one chunk of two written since the start, and a stop. The next session starts at 0. */
  lemma GrownPartRestarts(x: Session, k: Claim)
    requires TwoBytes(x, k)
    ensures Allowed(x, k)
    ensures var r := End(x, k.found);
      r.status.Running? && r.expectedOffset == 1 && MatchingPartial(Now(r.trace), x.c.file) == 0
  {
    var c, e := x.c, x.events[0];
    StartsExactly(c, x.env, 0, k.found);
    StartKeeps(c, k, x.env, 0, k.found);
    var s := StartReceive(c, x.env, 0, k.found);
    hide StartReceive, Inv, OnEvent;
    OneChunk(c, x.env, s, e);
    OneEvent(c, x.env, s, e);
    StillRunning(x, k);
    CrashKeepsProgress(c, k, End(x, k.found));
  }

  lemma OneEvent(c: Config, env: Env, s: Receiver, e: Event)
    ensures Run(c, env, s, [e]) == OnEvent(c, env, s, e)
  {
    assert [e][..0] == [] && Run(c, env, s, []) == s;
  }

  // There is such a session.
  lemma TwoByteSession() returns (x: Session, k: Claim)
    ensures TwoBytes(x, k)
  {
    var m := FileMetadata("f", 2, "", 1, 2, 0, "", true, true, true);
    assert TotalChunks(2, 1) == 2;
    x := Session(Config("t", m, false, 10, 10, _ => ""), Env(_ => true, _ => 0, _ => false, _ => false), 0,
                 [Chunk("t", 0, 0, 1, [7])]);
    k := Claim(_ => [], false, Disk(None, [], None, None, None));
  }

  // The first chunk of a file of two bytes is written, not checkpointed and not reported.
  lemma OneChunk(c: Config, env: Env, s: Receiver, e: Event)
    requires c.file.size == 2 && c.file.chunkSize == 1 && c.file.totalChunks == 2
    requires c.durableAckInterval == 10 && c.maxReorderBufferBytes == 10
    requires env.ok == (_ => true) && env.due == (_ => false) && e == Chunk(c.id, 0, 0, 1, [7])
    requires s.status.Running? && s.expectedIndex == s.expectedOffset == s.lastDurable == s.lastProgressAck == 0
    requires s.pending == map[] && s.pendingBytes == 0 && s.end.None?
    ensures var r := OnEvent(c, env, s, e); r.status.Running? && r.expectedOffset == 1 && r.lastDurable == 0
  {
    var s1 := s.(pending := map[0 := Piece(0, [7])], pendingBytes := 1);
    var s2 := WriteNext(c, env, s1);
    assert s2.status.Running? && s2.expectedIndex == 1 && s2.pending == map[];
    assert Drain(c, env, s1) == Drain(c, env, s2) == s2;
  }

  /** After any number of sessions, for the same or different files, each stopped anywhere, a positive resume offset is
      a chunk boundary inside the file and the part file is exactly that prefix of the source. Only metadata in use has
      to denote the same bytes when matchingPartial takes it for the same file. */
  lemma CrashSafeResume(world: FileMetadata -> seq<byte>, used: set<FileMetadata>, xs: seq<Session>, d0: Disk, d: Disk,
                        offered: FileMetadata)
    requires Uses(used, xs, d0) && offered in used && Consistent(world, used)
    requires HonestDisk(world, d0) && Leaves(world, xs, d0, d) && Admissible(offered)
    ensures var n := MatchingPartial(d, offered);
      && 0 <= n <= offered.size && n % offered.chunkSize == 0
      && (n > 0 ==> d.part == Some(world(offered)[..n]))
  {
    LeavesHonest(world, used, xs, d0, d);
    LeavesUsed(world, used, xs, d0, d);
    assert Denotes(world, d, offered);
    ResumeIsPrefix(world, d, offered);
  }

  /** Sources that differ in nothing but their digests are resumed apart: however the sessions for the others were
      stopped, an offer with another digest starts at 0. They may denote any bytes. */
  lemma DigestsResumeApart(world: FileMetadata -> seq<byte>, xs: seq<Session>, d0: Disk, d: Disk, offered: FileMetadata)
    requires Leaves(world, xs, d0, d) && offered.chunkSize > 0
    requires d0.sidecar.Some? ==> ApartByDigest(d0.sidecar.value.file, offered)
    requires forall x | x in xs :: ApartByDigest(x.c.file, offered)
    ensures MatchingPartial(d, offered) == 0
  {
    var used := (set x | x in xs :: x.c.file) + if d0.sidecar.Some? then {d0.sidecar.value.file} else {};
    LeavesUsed(world, used, xs, d0, d);
    hide Leaves;
  }

  /** Files apart by their digests are consistent whatever bytes they denote, so CrashSafeResume covers histories in
      which they share a disk. */
  lemma ApartIsConsistent(world: FileMetadata -> seq<byte>, used: set<FileMetadata>)
    requires forall m | m in used && m.size >= 0 :: |world(m)| == m.size
    requires forall a, b | a in used && b in used && a != b :: ApartByDigest(a, b)
    ensures Consistent(world, used)
  {}
}
