/** Whole runs of sender and receiver: commitment, the window, termination without deadlock. */
module Runs {
  import opened Wrappers
  import opened Chunking
  import opened Disks
  import opened Receiving
  import opened ReceiveInvariant
  import opened Sessions
  import opened Sending
  import opened Transfers
  import opened Deliveries
  import opened Packets

  ghost predicate Follows(x: Setup, s: State, t: State, reliable: bool)
    requires GoodSetup(x)
  {
    exists p :: Enabled(x, s, p) && (reliable ==> Reliable(p)) && t == After(x, s, p)
  }

  ghost predicate IsRun(x: Setup, ss: seq<State>, reliable: bool)
    requires GoodSetup(x)
  {
    && ss != [] && Initial(x, ss[0])
    && forall j | 0 <= j < |ss| - 1 :: Follows(x, ss[j], ss[j + 1], reliable)
  }

  function Last(ss: seq<State>): State
    requires ss != []
  {
    ss[|ss| - 1]
  }

  // The offset both sides agreed on.
  function StartOf(ss: seq<State>): int
    requires ss != []
  {
    ss[0].rcv.expectedOffset
  }

  /** A transfer of a file whose chunk count fits, offered by SendFile with the digest of its bytes and the chunk size
      chosen for the negotiated maximum, is a setup all the theorems below speak about. */
  lemma OfferedSetup(x: Setup, maxMessageSize: int, name: string, mime: string, lastModified: int)
    requires 0 <= maxMessageSize < 0x1_0000_0000 && 0 < |name| <= 255
    requires var data := Source(x);
      x.c.file == Offer(name, |data|, mime, ChunkSizeFor(maxMessageSize), lastModified, x.c.hash(data))
    requires Fits(x.c.file) && ValidSha256(x.c.hash(Source(x)))
    requires x.k.honest && x.c.durableAckInterval > 0 && x.c.maxReorderBufferBytes > 0
    ensures GoodSetup(x) && x.c.file.resume
    ensures x.c.maxReorderBufferBytes >= 64 * 1024 * 1024 ==> RoomForWindow(x.c)
  {}

  /** What startReceive leaves, and a sender that has taken its answer, are an initial state. */
  lemma Handshake(x: Setup, maxFileSize: int, found: Disk)
    requires GoodSetup(x) && Ready(x.c, x.k) && x.k.found == found && HonestDisk(x.k.world, found)
    requires StartReceive(x.c, x.env, maxFileSize, found).status.Running?
    ensures var r, m := StartReceive(x.c, x.env, maxFileSize, found), x.c.file;
      && |r.out| == 1
      && (var answer := if r.out[0].ResumeState? then r.out[0].receivedBytes else 0;
          var start := UsableOffset(answer, m.size, m.chunkSize);
          Initial(x, State(Sender(AtWindow, start, start / m.chunkSize, start, start, false, false), {}, false, r, 1)))
  {
    StartKeeps(x.c, x.k, x.env, maxFileSize, found);
    Aligned(found, x.c.file);
    hide StartReceive, Waiting, Over, Off, ValidMetadata, Fits;
  }

  lemma InitialTidy(x: Setup, s: State)
    requires GoodSetup(x) && Initial(x, s)
    ensures Tidy(x, s.rcv.expectedOffset, s)
  {}

  lemma {:induction false} RunSafe(x: Setup, ss: seq<State>)
    requires GoodSetup(x) && IsRun(x, ss, false)
    ensures Safe(x, StartOf(ss), Last(ss))
  {
    InitialTidy(x, ss[0]);
    if |ss| > 1 {
      var init := ss[..|ss| - 1];
      PrefixRun(x, ss, false);
      RunSafe(x, init);
      assert Follows(x, ss[|ss| - 2], ss[|ss| - 1], false);
      var p :| Enabled(x, Last(init), p) && Last(ss) == After(x, Last(init), p);
      SafeStep(x, StartOf(ss), Last(init), p);
    }
  }

  lemma PrefixRun(x: Setup, ss: seq<State>, reliable: bool)
    requires GoodSetup(x) && IsRun(x, ss, reliable) && |ss| > 1
    ensures IsRun(x, ss[..|ss| - 1], reliable)
    ensures Last(ss[..|ss| - 1]) == ss[|ss| - 2] && Follows(x, ss[|ss| - 2], Last(ss), reliable)
  {}

  lemma {:induction false} RunTidy(x: Setup, ss: seq<State>)
    requires GoodSetup(x) && RoomForWindow(x.c) && IsRun(x, ss, true)
    ensures Tidy(x, StartOf(ss), Last(ss))
  {
    InitialTidy(x, ss[0]);
    if |ss| > 1 {
      var init := ss[..|ss| - 1];
      PrefixRun(x, ss, true);
      RunTidy(x, init);
      var p :| Enabled(x, Last(init), p) && Reliable(p) && Last(ss) == After(x, Last(init), p);
      TidyStep(x, StartOf(ss), Last(init), p);
    }
  }

  // ---------- completion means commitment ----------

  ghost predicate HasFile(x: Setup, s: State) {
    s.rcv.status.Committed? && Now(s.rcv.trace).dest == Some(Source(x)) && Now(s.rcv.trace).part.None?
  }

  /** When the accepted offset is below the size, a sender that completes has a receiver that has committed
      exactly the source, whatever the lanes, timeouts and disk failures did. */
  lemma CompletedMeansCommitted(x: Setup, ss: seq<State>)
    requires GoodSetup(x) && IsRun(x, ss, false) && StartOf(ss) < x.c.file.size
    requires Last(ss).snd.pc.Completed? || Last(ss).snd.acked >= x.c.file.size
    ensures HasFile(x, Last(ss))
  {
    RunSafe(x, ss);
  }

  // The sender's shortest way out, with nothing heard from the receiver.
  lemma SilentCompletion(x: Setup, s: State) returns (ss: seq<State>)
    requires GoodSetup(x) && Initial(x, s) && s.rcv.expectedOffset == x.c.file.size
    ensures IsRun(x, ss, true) && ss[0] == s
    ensures Last(ss).snd.pc.Completed? && Last(ss).rcv == s.rcv && s.rcv.status.Running?
  {
    var s1 := After(x, s, ReadWindow);
    var s2 := After(x, s1, ReadFinal);
    var s3 := After(x, s2, DecideEnd);
    ss := [s, s1, s2, s3];
    hide GoodSetup, Waiting;
    assert Enabled(x, s, ReadWindow) && Enabled(x, s1, ReadFinal) && Enabled(x, s2, DecideEnd);
    forall j | 0 <= j < |ss| - 1 ensures Follows(x, ss[j], ss[j + 1], true) {
      if j == 0 { assert Reliable(ReadWindow); }
      else if j == 1 { assert Reliable(ReadFinal); }
      else { assert Reliable(DecideEnd); }
    }
  }

  /** It happens with every empty file that finds nothing on the disk. */
  lemma EmptyFileCompletesSilently(x: Setup) returns (ss: seq<State>)
    requires GoodSetup(x) && AllOk(x.env) && x.c.file.size == 0
    requires x.k.found.sidecar.None? && x.k.found.dest.None?
    ensures IsRun(x, ss, true) && ss[0].rcv == StartReceive(x.c, x.env, 0, x.k.found)
    ensures Last(ss).snd.pc.Completed? && Last(ss).rcv.status.Running?
  {
    var m, found := x.c.file, x.k.found;
    StartsExactly(x.c, x.env, 0, found);
    Handshake(x, 0, found);
    var r := StartReceive(x.c, x.env, 0, found);
    var answer := if r.out[0].ResumeState? then r.out[0].receivedBytes else 0;
    var start := UsableOffset(answer, m.size, m.chunkSize);
    var s := State(Sender(AtWindow, start, start / m.chunkSize, start, start, false, false), {}, false, r, 1);
    InitialTidy(x, s);
    hide StartReceive, Waiting, GoodSetup;
    ss := SilentCompletion(x, s);
  }

  // There are such transfers.
  lemma EmptyFile() returns (x: Setup)
    ensures GoodSetup(x) && AllOk(x.env) && x.c.file.size == 0
    ensures x.k.found.sidecar.None? && x.k.found.dest.None?
  {
    var digest := seq(64, _ => '0');
    var m := FileMetadata("f", 0, "", 12288, 0, 0, digest, true, true, true);
    var c := Config("t", m, false, 1, 1, _ => digest);
    var env := Env(_ => true, _ => 0, _ => false, _ => false);
    x := Setup(c, env, Claim(_ => [], true, Disk(None, [], None, None, None)));
    assert ValidSha256(digest) && Fits(m) && ValidMetadata(m);
  }

  /** The sender's completion proves the commit exactly when the accepted offset is below the size. */
  lemma CommitProofNeedsBytes(x: Setup, s: State)
    requires GoodSetup(x) && Initial(x, s)
    ensures s.rcv.expectedOffset < x.c.file.size <==>
      forall ss :: IsRun(x, ss, false) && ss[0] == s && Last(ss).snd.pc.Completed? ==> HasFile(x, Last(ss))
  {
    InitialTidy(x, s);
    if s.rcv.expectedOffset < x.c.file.size {
      forall ss | IsRun(x, ss, false) && ss[0] == s && Last(ss).snd.pc.Completed? ensures HasFile(x, Last(ss)) {
        CompletedMeansCommitted(x, ss);
      }
    } else {
      AllWritten(x.c, x.k, s.rcv);
      var ss := SilentCompletion(x, s);
      assert IsRun(x, ss, false) && ss[0] == s && Last(ss).snd.pc.Completed? && !HasFile(x, Last(ss)) by {
        Weaken(x, ss);
      }
    }
  }

  lemma Weaken(x: Setup, ss: seq<State>)
    requires GoodSetup(x) && IsRun(x, ss, true)
    ensures IsRun(x, ss, false)
  {}

  // ---------- acknowledged bytes are durable ----------

  lemma {:induction false} SentAcks(c: Config, k: Claim, t: Trace)
    requires Sound(c, k, t) && Modern(c)
    ensures forall m | m in ViewOf(t).sent && m.FileAck? :: m.receivedBytes <= ViewOf(t).lastAck
    ensures -1 <= ViewOf(t).lastAck
    ensures ViewOf(t).lastAck == -1 || FileAck(ViewOf(t).lastAck) in ViewOf(t).sent
    decreases t
  {
    if t.Then? { SentAcks(c, k, t.before); }
  }

  // The sender's acked counter is justified by the start or the receiver's last acknowledgement, which its sidecar
  // covers while it runs.
  ghost predicate Covered(x: Setup, start: int, s: State) {
    var r := s.rcv;
    && s.snd.acked <= s.snd.received
    && s.snd.acked <= Max(start, ViewOf(r.trace).lastAck)
    && (r.status.Running? ==> start <= r.lastDurable)
  }

  lemma Acknowledged(x: Setup, r: Receiver)
    requires GoodSetup(x) && Inv(x.c, x.k, r)
    ensures forall m | m in r.out && m.FileAck? :: m.receivedBytes <= ViewOf(r.trace).lastAck
    ensures ViewOf(r.trace).lastAck == -1 || FileAck(ViewOf(r.trace).lastAck) in r.out
    ensures -1 <= ViewOf(r.trace).lastAck && (r.status.Running? ==> r.lastDurable <= r.expectedOffset)
  {
    assert Sound(x.c, x.k, r.trace) && ViewOf(r.trace).sent == r.out;
    SentAcks(x.c, x.k, r.trace);
    hide Sound, Whole, OutSound, PendingSound;
  }

  // An event only adds acknowledgements.
  lemma AcksGrow(x: Setup, s: Receiver, e: Event)
    requires GoodSetup(x) && Inv(x.c, x.k, s) && Truthful(x.c, x.k, e)
    ensures ViewOf(s.trace).lastAck <= ViewOf(OnEvent(x.c, x.env, s, e).trace).lastAck
    ensures OnEvent(x.c, x.env, s, e).status.Running? ==>
      s.status.Running? && s.lastDurable <= OnEvent(x.c, x.env, s, e).lastDurable
  {
    var r := OnEvent(x.c, x.env, s, e);
    Acknowledged(x, s);
    hide Inv, ViewOf, GoodConfig, ValidSha256, Truthful;
    OnEventKeeps(x.c, x.k, x.env, s, e);
    OnEventGrows(x.c, x.env, s, e);
    if !s.status.Running? { return; }
    Acknowledged(x, r);
    hide OnEvent;
    if ViewOf(s.trace).lastAck != -1 {
      assert FileAck(ViewOf(s.trace).lastAck) in r.out;
    }
  }

  lemma CoveredReceiver(x: Setup, start: int, s: State, t: State, e: Event)
    requires GoodSetup(x) && Inv(x.c, x.k, s.rcv) && Truthful(x.c, x.k, e) && Covered(x, start, s)
    requires t.snd == s.snd && t.rcv == OnEvent(x.c, x.env, s.rcv, e)
    ensures Covered(x, start, t)
  {
    AcksGrow(x, s.rcv, e);
    hide OnEvent, GoodSetup, Truthful, Inv, ViewOf;
  }

  lemma CoveredTake(x: Setup, start: int, s: State)
    requires GoodSetup(x) && Inv(x.c, x.k, s.rcv) && Covered(x, start, s) && Enabled(x, s, TakeMessage)
    ensures Covered(x, start, After(x, s, TakeMessage))
  {
    Acknowledged(x, s.rcv);
    hide GoodSetup, Inv, ViewOf;
    assert s.rcv.out[s.delivered] in s.rcv.out;
  }

  lemma CoveredStep(x: Setup, start: int, s: State, p: Step)
    requires GoodSetup(x) && Safe(x, start, s) && Covered(x, start, s) && Enabled(x, s, p)
    ensures Covered(x, start, After(x, s, p))
  {
    var t := After(x, s, p);
    match p
    case DeliverChunk(i) =>
      SourceEvents(x, i);
      CoveredReceiver(x, start, s, t, ChunkEvent(x, i));
    case Again(i) =>
      SourceEvents(x, i);
      CoveredReceiver(x, start, s, t, ChunkEvent(x, i));
    case DeliverEnd => CoveredReceiver(x, start, s, t, EndEvent(x));
    case Disturb(e) => CoveredReceiver(x, start, s, t, e);
    case TakeMessage => CoveredTake(x, start, s);
    case _ =>
      hide GoodSetup, Safe, ViewOf;
      assert t.rcv == s.rcv && t.snd.acked == s.snd.acked && t.snd.received == s.snd.received;
  }

  lemma {:induction false} RunCovered(x: Setup, ss: seq<State>)
    requires GoodSetup(x) && IsRun(x, ss, false)
    ensures Covered(x, StartOf(ss), Last(ss))
  {
    if |ss| > 1 {
      var init := ss[..|ss| - 1];
      PrefixRun(x, ss, false);
      RunCovered(x, init);
      RunSafe(x, init);
      var p :| Enabled(x, Last(init), p) && Last(ss) == After(x, Last(init), p);
      CoveredStep(x, StartOf(ss), Last(init), p);
    }
  }

  /** Whatever the lanes and timers do, the bytes the sender counts as acknowledged are durable: while the receiver
      runs, its sidecar records at least that many bytes of the file, and the part file begins with them. */
  lemma AcknowledgedIsDurable(x: Setup, ss: seq<State>)
    requires GoodSetup(x) && IsRun(x, ss, false)
    ensures var snd, r := Last(ss).snd, Last(ss).rcv; var d := Now(r.trace);
      && snd.acked <= snd.received
      && (r.status.Running? ==>
            && d.sidecar.Some? && d.sidecar.value.file == x.c.file && snd.acked <= d.sidecar.value.receivedBytes
            && d.part.Some? && d.sidecar.value.receivedBytes <= |d.part.value| && d.part.value <= Source(x))
  {
    RunSafe(x, ss);
    RunCovered(x, ss);
    hide IsRun, Sound, Off;
  }

  // ---------- the window bounds the reorder buffer ----------

  /** Over reliable lanes the receiver never holds a full window and one chunk more, and can fail only by its
      disk: no chunk is refused as duplicate, overflowing, misplaced or discontinuous, and no digest differs. */
  lemma WindowBound(x: Setup, ss: seq<State>)
    requires GoodSetup(x) && RoomForWindow(x.c) && IsRun(x, ss, true)
    ensures var r := Last(ss).rcv;
      && r.status in {Running, Committed, Failed(DiskError)}
      && (r.status.Running? ==> r.pendingBytes < 8 * 1024 * 1024 + x.c.file.chunkSize)
  {
    RunTidy(x, ss);
    if Last(ss).rcv.status.Running? { WindowBoundsBuffer(x, StartOf(ss), Last(ss)); }
  }

  // ---------- no lost wake-up ----------

  /** Whatever the interleaving, a sender about to decide or wait on a value older than its counter has a token
      in the acks channel or a handler about to push one. */
  lemma NoLostWakeUp(x: Setup, ss: seq<State>)
    requires GoodSetup(x) && IsRun(x, ss, false)
    ensures var snd := Last(ss).snd;
      && (snd.pc.AwaitWindow? && snd.received > snd.pc.seen ==> snd.token || snd.notifying)
      && (snd.pc.AwaitFinal? && snd.acked > snd.pc.seen ==> snd.token || snd.notifying)
  {
    RunSafe(x, ss);
  }

  // ---------- no deadlock ----------

  ghost predicate Quiescent(x: Setup, s: State) {
    forall p :: Reliable(p) ==> !Enabled(x, s, p)
  }

  lemma NothingToDo(x: Setup, s: State)
    requires Quiescent(x, s) && 0 <= s.delivered <= |s.rcv.out|
    ensures !s.snd.notifying && s.delivered == |s.rcv.out| && !s.endInFlight
    ensures (s.snd.pc.AwaitWindow? && !s.snd.token) || (s.snd.pc.AwaitFinal? && !s.snd.token)
      || s.snd.pc.Completed? || s.snd.pc.Aborted?
    ensures forall i | i in s.inflight :: !(0 <= i < x.c.file.totalChunks)
  {
    assert Reliable(ReadWindow) && Reliable(DecideWindow) && Reliable(WakeWindow) && Reliable(ReadFinal)
      && Reliable(DecideEnd) && Reliable(WakeFinal) && Reliable(TakeMessage) && Reliable(Notify)
      && Reliable(DeliverEnd);
    forall i | i in s.inflight ensures !(0 <= i < x.c.file.totalChunks) {
      assert Reliable(DeliverChunk(i));
      assert !Enabled(x, s, DeliverChunk(i));
    }
  }

  lemma NothingInFlight(x: Setup, start: int, s: State)
    requires GoodSetup(x) && Tidy(x, start, s) && s.rcv.status.Running?
    requires forall i | i in s.inflight :: !(0 <= i < x.c.file.totalChunks)
    ensures s.rcv.expectedIndex == s.snd.index
  {}

  /** A state in which nothing can happen any more is a completed and committed transfer. */
  lemma QuiescentIsDone(x: Setup, start: int, s: State)
    requires GoodSetup(x) && AllOk(x.env) && Tidy(x, start, s) && Quiescent(x, s)
    ensures s.snd.pc.Completed? && HasFile(x, s)
  {
    NothingToDo(x, s);
    if s.rcv.status.Running? {
      NothingInFlight(x, start, s);
      CaughtUp(x, start, s);
    } else {
      CommitHeard(x, start, s);
    }
    assert !s.rcv.status.Running?;
    hide Quiescent, Split, Heard, Announced, GoodConfig, AllOk, Off;
  }

  // With everything delivered, the sender has heard of all but less than one progress interval.
  lemma CaughtUp(x: Setup, start: int, s: State)
    requires GoodSetup(x) && Tidy(x, start, s) && s.rcv.status.Running?
    requires s.rcv.expectedIndex == s.snd.index && s.delivered == |s.rcv.out| && !s.endInFlight
    requires !s.snd.token && !s.snd.notifying
    ensures !s.snd.pc.AwaitWindow? && !s.snd.pc.AwaitFinal? && !s.snd.pc.Completed?
  {
    var r := s.rcv;
    AllWritten(x.c, x.k, r);
    assert r.lastProgressAck <= s.snd.received by {
      if FileProgress(r.lastProgressAck) in r.out {
        var j :| 0 <= j < |r.out| && r.out[j] == FileProgress(r.lastProgressAck);
      }
    }
    assert Timely(x.c, r);
    hide GoodConfig, Core, Off, Split, Heard, Announced;
  }

  lemma CommitHeard(x: Setup, start: int, s: State)
    requires GoodSetup(x) && Tidy(x, start, s) && s.rcv.status.Committed? && s.delivered == |s.rcv.out|
    ensures s.snd.acked >= x.c.file.size
  {
    var j :| 0 <= j < |s.rcv.out| && s.rcv.out[j] == FileAck(x.c.file.size);
  }

  // ---------- termination ----------

  function Rank(pc: Pc): int {
    match pc
    case AtWindow => 9
    case Decide(_) => 8
    case AwaitWindow(_) => 7
    case AtFinal => 3
    case DecideFinal(_) => 2
    case AwaitFinal(_) => 1
    case _ => 0
  }

  // Unsent, unwritten and in-flight chunks, messages under way, the sender's pending wake-up and position.
  function Measure(x: Setup, s: State): int {
    var total, snd, r := x.c.file.totalChunks, s.snd, s.rcv;
    3 * (total - snd.index) + 14 * (total - r.expectedIndex) + (if r.status.Running? then 7 else 0)
      + 7 * (|r.out| - s.delivered) + |s.inflight| + (if s.endInFlight then 3 else 0)
      + (if snd.notifying then 6 else 0) + (if snd.token then 5 else 0) + Rank(snd.pc)
  }

  lemma ChunkFalls(x: Setup, start: int, s: State, i: int)
    requires GoodSetup(x) && RoomForWindow(x.c) && AllOk(x.env) && Tidy(x, start, s) && Enabled(x, s, DeliverChunk(i))
    ensures Measure(x, After(x, s, DeliverChunk(i))) < Measure(x, s)
  {
    Delivered(x, start, s, i);
    hide OnEvent, ChunkEvent, Tidy, GoodConfig, Split;
    assert s.inflight == (s.inflight - {i}) + {i};
  }

  lemma EndFalls(x: Setup, start: int, s: State)
    requires GoodSetup(x) && AllOk(x.env) && Tidy(x, start, s) && s.endInFlight
    ensures Measure(x, After(x, s, DeliverEnd)) < Measure(x, s)
  {
    EndDelivered(x, start, s);
    hide OnEvent, Tidy, GoodConfig, Split;
  }

  lemma TakeFalls(x: Setup, s: State)
    requires GoodSetup(x) && Enabled(x, s, TakeMessage)
    ensures Measure(x, After(x, s, TakeMessage)) < Measure(x, s)
  {}

  lemma EmitFalls(x: Setup, s: State)
    requires GoodSetup(x) && Enabled(x, s, DecideWindow)
    ensures Measure(x, After(x, s, DecideWindow)) < Measure(x, s)
  {
    hide GoodSetup;
    assert |s.inflight + {s.snd.index}| <= |s.inflight| + 1;
  }

  lemma SenderFalls(x: Setup, s: State, p: Step)
    requires GoodSetup(x) && Enabled(x, s, p)
    requires p.ReadWindow? || p.WakeWindow? || p.ReadFinal? || p.DecideEnd? || p.WakeFinal? || p.Notify?
    ensures Measure(x, After(x, s, p)) < Measure(x, s)
  {}

  /** Every step over reliable lanes with a working disk lowers the measure. */
  lemma MeasureFalls(x: Setup, start: int, s: State, p: Step)
    requires GoodSetup(x) && RoomForWindow(x.c) && AllOk(x.env) && Tidy(x, start, s)
    requires Enabled(x, s, p) && Reliable(p)
    ensures Measure(x, After(x, s, p)) < Measure(x, s)
  {
    match p
    case DeliverChunk(i) => ChunkFalls(x, start, s, i);
    case DeliverEnd => EndFalls(x, start, s);
    case TakeMessage => TakeFalls(x, s);
    case DecideWindow => EmitFalls(x, s);
    case _ => SenderFalls(x, s, p);
  }

  lemma MeasureBounds(x: Setup, start: int, s: State)
    requires GoodSetup(x) && AllOk(x.env) && Tidy(x, start, s)
    ensures Measure(x, s) >= 0
  {
    hide GoodConfig, Off, Held, PieceSound, Heard, Announced, Split, Inv;
  }

  lemma {:induction false} RunFalls(x: Setup, ss: seq<State>)
    requires GoodSetup(x) && RoomForWindow(x.c) && AllOk(x.env) && IsRun(x, ss, true)
    ensures Measure(x, Last(ss)) + |ss| - 1 <= Measure(x, ss[0])
  {
    if |ss| > 1 {
      var init := ss[..|ss| - 1];
      PrefixRun(x, ss, true);
      RunFalls(x, init);
      RunTidy(x, init);
      var p :| Enabled(x, Last(init), p) && Reliable(p) && Last(ss) == After(x, Last(init), p);
      MeasureFalls(x, StartOf(ss), Last(init), p);
    }
  }

  /** No run over reliable lanes with a working disk takes more than 17 steps a chunk and 16, and a run that
      can go no further is complete on both sides: the destination is the source. */
  lemma RunsEndCommitted(x: Setup, ss: seq<State>)
    requires GoodSetup(x) && RoomForWindow(x.c) && AllOk(x.env) && IsRun(x, ss, true)
    ensures |ss| - 1 <= 17 * (x.c.file.totalChunks - ss[0].snd.index) + 16
    ensures Quiescent(x, Last(ss)) ==> Last(ss).snd.pc.Completed? && HasFile(x, Last(ss))
  {
    RunTidy(x, ss);
    RunFalls(x, ss);
    MeasureBounds(x, StartOf(ss), Last(ss));
    hide Tidy, GoodSetup, Waiting;
    if Quiescent(x, Last(ss)) { QuiescentIsDone(x, StartOf(ss), Last(ss)); }
  }

  /** So every run can be carried on to completion. */
  lemma {:induction false} RunsCanFinish(x: Setup, ss: seq<State>) returns (more: seq<State>)
    requires GoodSetup(x) && RoomForWindow(x.c) && AllOk(x.env) && IsRun(x, ss, true)
    ensures IsRun(x, more, true) && ss <= more
    ensures Last(more).snd.pc.Completed? && HasFile(x, Last(more))
    decreases 17 * (x.c.file.totalChunks - ss[0].snd.index) + 17 - |ss|
  {
    RunsEndCommitted(x, ss);
    if Quiescent(x, Last(ss)) {
      more := ss;
    } else {
      var p :| Reliable(p) && Enabled(x, Last(ss), p);
      var longer := ss + [After(x, Last(ss), p)];
      forall j | 0 <= j < |longer| - 1 ensures Follows(x, longer[j], longer[j + 1], true) {
        if j < |ss| - 1 { assert Follows(x, ss[j], ss[j + 1], true); }
      }
      RunsEndCommitted(x, longer);
      more := RunsCanFinish(x, longer);
    }
  }

  /** After any number of sessions on this disk, each stopped anywhere, over consistent metadata: a session for a file
      in use, started on what they left, can be carried over reliable lanes with a working disk to the point where
      the sender is done and the destination is the source. */
  lemma ResumedTransferCommits(world: FileMetadata -> seq<byte>, used: set<FileMetadata>, xs: seq<Session>,
                               d0: Disk, d: Disk, x: Setup, maxFileSize: int)
    returns (ss: seq<State>)
    requires Uses(used, xs, d0) && Consistent(world, used) && HonestDisk(world, d0) && Leaves(world, xs, d0, d)
    requires x.k == Claim(world, true, d) && x.c.file in used && GoodSetup(x) && RoomForWindow(x.c) && AllOk(x.env)
    requires (maxFileSize <= 0 || x.c.file.size <= maxFileSize) && (x.c.overwrite || d.dest.None?)
    ensures IsRun(x, ss, true) && ss[0].rcv == StartReceive(x.c, x.env, maxFileSize, d)
    ensures Last(ss).snd.pc.Completed? && Now(Last(ss).rcv.trace).dest == Some(world(x.c.file))
  {
    LeavesHonest(world, used, xs, d0, d);
    LeavesUsed(world, used, xs, d0, d);
    assert Denotes(world, d, x.c.file);
    StartsExactly(x.c, x.env, maxFileSize, d);
    Handshake(x, maxFileSize, d);
    var r, m := StartReceive(x.c, x.env, maxFileSize, d), x.c.file;
    var answer := if r.out[0].ResumeState? then r.out[0].receivedBytes else 0;
    var start := UsableOffset(answer, m.size, m.chunkSize);
    var s := State(Sender(AtWindow, start, start / m.chunkSize, start, start, false, false), {}, false, r, 1);
    hide StartReceive, Initial, GoodSetup, Leaves;
    ss := RunsCanFinish(x, [s]);
    assert ss[0] == s;
  }
}
