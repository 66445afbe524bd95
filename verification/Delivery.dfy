/** What reliable lanes add: the window bounds the reorder buffer, nothing deadlocks, every run ends committed. */
module Deliveries {
  import opened Wrappers
  import opened Chunking
  import opened Disks
  import opened Receiving
  import opened ReceiveInvariant
  import opened Sending
  import opened Transfers

  // The reorder limit leaves room for a full window and one chunk.
  predicate RoomForWindow(c: Config) { MAX_UNACKNOWLEDGED + c.file.chunkSize <= c.maxReorderBufferBytes }

  // Every chunk sent and not yet written is on the lanes or in the reorder map, never both.
  ghost predicate Split(index: int, inflight: set<int>, r: Receiver) {
    && r.expectedIndex <= index
    && (forall i | i in inflight :: r.expectedIndex <= i < index)
    && (forall i | i in r.pending :: i < index)
    && (forall i | r.expectedIndex <= i < index :: i in r.pending <==> i !in inflight)
  }

  ghost predicate InWindow(x: Setup, s: State) {
    s.snd.offset < s.rcv.expectedOffset + MAX_UNACKNOWLEDGED + x.c.file.chunkSize
  }

  // The messages taken so far are reflected in the sender's counters.
  ghost predicate Heard(s: State) {
    forall j | 0 <= j < s.delivered && j < |s.rcv.out| ::
      && (s.rcv.out[j].FileAck? ==> s.rcv.out[j].receivedBytes <= s.snd.acked)
      && (s.rcv.out[j].FileAck? || s.rcv.out[j].FileProgress? ==> s.rcv.out[j].receivedBytes <= s.snd.received)
  }

  predicate PastStreaming(pc: Pc) { pc.AtFinal? || pc.DecideFinal? || pc.AwaitFinal? || pc.Completed? }

  ghost predicate Waits(x: Setup, s: State) {
    && (s.snd.pc.AwaitWindow? ==> s.snd.offset - s.snd.pc.seen >= MAX_UNACKNOWLEDGED)
    && (s.snd.pc.AwaitFinal? ==> s.snd.pc.seen < x.c.file.size)
    && !s.snd.pc.Aborted?
  }

  ghost predicate Announced(x: Setup, start: int, r: Receiver) {
    && (r.lastProgressAck == start || FileProgress(r.lastProgressAck) in r.out)
    && (r.status.Committed? ==> FileAck(x.c.file.size) in r.out)
  }

  // The invariant of runs over reliable lanes.
  ghost predicate Tidy(x: Setup, start: int, s: State) {
    && Safe(x, start, s)
    && s.rcv.status in {Running, Committed, Failed(DiskError)}
    && (AllOk(x.env) ==> s.rcv.status != Failed(DiskError))
    && (s.rcv.status.Running? || s.rcv.status.Committed? ==> s.rcv.expectedIndex <= x.c.file.totalChunks)
    && (forall i | i in s.inflight :: 0 <= i < s.snd.index)
    && (s.rcv.status.Running? ==>
          && Split(s.snd.index, s.inflight, s.rcv) && InWindow(x, s)
          && (PastStreaming(s.snd.pc) && !s.endInFlight ==> s.rcv.end.Some?))
    && Heard(s) && Waits(x, s) && Announced(x, start, s.rcv)
  }

  /** The reorder map never holds a full window and one chunk more, so neither limit nor duplicate can fail it. */
  lemma WindowBoundsBuffer(x: Setup, start: int, s: State)
    requires GoodSetup(x) && Tidy(x, start, s) && s.rcv.status.Running?
    ensures s.rcv.pendingBytes < MAX_UNACKNOWLEDGED + x.c.file.chunkSize
    ensures RoomForWindow(x.c) ==>
      forall i | i in s.inflight && i < x.c.file.totalChunks :: Accepts(x.c, s.rcv, ChunkEvent(x, i))
  {
    var m, r := x.c.file, s.rcv;
    OffOrder(m, r.expectedIndex, s.snd.index);
    HeldBound(m, r.pending.Keys, r.expectedIndex, s.snd.index, m.totalChunks);
    assert Min(m.totalChunks, s.snd.index) == s.snd.index;
    assert r.pendingBytes == Held(m, r.pending.Keys, m.totalChunks);
    forall i | i in s.inflight && i < m.totalChunks && RoomForWindow(x.c) ensures Accepts(x.c, r, ChunkEvent(x, i)) {
      OneMore(x, start, s, i);
    }
  }

  lemma OneMore(x: Setup, start: int, s: State, i: int)
    requires GoodSetup(x) && Tidy(x, start, s) && s.rcv.status.Running? && RoomForWindow(x.c)
    requires i in s.inflight && i < x.c.file.totalChunks
    ensures i !in s.rcv.pending && s.rcv.expectedIndex <= i
    ensures Accepts(x.c, s.rcv, ChunkEvent(x, i))
  {
    var m, r := x.c.file, s.rcv;
    SourceEvents(x, i);
    OffOrder(m, r.expectedIndex, s.snd.index);
    HeldAdd(m, r.pending.Keys, i, m.totalChunks);
    HeldBound(m, r.pending.Keys + {i}, r.expectedIndex, s.snd.index, m.totalChunks);
    hide Off, Held, ChunkEvent, WellFormed, Sound, Logged, Mirrored, PieceSound, GoodConfig;
    assert r.pendingBytes == Held(m, r.pending.Keys, m.totalChunks);
  }

  // ---------- the invariant is kept ----------

  lemma NoMismatch(x: Setup, end: string, bytes: seq<byte>)
    requires GoodSetup(x) && bytes == x.k.world(x.c.file)
    ensures !DigestDiffers(x.c, end, bytes)
  {}

  lemma SplitStep(index: int, inflight: set<int>, s: Receiver, i: int, r: Receiver)
    requires Split(index, inflight, s) && i in inflight && Drained(s, i, r) && r.status.Running?
    ensures Split(index, inflight - {i}, r)
  {
    var held, gap := s.pending.Keys + {i}, r.expectedIndex;
    assert index !in held;
  }

  // What a chunk taken from the lanes does to the receiver.
  lemma Delivered(x: Setup, start: int, s: State, i: int)
    requires GoodSetup(x) && RoomForWindow(x.c) && Tidy(x, start, s) && Enabled(x, s, DeliverChunk(i))
    ensures var r := OnEvent(x.c, x.env, s.rcv, ChunkEvent(x, i));
      && r.status in {Running, Committed, Failed(DiskError)}
      && (AllOk(x.env) ==> r.status != Failed(DiskError))
      && (r.status.Running? ==> r.end == s.rcv.end)
      && (s.rcv.status.Running? && r.status.Running? ==>
            && Split(s.snd.index, s.inflight - {i}, r) && r.expectedIndex <= x.c.file.totalChunks
            && |r.out| <= |s.rcv.out| + 2 * (r.expectedIndex - s.rcv.expectedIndex))
      && (s.rcv.status.Running? && r.status.Committed? ==>
            && r.expectedIndex <= x.c.file.totalChunks
            && |r.out| <= |s.rcv.out| + 2 * (r.expectedIndex - s.rcv.expectedIndex) + 1)
      && (!s.rcv.status.Running? ==> r == s.rcv)
  {
    RunningReceiver(x, start, s);
    SourceEvents(x, i);
    hide OnEvent, ChunkEvent, ChunkLen, ValidMetadata, Fits, Tidy, Waiting, WellFormed, Accepts,
         DigestDiffers, Drained, Split, AllOk, Truthful;
    if s.rcv.status.Running? {
      OneMore(x, start, s, i);
      var e := ChunkEvent(x, i);
      ChunkOutcome(x.c, x.k, x.env, s.rcv, e);
      var r := OnEvent(x.c, x.env, s.rcv, e);
      if !r.status.Running? && r.status != Failed(DiskError) { NoMismatch(x, s.rcv.end.value, r.hashed); }
      if r.status.Running? { SplitStep(s.snd.index, s.inflight, s.rcv, i, r); }
    } else {
      IgnoredEvent(x, s.rcv, ChunkEvent(x, i));
    }
  }

  lemma IgnoredEvent(x: Setup, r: Receiver, e: Event)
    requires !r.status.Running?
    ensures OnEvent(x.c, x.env, r, e) == r
  {}

  lemma RunningReceiver(x: Setup, start: int, s: State)
    requires GoodSetup(x) && Tidy(x, start, s)
    ensures GoodConfig(x.c, x.k) && x.k.honest
    ensures s.rcv.status in {Running, Committed, Failed(DiskError)}
    ensures AllOk(x.env) ==> s.rcv.status != Failed(DiskError)
    ensures s.rcv.status.Running? ==>
      Waiting(x.c, x.k, s.rcv) && Split(s.snd.index, s.inflight, s.rcv)
  {}

  // What the end message does to the receiver.
  lemma EndDelivered(x: Setup, start: int, s: State)
    requires GoodSetup(x) && Tidy(x, start, s)
    ensures var r := OnEvent(x.c, x.env, s.rcv, EndEvent(x));
      && r.status in {Running, Committed, Failed(DiskError)}
      && (AllOk(x.env) ==> r.status != Failed(DiskError))
      && (s.rcv.status.Running? && r.status.Running? ==>
            && Split(s.snd.index, s.inflight, r) && r.end.Some?
            && r.expectedIndex == s.rcv.expectedIndex && r.expectedOffset == s.rcv.expectedOffset && r.out == s.rcv.out)
      && (s.rcv.status.Running? && r.status.Committed? ==>
            r.expectedIndex == s.rcv.expectedIndex && |r.out| <= |s.rcv.out| + 1)
      && (!s.rcv.status.Running? ==> r == s.rcv)
  {
    if s.rcv.status.Running? {
      var s1 := s.rcv.(end := Some(x.c.file.sha256));
      hide Sound, ViewOf, OutSound, PieceSound, Held, Mirrored, Off, EqualFold, Safe, GoodConfig, Heard, Announced;
      CompleteKeeps(x.c, x.k, x.env, s1);
      AllWritten(x.c, x.k, s1);
      if s1.expectedOffset == x.c.file.size {
        assert s1.hashed == x.k.world(x.c.file) by { WholeHashed(x, s1); }
        NoMismatch(x, s1.end.value, s1.hashed);
      }
      hide Complete, Core, Timely, Over;
    }
  }

  lemma WholeHashed(x: Setup, s: Receiver)
    requires GoodSetup(x) && Core(x.c, x.k, s) && s.expectedOffset == x.c.file.size
    ensures s.hashed == x.k.world(x.c.file)
  {}

  lemma AnnouncedStep(x: Setup, start: int, s: Receiver, r: Receiver)
    requires Announced(x, start, s) && Grows(x.c, s, r) && x.c.file.progressAck
    ensures Announced(x, start, r)
  {}

  lemma HeardStep(s: State, r: Receiver)
    requires Heard(s) && s.delivered <= |s.rcv.out| && s.rcv.out <= r.out
    ensures Heard(s.(rcv := r))
  {}

  lemma DeliverChunkTidy(x: Setup, start: int, s: State, i: int)
    requires GoodSetup(x) && RoomForWindow(x.c) && Tidy(x, start, s) && Enabled(x, s, DeliverChunk(i))
    ensures Tidy(x, start, After(x, s, DeliverChunk(i)))
  {
    var r := OnEvent(x.c, x.env, s.rcv, ChunkEvent(x, i));
    SafeStep(x, start, s, DeliverChunk(i));
    Delivered(x, start, s, i);
    OnEventGrows(x.c, x.env, s.rcv, ChunkEvent(x, i));
    AnnouncedStep(x, start, s.rcv, r);
    HeardStep(s, r);
    hide OnEvent, ChunkEvent, Safe, GoodConfig, Split, Announced;
  }

  lemma DeliverEndTidy(x: Setup, start: int, s: State)
    requires GoodSetup(x) && Tidy(x, start, s) && s.endInFlight
    ensures Tidy(x, start, After(x, s, DeliverEnd))
  {
    var r := OnEvent(x.c, x.env, s.rcv, EndEvent(x));
    SafeStep(x, start, s, DeliverEnd);
    EndDelivered(x, start, s);
    OnEventGrows(x.c, x.env, s.rcv, EndEvent(x));
    AnnouncedStep(x, start, s.rcv, r);
    HeardStep(s, r);
    hide OnEvent, Safe, GoodConfig, Split, Announced;
  }

  lemma HeardTaken(s: State)
    requires Heard(s) && 0 <= s.delivered < |s.rcv.out|
    ensures Heard(s.(snd := Take(s.snd, s.rcv.out[s.delivered]), delivered := s.delivered + 1))
  {}

  lemma TakeTidy(x: Setup, start: int, s: State)
    requires GoodSetup(x) && Tidy(x, start, s) && Enabled(x, s, TakeMessage)
    ensures Tidy(x, start, After(x, s, TakeMessage))
  {
    SafeStep(x, start, s, TakeMessage);
    HeardTaken(s);
    hide Safe, GoodConfig, Split, Announced, Heard;
  }

  lemma HeardKept(s: State, t: State)
    requires Heard(s) && t.delivered == s.delivered && t.rcv == s.rcv
    requires s.snd.acked <= t.snd.acked && s.snd.received <= t.snd.received
    ensures Heard(t)
  {}

  lemma SenderTidy(x: Setup, start: int, s: State, p: Step)
    requires GoodSetup(x) && Tidy(x, start, s) && Enabled(x, s, p)
    requires p.ReadWindow? || p.WakeWindow? || p.ReadFinal? || p.DecideEnd? || p.WakeFinal? || p.Notify?
    ensures Tidy(x, start, After(x, s, p))
  {
    SafeStep(x, start, s, p);
    HeardKept(s, After(x, s, p));
    hide Safe, GoodConfig, Split, Announced, Heard;
  }

  lemma EmitSplit(index: int, inflight: set<int>, r: Receiver)
    requires Split(index, inflight, r)
    ensures Split(index + 1, inflight + {index}, r)
  {}

  lemma EmitTidy(x: Setup, start: int, s: State)
    requires GoodSetup(x) && Tidy(x, start, s) && s.snd.pc.Decide?
    ensures Tidy(x, start, After(x, s, DecideWindow))
  {
    SafeStep(x, start, s, DecideWindow);
    EmitStep(x, start, s);
    assert s.snd.pc.seen <= s.rcv.expectedOffset && s.snd.index >= 0;
    if s.rcv.status.Running? { EmitSplit(s.snd.index, s.inflight, s.rcv); }
    HeardKept(s, After(x, s, DecideWindow));
    hide Safe, GoodConfig, Announced, Off, Split, Heard;
  }

  /** Every step over reliable lanes keeps the two sides in step. */
  lemma TidyStep(x: Setup, start: int, s: State, p: Step)
    requires GoodSetup(x) && RoomForWindow(x.c) && Tidy(x, start, s) && Enabled(x, s, p) && Reliable(p)
    ensures Tidy(x, start, After(x, s, p))
  {
    match p
    case DeliverChunk(i) => DeliverChunkTidy(x, start, s, i);
    case DeliverEnd => DeliverEndTidy(x, start, s);
    case DecideWindow => EmitTidy(x, start, s);
    case TakeMessage => TakeTidy(x, start, s);
    case _ => SenderTidy(x, start, s, p);
  }
}
