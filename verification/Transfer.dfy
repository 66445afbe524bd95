/** Sender and receiver over lanes that deliver chunks in any order: one step relation for both sides. */
module Transfers {
  import opened Wrappers
  import opened Chunking
  import opened Disks
  import opened Receiving
  import opened ReceiveInvariant
  import opened Sessions
  import opened Sending
  import ReceiveLoops

  // Where SendFile stands: about to read received (acked), holding the value it read, or waiting on acks.
  datatype Pc =
    | AtWindow | Decide(seen: int) | AwaitWindow(seen: int)
    | AtFinal | DecideFinal(seen: int) | AwaitFinal(seen: int)
    | Completed | Aborted

  // token: the slot of the acks channel is full; notifying: handleControl has unlocked and not yet notified.
  datatype Sender = Sender(
    pc: Pc, offset: int, index: int, acked: int, received: int, token: bool, notifying: bool)

  // inflight: chunks on the lanes; endInFlight: file_end on its way; delivered: how many of the receiver's
  // control messages the sender has taken.
  datatype State = State(snd: Sender, inflight: set<int>, endInFlight: bool, rcv: Receiver, delivered: int)

  // k.world(c.file) is the file being sent.
  datatype Setup = Setup(c: Config, env: Env, k: Claim)

  datatype Step =
    | ReadWindow | DecideWindow | WakeWindow
    | ReadFinal | DecideEnd | WakeFinal
    | TakeMessage | Notify
    | DeliverChunk(i: int) | DeliverEnd
    | Abort                    // cancellation or timeout on the sender's side
    | Disturb(e: Event)        // cancellation, timeout or closing on the receiver's side
    | Lose(i: int)             // a lane drops a chunk
    | Again(i: int)            // a chunk arrives once more

  // The last four never happen over reliable lanes with nobody giving up.
  predicate Reliable(p: Step) { !(p.Abort? || p.Disturb? || p.Lose? || p.Again?) }

  ghost predicate GoodSetup(x: Setup) {
    && GoodConfig(x.c, x.k) && x.k.honest && Modern(x.c)
    && x.c.file.sha256 == x.c.hash(x.k.world(x.c.file)) && ValidSha256(x.c.file.sha256)
  }

  function Source(x: Setup): seq<byte> { x.k.world(x.c.file) }

  function ChunkEvent(x: Setup, i: int): Event
    requires Admissible(x.c.file) && |Source(x)| == x.c.file.size && 0 <= i < x.c.file.totalChunks
  {
    var o := TrueChunk(x.c.file, Source(x), i);
    Chunk(x.c.id, o.index, o.offset, |o.data|, o.data)
  }

  function EndEvent(x: Setup): Event { Receiving.End(x.c.file.sha256) }

  // ---------- the steps ----------

  function Take(snd: Sender, m: Message): Sender {
    match m
    case FileAck(n) => snd.(acked := Max(snd.acked, n), received := Max(snd.received, n), notifying := true)
    case FileProgress(n) => snd.(received := Max(snd.received, n), notifying := true)
    case _ => snd
  }

  predicate Enabled(x: Setup, s: State, p: Step) {
    match p
    case ReadWindow => s.snd.pc.AtWindow?
    case DecideWindow => s.snd.pc.Decide?
    case WakeWindow => s.snd.pc.AwaitWindow? && s.snd.token
    case ReadFinal => s.snd.pc.AtFinal?
    case DecideEnd => s.snd.pc.DecideFinal?
    case WakeFinal => s.snd.pc.AwaitFinal? && s.snd.token
    case TakeMessage => !s.snd.notifying && 0 <= s.delivered < |s.rcv.out|
    case Notify => s.snd.notifying
    case DeliverChunk(i) => i in s.inflight && 0 <= i < x.c.file.totalChunks
    case DeliverEnd => s.endInFlight
    case Abort => !s.snd.pc.Completed?
    case Disturb(e) => e.Cancelled? || e.Deadline? || e.Closed?
    case Lose(i) => i in s.inflight
    case Again(i) => 0 <= i < s.snd.index && i < x.c.file.totalChunks
  }

  ghost function After(x: Setup, s: State, p: Step): State
    requires GoodSetup(x) && Enabled(x, s, p)
  {
    var m, snd := x.c.file, s.snd;
    match p
    case ReadWindow =>
      if snd.offset < m.size then s.(snd := snd.(pc := Decide(snd.received)))
      else s.(snd := snd.(pc := AtFinal), endInFlight := true)
    case DecideWindow =>
      if snd.offset - snd.pc.seen >= MAX_UNACKNOWLEDGED then s.(snd := snd.(pc := AwaitWindow(snd.pc.seen)))
      else s.(snd := snd.(pc := AtWindow, offset := snd.offset + Min(m.chunkSize, m.size - snd.offset),
                          index := snd.index + 1),
              inflight := s.inflight + {snd.index})
    case WakeWindow => s.(snd := snd.(pc := AtWindow, token := false))
    case ReadFinal => s.(snd := snd.(pc := DecideFinal(snd.acked)))
    case DecideEnd =>
      s.(snd := snd.(pc := if snd.pc.seen >= m.size then Completed else AwaitFinal(snd.pc.seen)))
    case WakeFinal => s.(snd := snd.(pc := AtFinal, token := false))
    case TakeMessage => s.(snd := Take(snd, s.rcv.out[s.delivered]), delivered := s.delivered + 1)
    case Notify => s.(snd := snd.(token := true, notifying := false))
    case DeliverChunk(i) =>
      s.(inflight := s.inflight - {i}, rcv := OnEvent(x.c, x.env, s.rcv, ChunkEvent(x, i)))
    case DeliverEnd => s.(endInFlight := false, rcv := OnEvent(x.c, x.env, s.rcv, EndEvent(x)))
    case Abort => s.(snd := snd.(pc := Aborted))
    case Disturb(e) => s.(rcv := OnEvent(x.c, x.env, s.rcv, e))
    case Lose(i) => s.(inflight := s.inflight - {i})
    case Again(i) => s.(rcv := OnEvent(x.c, x.env, s.rcv, ChunkEvent(x, i)))
  }

  // Both sides have agreed on the offset; nothing else has been sent.
  ghost predicate Initial(x: Setup, s: State) {
    && Waiting(x.c, x.k, s.rcv) && s.rcv.pending == map[] && s.rcv.end.None?
    && s.rcv.lastProgressAck == s.rcv.lastDurable == s.rcv.expectedOffset
    && (forall m | m in s.rcv.out :: m.Accept? || m.ResumeState?)
    && s.delivered == |s.rcv.out| && s.inflight == {} && !s.endInFlight
    && s.snd == Sender(AtWindow, s.rcv.expectedOffset, s.rcv.expectedIndex,
                       s.rcv.expectedOffset, s.rcv.expectedOffset, false, false)
  }

  // ---------- safety, whatever happens on the way ----------

  // start is the offset both sides agreed on.
  ghost predicate Safe(x: Setup, start: int, s: State) {
    var m, snd := x.c.file, s.snd;
    && Inv(x.c, x.k, s.rcv)
    && 0 <= start <= m.size
    && 0 <= snd.index <= m.totalChunks && snd.offset == Off(m, snd.index)
    && (snd.pc.Decide? || snd.pc.AwaitWindow? ==> snd.offset < m.size && snd.pc.seen <= snd.received)
    && (snd.pc.AtFinal? || snd.pc.DecideFinal? || snd.pc.AwaitFinal? || snd.pc.Completed? ==>
          snd.index == m.totalChunks)
    && (snd.pc.DecideFinal? || snd.pc.AwaitFinal? ==> snd.pc.seen <= snd.acked)
    && (snd.pc.Completed? ==> snd.acked >= m.size)
    && 0 <= s.delivered <= |s.rcv.out|
    && start <= snd.acked <= m.size && start <= snd.received <= s.rcv.expectedOffset
    && (snd.acked >= m.size ==> start == m.size || s.rcv.status.Committed?)
    && Awake(snd)
  }

  // A sender that will decide or wait on a stale counter has its token, or a handler about to push it.
  ghost predicate Awake(snd: Sender) {
    && ((snd.pc.Decide? || snd.pc.AwaitWindow?) && snd.received > snd.pc.seen ==> snd.token || snd.notifying)
    && ((snd.pc.DecideFinal? || snd.pc.AwaitFinal?) && snd.acked > snd.pc.seen ==> snd.token || snd.notifying)
  }

  // ---------- how the receiver's reports move ----------

  // How progress is reported, as the sender's flag asks.
  function Reported(c: Config, n: int): Message { if c.file.progressAck then FileProgress(n) else FileAck(n) }

  // From s to r the receiver only moves forward, reports what it records, and announces its commit.
  ghost predicate Grows(c: Config, s: Receiver, r: Receiver) {
    && s.expectedOffset <= r.expectedOffset && s.out <= r.out
    && (s.lastDurable <= s.expectedOffset ==> s.lastDurable <= r.lastDurable <= r.expectedOffset)
    && (r.lastProgressAck == s.lastProgressAck || Reported(c, r.lastProgressAck) in r.out)
    && (r.status.Running? && r.lastDurable != s.lastDurable && (r.lastDurable < c.file.size || !c.file.commitAck) ==>
          FileAck(r.lastDurable) in r.out)
    && (forall m | m in r.out && m.FileProgress? :: m in s.out || c.file.progressAck)
    && (r.status.Committed? ==> s.status.Committed? || FileAck(c.file.size) in r.out)
  }

  lemma GrowsOn(c: Config, s: Receiver, t: Receiver, r: Receiver)
    requires Grows(c, s, t) && Grows(c, t, r) && t.status.Running?
    ensures Grows(c, s, r)
  {}

  lemma AppendGrows(c: Config, env: Env, s: Receiver)
    requires s.status.Running? && s.expectedIndex in s.pending
    ensures Grows(c, s, Append(env, s)) && !Append(env, s).status.Committed?
  {}

  lemma ReportGrows(c: Config, env: Env, s: Receiver)
    ensures Grows(c, s, Report(c, env, s)) && Report(c, env, s).status == s.status
  {}

  lemma CheckpointGrows(c: Config, env: Env, s: Receiver)
    requires s.status.Running?
    ensures Grows(c, s, Checkpoint(c, env, s)) && !Checkpoint(c, env, s).status.Committed?
  {}

  lemma PromoteGrows(c: Config, env: Env, s: Receiver)
    requires s.status.Running?
    ensures Grows(c, s, Promote(c, env, s))
  {}

  lemma WriteNextGrows(c: Config, env: Env, s: Receiver)
    requires s.status.Running? && s.expectedIndex in s.pending
    ensures Grows(c, s, WriteNext(c, env, s)) && !WriteNext(c, env, s).status.Committed?
  {
    hide Append, Checkpoint, Report, Grows;
    AppendGrows(c, env, s);
    var s1 := Append(env, s);
    if s1.status.Running? {
      var s2 := s1;
      if s1.expectedOffset - s1.lastDurable >= c.durableAckInterval || s1.expectedOffset == c.file.size {
        s2 := Checkpoint(c, env, s1);
        CheckpointGrows(c, env, s1);
        GrowsOn(c, s, s1, s2);
      }
      if s2.status.Running? {
        ReportGrows(c, env, s2);
        GrowsOn(c, s, s2, Report(c, env, s2));
      }
    }
  }

  lemma {:induction false} DrainGrows(c: Config, env: Env, s: Receiver)
    requires s.status.Running?
    ensures Grows(c, s, Drain(c, env, s)) && !Drain(c, env, s).status.Committed?
    decreases |s.pending|
  {
    if s.expectedIndex in s.pending {
      hide WriteNext, Grows;
      assert s.pending == (s.pending - {s.expectedIndex})[s.expectedIndex := s.pending[s.expectedIndex]];
      WriteNextGrows(c, env, s);
      ReceiveLoops.WriteNextShrinks(c, env, s);
      var t := WriteNext(c, env, s);
      if t.status.Running? {
        DrainGrows(c, env, t);
        GrowsOn(c, s, t, Drain(c, env, t));
      }
    }
  }

  lemma CompleteGrows(c: Config, env: Env, s: Receiver)
    requires s.status.Running?
    ensures Grows(c, s, Complete(c, env, s))
  {
    if s.end.Some? && s.expectedOffset == c.file.size && |s.pending| == 0 {
      var s1 := Do(s, CheckDigest(Wanted(c, s.end.value)));
      assert Grows(c, s, s1);
      assert Grows(c, s, Try(env, Try(env, Fail(s, DigestMismatch), RemovePart), RemoveSidecar));
      hide Promote, Checkpoint, EqualFold, Grows;
      PromoteGrows(c, env, s1);
      GrowsOn(c, s, s1, Promote(c, env, s1));
      CheckpointGrows(c, env, s1);
      var s2 := Checkpoint(c, env, s1);
      GrowsOn(c, s, s1, s2);
      if s2.status.Running? {
        PromoteGrows(c, env, s2);
        GrowsOn(c, s, s2, Promote(c, env, s2));
      }
    }
  }

  lemma OnChunkGrows(c: Config, env: Env, s: Receiver, e: Event)
    requires s.status.Running? && e.Chunk?
    ensures Grows(c, s, OnChunk(c, env, s, e))
  {
    hide Drain, Complete;
    var h := Held1(s, e);
    assert Grows(c, s, h);
    DrainGrows(c, env, h);
    var t := Drain(c, env, h);
    GrowsOn(c, s, h, t);
    if t.status.Running? {
      CompleteGrows(c, env, t);
      GrowsOn(c, s, t, Complete(c, env, t));
    }
  }

  lemma OnEventGrows(c: Config, env: Env, s: Receiver, e: Event)
    ensures Grows(c, s, OnEvent(c, env, s, e))
  {
    hide OnChunk, Complete;
    if s.status.Running? {
      if e.Chunk? {
        OnChunkGrows(c, env, s, e);
      } else if e.End? {
        CompleteGrows(c, env, s.(end := Some(e.sha256)));
      }
    }
  }

  lemma SourceEvents(x: Setup, i: int)
    requires GoodSetup(x) && 0 <= i < x.c.file.totalChunks
    ensures WellFormed(x.c, ChunkEvent(x, i)) && Truthful(x.c, x.k, ChunkEvent(x, i))
    ensures ChunkEvent(x, i).index == i && |ChunkEvent(x, i).data| == ChunkLen(x.c.file, i)
    ensures EndEvent(x) == Receiving.End(x.c.hash(Source(x)))
  {
    ChunkBounds(x.c.file, i);
    ProductOrder(0, i, x.c.file.chunkSize);
  }

  // ---------- safety is kept ----------

  lemma ReceiverStep(x: Setup, start: int, s: State, e: Event)
    requires GoodSetup(x) && Safe(x, start, s) && Truthful(x.c, x.k, e)
    ensures Safe(x, start, s.(rcv := OnEvent(x.c, x.env, s.rcv, e)))
  {
    OnEventKeeps(x.c, x.k, x.env, s.rcv, e);
    OnEventGrows(x.c, x.env, s.rcv, e);
    if s.rcv.status.Committed? { assert OnEvent(x.c, x.env, s.rcv, e) == s.rcv; }
    hide Inv, OnEvent, Off, GoodSetup;
  }

  lemma TakeStep(x: Setup, start: int, s: State)
    requires GoodSetup(x) && Safe(x, start, s) && Enabled(x, s, TakeMessage)
    ensures Safe(x, start, After(x, s, TakeMessage))
  {
    var m := s.rcv.out[s.delivered];
    assert m in s.rcv.out;
    OutOf(x, s.rcv);
    Heeded(x, s.rcv, m);
    hide Inv, Off, GoodConfig, OutSound, GoodSetup;
    assert m.FileAck? ==> start <= Max(s.snd.acked, m.receivedBytes) <= x.c.file.size;
    assert Awake(Take(s.snd, m));
    hide Awake;
  }

  // What a message from the receiver stands for.
  lemma Heeded(x: Setup, r: Receiver, m: Message)
    requires GoodSetup(x) && OutSound(x.c, r.out, r.expectedOffset, r.status.Committed?) && m in r.out
    ensures m.FileProgress? || m.FileAck? ==> m.receivedBytes <= r.expectedOffset
    ensures m.FileAck? && m.receivedBytes >= x.c.file.size ==> r.status.Committed?
  {}

  lemma OutOf(x: Setup, r: Receiver)
    requires GoodSetup(x) && Inv(x.c, x.k, r)
    ensures OutSound(x.c, r.out, r.expectedOffset, r.status.Committed?)
    ensures r.status.Running? || r.status.Committed? ==> 0 <= r.expectedOffset <= x.c.file.size
    ensures forall m | m in r.out && m.FileAck? :: m.receivedBytes <= x.c.file.size
  {}

  // A chunk that starts before the end of the file ends where the next one starts.
  lemma NextChunk(m: FileMetadata, i: int)
    requires Admissible(m) && 0 <= i <= m.totalChunks
    ensures 0 <= Off(m, i) <= m.size && Off(m, m.totalChunks) == m.size
    ensures Off(m, i) < m.size ==>
      i < m.totalChunks && Off(m, i) + Min(m.chunkSize, m.size - Off(m, i)) == Off(m, i + 1) <= Off(m, i) + m.chunkSize
  {
    OffOrder(m, i, i);
    OffEnds(m);
    if i < m.totalChunks { ChunkBounds(m, i); }
  }

  lemma EmitStep(x: Setup, start: int, s: State)
    requires GoodSetup(x) && Safe(x, start, s) && Enabled(x, s, DecideWindow)
    ensures Safe(x, start, After(x, s, DecideWindow))
    ensures 0 <= s.snd.index < x.c.file.totalChunks && s.snd.offset < x.c.file.size
    ensures s.snd.offset - s.snd.pc.seen < MAX_UNACKNOWLEDGED ==>
      After(x, s, DecideWindow).snd.offset == Off(x.c.file, s.snd.index + 1) <= s.snd.offset + x.c.file.chunkSize
  {
    hide Inv, Off, GoodConfig, GoodSetup, Admissible;
    SourceFits(x);
    NextChunk(x.c.file, s.snd.index);
  }

  // What the streaming loop would emit from here on when it reads the received counter so.
  function Streamed(x: Setup, snd: Sender, counter: int -> int): seq<Outgoing>
    requires x.c.file.chunkSize > 0 && snd.offset >= 0
  {
    Stream(Source(x), x.c.file.size, x.c.file.chunkSize, counter, snd.offset, snd.index)
  }

  /** A decision that does not block emits what the streaming loop of SendFile emits next with the counter it read. */
  lemma EmitsStream(x: Setup, start: int, s: State, counter: int -> int)
    requires GoodSetup(x) && Safe(x, start, s) && s.snd.pc.Decide? && s.snd.offset - s.snd.pc.seen < MAX_UNACKNOWLEDGED
    requires counter(s.snd.index) == s.snd.pc.seen
    ensures var snd, u := s.snd, After(x, s, DecideWindow);
      && 0 <= snd.index < x.c.file.totalChunks && x.c.file.chunkSize > 0 && 0 <= snd.offset <= u.snd.offset
      && u.inflight == s.inflight + {snd.index}
      && Streamed(x, snd, counter) == [TrueChunk(x.c.file, Source(x), snd.index)] + Streamed(x, u.snd, counter)
  {
    hide Inv, Off, GoodSetup, Admissible, TrueChunk, Stream, Awake;
    SourceFits(x);
    EmitStep(x, start, s);
    assert s.snd.offset == Off(x.c.file, s.snd.index);
    StreamStep(x.c.file, Source(x), counter, s.snd.index);
  }

  lemma SourceFits(x: Setup)
    requires GoodSetup(x)
    ensures Admissible(x.c.file) && |Source(x)| == x.c.file.size && x.c.file.chunkSize > 0
  {}

  lemma WindowStep(x: Setup, start: int, s: State, p: Step)
    requires GoodSetup(x) && Safe(x, start, s) && Enabled(x, s, p)
    requires p.ReadWindow? || p.WakeWindow? || p.Abort? || p.Lose?
    ensures Safe(x, start, After(x, s, p))
  {
    OffOrder(x.c.file, s.snd.index, s.snd.index);
    hide Inv, Off, GoodConfig;
  }

  lemma FinalStep(x: Setup, start: int, s: State, p: Step)
    requires GoodSetup(x) && Safe(x, start, s) && Enabled(x, s, p)
    requires p.ReadFinal? || p.DecideEnd? || p.WakeFinal? || p.Notify?
    ensures Safe(x, start, After(x, s, p))
  {
    hide Inv, Off, GoodConfig;
  }

  /** Every step, reliable or not, keeps the sender's counters behind the receiver. */
  lemma SafeStep(x: Setup, start: int, s: State, p: Step)
    requires GoodSetup(x) && Safe(x, start, s) && Enabled(x, s, p)
    ensures Safe(x, start, After(x, s, p))
  {
    match p
    case TakeMessage => TakeStep(x, start, s);
    case DecideWindow => EmitStep(x, start, s);
    case DeliverChunk(i) =>
      SourceEvents(x, i);
      ReceiverStep(x, start, s, ChunkEvent(x, i));
      hide Inv, OnEvent, Off, GoodConfig;
    case Again(i) => SourceEvents(x, i); ReceiverStep(x, start, s, ChunkEvent(x, i));
    case DeliverEnd => ReceiverStep(x, start, s, EndEvent(x)); hide Inv, OnEvent, Off, GoodConfig;
    case Disturb(e) => ReceiverStep(x, start, s, e);
    case ReadFinal => FinalStep(x, start, s, p);
    case DecideEnd => FinalStep(x, start, s, p);
    case WakeFinal => FinalStep(x, start, s, p);
    case Notify => FinalStep(x, start, s, p);
    case _ => WindowStep(x, start, s, p);
  }
}
