/** receiveLoop of transfer/manager.go with the variables it updates, proved against Receiving. */
module ReceiveLoops {
  import opened Wrappers
  import opened Chunking
  import opened Disks
  import opened Receiving

  class ReceiveLoop {
    const c: Config
    const env: Env

    var status: Status
    var expectedIndex: int
    var expectedOffset: int
    var filePos: int
    var lastDurable: int
    var lastProgressAck: int
    var pending: map<int, Piece>
    var pendingBytes: int
    var end: Option<string>
    var endTimer: bool
    var hashed: seq<byte>
    var out: seq<Message>
    var trace: Trace

    function State(): Receiver
      reads this
    {
      Receiver(status, expectedIndex, expectedOffset, filePos, lastDurable, lastProgressAck,
               pending, pendingBytes, end, endTimer, hashed, out, trace)
    }

    // The loop takes over what startReceive prepared.
    constructor (c: Config, env: Env, s: Receiver)
      ensures this.c == c && this.env == env && State() == s
    {
      this.c, this.env := c, env;
      status, expectedIndex, expectedOffset, filePos := s.status, s.expectedIndex, s.expectedOffset, s.filePos;
      lastDurable, lastProgressAck := s.lastDurable, s.lastProgressAck;
      pending, pendingBytes := s.pending, s.pendingBytes;
      end, endTimer, hashed, out, trace := s.end, s.endTimer, s.hashed, s.out, s.trace;
    }

    // A system call: it succeeds or changes nothing.
    method Call(a: Act) returns (ok: bool)
      modifies this`trace
      ensures ok == env.ok(old(trace))
      ensures State() == Try(env, old(State()), a)
    {
      ok := env.ok(trace);
      trace := Then(trace, if ok then a else Fruitless);
    }

    method SendControl(m: Message)
      modifies this`trace, this`out
      ensures State() == Say(old(State()), m)
    {
      trace, out := Then(trace, Send(m)), out + [m];
    }

    method ReceiveFailed(reason: Reason)
      modifies this`trace, this`out, this`status
      ensures State() == Fail(old(State()), reason)
    {
      SendControl(FileCancel);
      status := Failed(reason);
    }

    // Returns without an error, or after receiveFailed.
    method SaveSidecar(sidecar: Sidecar) returns (ok: bool)
      modifies this`trace, this`out, this`status
      ensures State() == WritePartialMetadata(env, old(State()), sidecar)
      ensures ok ==> status == old(status)
      ensures !ok ==> status == Failed(DiskError)
    {
      ok := Call(WriteRenewed(sidecar));
      if ok {
        ok := Call(ReplaceSidecar);
      }
      if !ok {
        ReceiveFailed(DiskError);
      }
    }

    method DoCheckpoint() returns (ok: bool)
      requires status.Running?
      modifies this`trace, this`out, this`status, this`lastDurable
      ensures State() == Checkpoint(c, env, old(State()))
      ensures ok == status.Running?
    {
      ok := Call(SyncPart);
      if !ok {
        ReceiveFailed(DiskError);
        return;
      }
      lastDurable := expectedOffset;
      ok := SaveSidecar(Sidecar(c.file, lastDurable));
      if ok && (expectedOffset < c.file.size || !c.file.commitAck) {
        SendControl(FileAck(lastDurable));
      }
    }

    // True when the transfer is over.
    method TryComplete() returns (over: bool)
      requires status.Running?
      modifies this`trace, this`out, this`status, this`lastDurable
      ensures State() == Complete(c, env, old(State()))
      ensures over == !status.Running?
    {
      if end.None? || expectedOffset != c.file.size || |pending| != 0 {
        return false;
      }
      var expectedHash := c.file.sha256;
      if expectedHash == "" {
        expectedHash := end.value;
      }
      if expectedHash != "" && !EqualFold(expectedHash, c.hash(hashed)) {
        ReceiveFailed(DigestMismatch);
        var _ := Call(RemovePart);
        var _ := Call(RemoveSidecar);
        return true;
      }
      trace := Then(trace, CheckDigest(expectedHash));
      if lastDurable != expectedOffset {
        var ok := DoCheckpoint();
        if !ok { return true; }
      }
      DoPromote();
      return true;
    }

    method DoPromote()
      requires status.Running?
      modifies this`trace, this`out, this`status
      ensures State() == Promote(c, env, old(State()))
      ensures !status.Running?
    {
      var ok := Call(ClosePart);
      if !ok {
        ReceiveFailed(DiskError);
        return;
      }
      if c.overwrite {
        var _ := Call(RemoveDest);
      }
      ok := Call(RenamePart);
      if !ok {
        ReceiveFailed(DiskError);
        return;
      }
      var _ := Call(RemoveSidecar);
      SendControl(FileAck(c.file.size));
      status := Committed;
    }

    // Take the next chunk from the reorder map and append it to the part file.
    method DoAppend() returns (ok: bool)
      requires status.Running? && expectedIndex in pending
      modifies this
      ensures State() == Append(env, old(State()))
      ensures ok == status.Running?
    {
      var next := pending[expectedIndex];
      pending := pending - {expectedIndex};
      pendingBytes := pendingBytes - |next.data|;
      if next.offset != expectedOffset {
        ReceiveFailed(BrokenContinuity);
        return false;
      }
      if !env.ok(trace) {
        var n := Min(env.torn(trace), |next.data|);
        trace := Then(trace, WritePart(filePos, next.data[..n]));
        ReceiveFailed(DiskError);
        return false;
      }
      trace := Then(trace, WritePart(filePos, next.data));
      filePos := filePos + |next.data|;
      hashed := hashed + next.data;
      expectedOffset := expectedOffset + |next.data|;
      expectedIndex := expectedIndex + 1;
      return true;
    }

    method DoReport()
      modifies this`trace, this`out, this`lastProgressAck
      ensures State() == Report(c, env, old(State()))
    {
      if expectedOffset < c.file.size &&
         (expectedOffset - lastProgressAck >= PROGRESS_ACK_INTERVAL || env.due(trace)) {
        lastProgressAck := expectedOffset;
        SendControl(if c.file.progressAck then FileProgress(expectedOffset) else FileAck(expectedOffset));
      }
    }

    // One chunk: append, checkpoint when due, report when due.
    method WriteOne()
      requires status.Running? && expectedIndex in pending
      modifies this
      ensures State() == WriteNext(c, env, old(State()))
    {
      hide Append, Checkpoint, Report;
      var ok := DoAppend();
      if ok && (expectedOffset - lastDurable >= c.durableAckInterval || expectedOffset == c.file.size) {
        ok := DoCheckpoint();
      }
      if ok { DoReport(); }
    }

    // The drain loop: everything contiguous goes to the part file.
    method DrainPending()
      requires status.Running?
      modifies this
      ensures State() == Drain(c, env, old(State()))
    {
      ghost var goal := Drain(c, env, State());
      while status.Running? && expectedIndex in pending
        invariant Drain(c, env, State()) == goal
        decreases |pending|
      {
        WriteNextShrinks(c, env, State());
        WriteOne();
      }
    }

    method HandleChunk(e: Event)
      requires status.Running? && e.Chunk?
      modifies this
      ensures State() == OnChunk(c, env, old(State()), e)
    {
      hide Drain, Complete;
      var m := c.file;
      if e.id != c.id || e.index < 0 || e.index >= m.totalChunks || e.length != |e.data| {
        ReceiveFailed(BadIndexOrLength);
        return;
      }
      var chunkOffset := e.index * m.chunkSize;
      var chunkLength := Min(m.chunkSize, m.size - chunkOffset);
      if e.offset != chunkOffset || e.length != chunkLength || chunkOffset < 0 || chunkOffset + chunkLength > m.size {
        ReceiveFailed(BadOffsetOrLength);
        return;
      }
      if e.index < expectedIndex {
        return;
      }
      if e.index in pending {
        ReceiveFailed(DuplicatePending);
        return;
      }
      pending := pending[e.index := Piece(e.offset, e.data)];
      pendingBytes := pendingBytes + |e.data|;
      if pendingBytes > c.maxReorderBufferBytes {
        ReceiveFailed(BufferExceeded);
        return;
      }
      DrainPending();
      if status.Running? {
        var _ := TryComplete();
      }
    }

    method HandleEvent(e: Event)
      requires status.Running?
      modifies this
      ensures State() == OnEvent(c, env, old(State()), e)
    {
      match e
      case Chunk(_, _, _, _, _) =>
        HandleChunk(e);
      case End(sha256) =>
        end := Some(sha256);
        var over := TryComplete();
        if !over { endTimer := true; }
      case Deadline =>
        if endTimer { ReceiveFailed(MissingChunks); }
      case Cancelled =>
        status := Stopped;
      case Closed =>
        status := Stopped;
    }

    /** The select loop over a finite stretch of events, in the order the loop takes them. */
    method Loop(events: seq<Event>) returns (taken: nat)
      modifies this
      ensures State() == Run(c, env, old(State()), events)
      ensures taken <= |events| && (status.Running? ==> taken == |events|)
    {
      taken := 0;
      ghost var start := State();
      assert events[..0] == [];
      while taken < |events| && status.Running?
        invariant taken <= |events| && State() == Run(c, env, start, events[..taken])
      {
        assert events[..taken + 1][..taken] == events[..taken];
        HandleEvent(events[taken]);
        taken := taken + 1;
      }
      RunIgnores(c, env, start, events, taken);
      assert events[..|events|] == events;
    }
  }

  lemma WriteNextShrinks(c: Config, env: Env, s: Receiver)
    requires s.expectedIndex in s.pending
    ensures |WriteNext(c, env, s).pending| < |s.pending|
  {}

  // A finished transfer ignores the rest.
  lemma {:induction false} RunIgnores(c: Config, env: Env, s: Receiver, events: seq<Event>, n: nat)
    requires n <= |events| && (!Run(c, env, s, events[..n]).status.Running? || n == |events|)
    ensures Run(c, env, s, events) == Run(c, env, s, events[..n])
    decreases |events| - n
  {
    if n < |events| {
      assert events[..n + 1][..n] == events[..n];
      RunIgnores(c, env, s, events, n + 1);
    } else {
      assert events[..n] == events;
    }
  }
}
