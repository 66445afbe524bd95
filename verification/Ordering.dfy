/** The outcome of a receive session as a function of which chunks have arrived, not of their order. */
module Ordering {
  import opened Wrappers
  import opened Chunking
  import opened Disks
  import opened Receiving
  import opened ReceiveInvariant
  import opened Sessions
  import Histories

  // A chunk of the offered file, or an end message whose digest does not contradict it.
  ghost predicate Plain(c: Config, k: Claim, e: Event) {
    || (e.Chunk? && WellFormed(c, e) && Truthful(c, k, e))
    || (e.End? && !DigestDiffers(c, e.sha256, k.world(c.file)))
  }

  ghost function Below(n: int): (r: set<int>)
    ensures forall i :: i in r <==> 0 <= i < n
  {
    if n <= 0 then {} else Below(n - 1) + {n - 1}
  }

  // The chunks at hand: those below start, and those that arrived.
  ghost function Seen(start: int, es: seq<Event>): set<int> {
    if es == [] then Below(start) else
    var e := es[|es| - 1];
    Seen(start, es[..|es| - 1]) + if e.Chunk? then {e.index} else {}
  }

  // Every chunk up to i is at hand, so chunk i has been written.
  ghost predicate Contiguous(seen: set<int>, i: int) { forall j | 0 <= j <= i :: j in seen }

  // Chunks at hand that still wait for an earlier one.
  ghost function Stuck(seen: set<int>): set<int> {
    set i | i in seen && exists j :: 0 <= j < i && j !in seen
  }

  ghost predicate AllSeen(c: Config, seen: set<int>) { forall i | 0 <= i < c.file.totalChunks :: i in seen }

  // Each arriving chunk is either a repeat of a written one, or new and within the reorder limit.
  ghost predicate Admits(c: Config, start: int, es: seq<Event>) {
    es == [] ||
    (var init, e := es[..|es| - 1], es[|es| - 1];
     var seen := Seen(start, init);
     && Admits(c, start, init)
     && (e.Chunk? ==>
           || Contiguous(seen, e.index)
           || (e.index !in seen
               && Held(c.file, Stuck(seen) + {e.index}, c.file.totalChunks) <= c.maxReorderBufferBytes)))
  }

  // The receiver has written up to the first missing chunk and holds exactly the stuck ones.
  ghost predicate Caught(s: Receiver, seen: set<int>) {
    && s.expectedIndex !in seen && (forall j | 0 <= j < s.expectedIndex :: j in seen)
    && s.pending.Keys == Stuck(seen)
  }

  ghost predicate Result(c: Config, k: Claim, start: int, es: seq<Event>, r: Receiver) {
    var seen := Seen(start, es);
    if !Admits(c, start, es) then r.status in {Failed(DuplicatePending), Failed(BufferExceeded)}
    else if AllSeen(c, seen) && Histories.Ended(es) then
      r.status == Committed && Now(r.trace).dest == Some(k.world(c.file))
    else r.status == Running && Caught(r, seen) && (r.end.Some? <==> Histories.Ended(es))
  }

  // A freshly started session.
  ghost predicate Fresh(c: Config, k: Claim, s: Receiver) {
    Waiting(c, k, s) && s.pending == map[] && s.end.None?
  }

  lemma SeenRange(c: Config, k: Claim, start: int, es: seq<Event>)
    requires 0 <= start <= c.file.totalChunks && forall e | e in es :: Plain(c, k, e)
    ensures forall i | i in Seen(start, es) :: 0 <= i < c.file.totalChunks
  {
    if es != [] {
      SeenRange(c, k, start, es[..|es| - 1]);
      assert Plain(c, k, es[|es| - 1]);
    }
  }

  lemma StuckAt(s: Receiver, seen: set<int>, j: int)
    requires Caught(s, seen) && s.expectedIndex >= 0 && (forall i | i in seen :: i >= 0)
    ensures j in Stuck(seen) <==> j in seen && j > s.expectedIndex
    ensures j >= 0 ==> (Contiguous(seen, j) <==> j < s.expectedIndex)
  {}

  /** Draining after chunk i moves the receiver to the first gap of the enlarged set. */
  lemma CatchUp(s: Receiver, seen: set<int>, i: int, r: Receiver)
    requires Caught(s, seen) && 0 <= s.expectedIndex <= i && i !in seen && (forall j | j in seen :: j >= 0)
    requires Drained(s, i, r)
    ensures r.expectedIndex !in seen + {i} && forall j | 0 <= j < r.expectedIndex :: j in seen + {i}
    ensures r.status.Running? ==> Caught(r, seen + {i})
  {}

  // What a chunk event finds: a session that has met its result so far.
  ghost predicate Met(c: Config, k: Claim, env: Env, start: int, s: Receiver, init: seq<Event>, e: Event) {
    && GoodConfig(c, k) && k.honest && AllOk(env) && 0 <= start <= c.file.totalChunks
    && (forall x | x in init :: Plain(c, k, x))
    && Plain(c, k, e) && e.Chunk?
    && Inv(c, k, s) && Result(c, k, start, init, s)
    && (s.end.Some? ==> !DigestDiffers(c, s.end.value, k.world(c.file)))
  }

  ghost predicate Fitting(c: Config, seen: set<int>, i: int) {
    || Contiguous(seen, i)
    || (i !in seen && Held(c.file, Stuck(seen) + {i}, c.file.totalChunks) <= c.maxReorderBufferBytes)
  }

  lemma Unfold(c: Config, start: int, init: seq<Event>, e: Event)
    ensures var es := init + [e];
      && Seen(start, es) == Seen(start, init) + (if e.Chunk? then {e.index} else {})
      && (Histories.Ended(es) <==> Histories.Ended(init) || e.End?)
      && (Admits(c, start, es) <==> Admits(c, start, init) && (e.Chunk? ==> Fitting(c, Seen(start, init), e.index)))
  {}

  // Whether the receiver's tests and the condition on the arrivals agree.
  lemma TestsAgree(c: Config, k: Claim, s: Receiver, seen: set<int>, e: Event)
    requires GoodConfig(c, k) && Waiting(c, k, s) && Caught(s, seen) && (forall j | j in seen :: j >= 0)
    requires WellFormed(c, e)
    ensures Fitting(c, seen, e.index) <==> e.index < s.expectedIndex || Accepts(c, s, e)
    ensures s.expectedIndex <= e.index ==> (e.index in seen <==> e.index in s.pending)
  {
    StuckAt(s, seen, e.index);
    assert s.pendingBytes == Held(c.file, s.pending.Keys, c.file.totalChunks);
    if e.index !in s.pending { HeldAdd(c.file, s.pending.Keys, e.index, c.file.totalChunks); }
    assert s.expectedIndex >= 0;
    hide Core, Timely, GoodConfig, Held, Stuck, Contiguous, Caught, ChunkLen;
  }

  lemma Frontier(c: Config, seen: set<int>, g: int)
    requires 0 <= g <= c.file.totalChunks && g !in seen && forall j | 0 <= j < g :: j in seen
    ensures AllSeen(c, seen) <==> g == c.file.totalChunks
  {}

  // An accepted chunk of the offered file, with a working disk.
  lemma NewChunk(c: Config, k: Claim, env: Env, s: Receiver, e: Event)
    requires GoodConfig(c, k) && k.honest && AllOk(env) && Waiting(c, k, s)
    requires Truthful(c, k, e) && Accepts(c, s, e)
    requires s.end.Some? ==> !DigestDiffers(c, s.end.value, k.world(c.file))
    ensures var r := OnEvent(c, env, s, e);
      && Drained(s, e.index, r) && 0 <= r.expectedIndex <= c.file.totalChunks && r.end == s.end
      && if r.expectedIndex == c.file.totalChunks && s.end.Some?
         then r.status == Committed && Now(r.trace).dest == Some(k.world(c.file))
         else r.status == Running
  {
    ChunkOutcome(c, k, env, s, e);
    OnEventKeeps(c, k, env, s, e);
    assert s.expectedIndex >= 0;
    hide OnEvent, Logged, Mirrored, PendingSound, Placed, Accepts, EqualFold, Whole;
  }

  lemma ChunkResult(c: Config, k: Claim, env: Env, start: int, s: Receiver, init: seq<Event>, e: Event)
    requires Met(c, k, env, start, s, init, e)
    ensures Result(c, k, start, init + [e], OnEvent(c, env, s, e))
    ensures OnEvent(c, env, s, e).end == s.end
  {
    var seen, more, r := Seen(start, init), Seen(start, init + [e]), OnEvent(c, env, s, e);
    Unfold(c, start, init, e);
    SeenRange(c, k, start, init);
    if !s.status.Running? {
      hide Seen, Admits, GoodConfig, Held, Inv;
      if Admits(c, start, init) { assert Contiguous(seen, e.index); }
      return;
    }
    assert s.expectedIndex >= 0;
    TestsAgree(c, k, s, seen, e);
    OnChunkCases(c, k, env, s, e);
    StuckAt(s, seen, e.index);
    if e.index < s.expectedIndex {
      assert more == seen;
    } else if Accepts(c, s, e) {
      NewChunk(c, k, env, s, e);
      CatchUp(s, seen, e.index, r);
      hide Seen, Admits, GoodConfig, Held, Inv, OnEvent, Stuck, Drained, Accepts, WellFormed, EqualFold, Fitting;
      Frontier(c, more, r.expectedIndex);
    }
  }

  // What an end message with a right digest does over a working disk.
  lemma EndOutcome(c: Config, k: Claim, env: Env, s: Receiver, e: Event)
    requires GoodConfig(c, k) && k.honest && AllOk(env) && Waiting(c, k, s)
    requires e.End? && !DigestDiffers(c, e.sha256, k.world(c.file))
    ensures var r := OnEvent(c, env, s, e);
      && r.end == Some(e.sha256) && 0 <= s.expectedIndex <= c.file.totalChunks
      && if s.expectedIndex == c.file.totalChunks
         then r.status == Committed && Now(r.trace).dest == Some(k.world(c.file))
         else r == s.(end := r.end, endTimer := true)
  {
    var s1 := s.(end := Some(e.sha256));
    hide Sound, ViewOf, OutSound, PendingSound, Mirrored, EqualFold, PieceSound, Held;
    CompleteKeeps(c, k, env, s1);
    AllWritten(c, k, s1);
    CompleteEnd(c, env, s1);
    assert s1.expectedOffset == c.file.size ==> s1.hashed == k.world(c.file);
    hide Core, Timely, Complete, Whole, Logged;
  }

  lemma EndResult(c: Config, k: Claim, env: Env, start: int, s: Receiver, init: seq<Event>, e: Event)
    requires GoodConfig(c, k) && k.honest && AllOk(env) && 0 <= start <= c.file.totalChunks
    requires (forall x | x in init :: Plain(c, k, x)) && Plain(c, k, e) && e.End?
    requires Inv(c, k, s) && Result(c, k, start, init, s)
    ensures Result(c, k, start, init + [e], OnEvent(c, env, s, e))
    ensures s.status.Running? ==> OnEvent(c, env, s, e).end == Some(e.sha256)
  {
    Unfold(c, start, init, e);
    SeenRange(c, k, start, init);
    var seen, r := Seen(start, init), OnEvent(c, env, s, e);
    assert Seen(start, init + [e]) == seen;
    if s.status.Running? {
      EndOutcome(c, k, env, s, e);
      CaughtSame(s, r, seen);
      Frontier(c, seen, s.expectedIndex);
    }
    hide OnEvent, Inv, Waiting, GoodConfig, Seen, Admits, Stuck, Plain, Caught, AllSeen;
  }

  lemma CaughtSame(s: Receiver, r: Receiver, seen: set<int>)
    requires Caught(s, seen)
    ensures s.expectedIndex !in seen && forall j | 0 <= j < s.expectedIndex :: j in seen
    ensures r.expectedIndex == s.expectedIndex && r.pending == s.pending ==> Caught(r, seen)
  {}

  /** The outcome of a session over a working disk is decided by the arrivals: among admitted sequences only which
      chunks arrived and whether the end did matters. The transfer fails exactly when an arrival repeats a chunk still
      waiting or overfills the reorder buffer, commits the file exactly when everything arrived, and otherwise waits for
      the first gap. */
  lemma {:induction false} OrderIndependence(
      c: Config, k: Claim, env: Env, s: Receiver, es: seq<Event>)
    requires GoodConfig(c, k) && k.honest && AllOk(env) && Fresh(c, k, s)
    requires forall e | e in es :: Plain(c, k, e)
    ensures Result(c, k, s.expectedIndex, es, Run(c, env, s, es))
    ensures var r := Run(c, env, s, es); r.end.Some? ==> !DigestDiffers(c, r.end.value, k.world(c.file))
    ensures Inv(c, k, Run(c, env, s, es))
  {
    var start := s.expectedIndex;
    if es == [] {
      assert s.pending.Keys == Stuck(Seen(start, []));
      assert s.expectedIndex !in Seen(start, []);
    } else {
      var init, e := es[..|es| - 1], es[|es| - 1];
      assert es == init + [e];
      OrderIndependence(c, k, env, s, init);
      var t := Run(c, env, s, init);
      assert Plain(c, k, e);
      assert 0 <= start <= c.file.totalChunks;
      hide Result, Run, Waiting, Over, GoodConfig;
      OnEventKeeps(c, k, env, t, e);
      if e.Chunk? {
        assert Met(c, k, env, start, t, init, e);
        ChunkResult(c, k, env, start, t, init, e);
      } else {
        EndResult(c, k, env, start, t, init, e);
      }
      RunStep(c, env, s, init, e);
    }
  }

  lemma RunStep(c: Config, env: Env, s: Receiver, init: seq<Event>, e: Event)
    ensures Run(c, env, s, init + [e]) == OnEvent(c, env, Run(c, env, s, init), e)
  {}

  // ---------- every chunk once, in any order ----------

  // No chunk arrives twice, and none from below start.
  ghost predicate Once(start: int, es: seq<Event>) {
    && (forall p | 0 <= p < |es| && es[p].Chunk? :: es[p].index >= start)
    && (forall p, q | 0 <= p < q < |es| && es[p].Chunk? && es[q].Chunk? :: es[p].index != es[q].index)
  }

  ghost predicate Arrives(es: seq<Event>, i: int) {
    exists p :: 0 <= p < |es| && es[p].Chunk? && es[p].index == i
  }

  lemma {:induction false} SeenMember(start: int, es: seq<Event>, i: int)
    ensures i in Seen(start, es) <==> 0 <= i < start || Arrives(es, i)
  {
    if es != [] {
      var init := es[..|es| - 1];
      SeenMember(start, init, i);
      if p :| 0 <= p < |es| && es[p].Chunk? && es[p].index == i {
        if p < |es| - 1 { assert init[p] == es[p]; }
      }
      if q :| 0 <= q < |init| && init[q].Chunk? && init[q].index == i { assert es[q] == init[q]; }
    }
  }

  lemma OncePrefix(start: int, es: seq<Event>)
    requires es != [] && Once(start, es)
    ensures Once(start, es[..|es| - 1])
    ensures es[|es| - 1].Chunk? ==> es[|es| - 1].index !in Seen(start, es[..|es| - 1])
  {
    if es[|es| - 1].Chunk? { SeenMember(start, es[..|es| - 1], es[|es| - 1].index); }
  }

  lemma Roomy(c: Config, s: set<int>)
    requires Admissible(c.file) && forall i | i in s :: 0 <= i < c.file.totalChunks
    ensures Held(c.file, s, c.file.totalChunks) <= c.file.size
  {
    OffEnds(c.file);
    HeldBound(c.file, s, 0, c.file.totalChunks, c.file.totalChunks);
  }

  lemma {:induction false} RoomyAdmits(c: Config, k: Claim, start: int, es: seq<Event>)
    requires GoodConfig(c, k) && 0 <= start <= c.file.totalChunks && c.maxReorderBufferBytes >= c.file.size
    requires (forall e | e in es :: Plain(c, k, e)) && Once(start, es)
    ensures Admits(c, start, es)
  {
    if es != [] {
      var init, e := es[..|es| - 1], es[|es| - 1];
      assert es == init + [e];
      OncePrefix(start, es);
      RoomyAdmits(c, k, start, init);
      assert Plain(c, k, e);
      SeenRange(c, k, start, init);
      Unfold(c, start, init, e);
      hide Once, Seen, Admits, Contiguous, Held, DigestDiffers, Truthful;
      if e.Chunk? { Roomy(c, Stuck(Seen(start, init)) + {e.index}); }
    }
  }

  /** Every chunk from the start index exactly once, in any order, with the end message anywhere: the file is
      committed with the bytes of the source, whenever the reorder buffer can hold the file. */
  lemma AnyOrderCommits(c: Config, k: Claim, env: Env, s: Receiver, es: seq<Event>)
    requires GoodConfig(c, k) && k.honest && AllOk(env) && Fresh(c, k, s)
    requires (forall e | e in es :: Plain(c, k, e)) && Once(s.expectedIndex, es) && Histories.Ended(es)
    requires forall i | s.expectedIndex <= i < c.file.totalChunks :: Arrives(es, i)
    requires c.maxReorderBufferBytes >= c.file.size
    ensures var r := Run(c, env, s, es);
      r.status == Committed && Now(r.trace).dest == Some(k.world(c.file))
  {
    OrderIndependence(c, k, env, s, es);
    assert 0 <= s.expectedIndex <= c.file.totalChunks;
    RoomyAdmits(c, k, s.expectedIndex, es);
    hide Run, Inv, Fresh, GoodConfig, Admits, Plain, Arrives, Once, Histories.Ended, Seen;
    forall i | 0 <= i < c.file.totalChunks ensures i in Seen(s.expectedIndex, es) {
      SeenMember(s.expectedIndex, es, i);
    }
  }
}
