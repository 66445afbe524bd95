/** sendBinary and waitForBuffer of transfer/manager.go over the striped channel: how full a lane gets. */
module Backpressure {
  import opened Wrappers
  import opened Packets
  import opened Striping

  // The channels, the primary first; the size of the packet waitForBuffer has let pass; how much of what the
  // primary has queued is text.
  datatype Queues = Queues(channels: seq<Channel>, cleared: Option<nat>, text: nat)

  datatype Step =
    | Drain(lane: nat, bytes: nat, text: nat)
    | Change(lane: nat, open: bool, accepts: bool)
    | Text(bytes: nat)
    | Clear(size: nat, candidates: seq<nat>)
    | Send(payload: seq<byte>, candidates: seq<nat>)

  // The open channels, each once, in the order the map of lanes and the cursor give.
  predicate Lists(channels: seq<Channel>, candidates: seq<nat>)
  {
    && Distinct(candidates)
    && (forall k | 0 <= k < |candidates| :: candidates[k] < |channels| && channels[candidates[k]].open)
    && (forall i | 0 <= i < |channels| && channels[i].open :: i in candidates)
  }

  function Picked(channels: seq<Channel>, candidates: seq<nat>): (s: seq<Channel>)
    requires forall k | 0 <= k < |candidates| :: candidates[k] < |channels|
    ensures |s| == |candidates| && forall k | 0 <= k < |s| :: s[k] == channels[candidates[k]]
  {
    seq(|candidates|, k requires 0 <= k < |candidates| => channels[candidates[k]])
  }

  // waitForBuffer lets a packet pass that fits on top of what BufferedAmount reports.
  predicate Passes(channels: seq<Channel>, size: nat, candidates: seq<nat>)
    requires channels != [] && forall k | 0 <= k < |candidates| :: candidates[k] < |channels|
  {
    LeastBuffered(channels[0].buffered, Picked(channels, candidates)) + size <= MAX_BUFFERED_AMOUNT
  }

  // Some open channel has room for the packet; with none open, the primary.
  predicate Fits(channels: seq<Channel>, size: nat)
    requires channels != []
  {
    if forall i | 0 <= i < |channels| :: !channels[i].open then
      channels[0].buffered + size <= MAX_BUFFERED_AMOUNT
    else
      HasRoom(channels, size)
  }

  predicate HasRoom(channels: seq<Channel>, size: nat)
  {
    exists i :: 0 <= i < |channels| && channels[i].open && channels[i].buffered + size <= MAX_BUFFERED_AMOUNT
  }

  // Some channel that would take the packet has room for it, or none takes it.
  predicate RoomToTake(channels: seq<Channel>, size: nat)
  {
    (forall i | 0 <= i < |channels| :: !channels[i].Takes())
    || exists i :: 0 <= i < |channels| && channels[i].Takes() && channels[i].buffered + size <= MAX_BUFFERED_AMOUNT
  }

  predicate Enabled(q: Queues, step: Step)
  {
    && q.channels != []
    && match step
       case Drain(lane, bytes, text) =>
         && lane < |q.channels| && text <= bytes <= q.channels[lane].buffered
         && (if lane == 0 then text <= q.text && bytes - text <= q.channels[0].buffered - q.text else text == 0)
       case Change(lane, _, _) => lane < |q.channels|
       case Text(_) => q.channels[0].open
       case Clear(size, candidates) =>
         q.cleared.None? && Lists(q.channels, candidates) && Passes(q.channels, size, candidates)
       case Send(payload, candidates) => q.cleared == Some(|payload|) && Lists(q.channels, candidates)
  }

  // Where the packet goes.
  function Target(q: Queues, candidates: seq<nat>): (t: Option<nat>)
    requires forall k | 0 <= k < |candidates| :: candidates[k] < |q.channels|
    ensures t.Some? ==> t.value < |q.channels|
  {
    var s := Picked(q.channels, candidates);
    var t := Taker(s, Entries(s));
    if t.Some? then Some(candidates[t.value]) else None
  }

  function After(q: Queues, step: Step): Queues
    requires Enabled(q, step)
  {
    match step
    case Drain(lane, bytes, text) =>
      q.(channels := q.channels[lane := q.channels[lane].(buffered := q.channels[lane].buffered - bytes)],
         text := q.text - text)
    case Change(lane, open, accepts) =>
      q.(channels := q.channels[lane := q.channels[lane].(open := open, accepts := accepts)])
    case Text(bytes) =>
      q.(channels := q.channels[0 := q.channels[0].(buffered := q.channels[0].buffered + bytes)],
         text := q.text + bytes)
    case Clear(size, _) => q.(cleared := Some(size))
    case Send(payload, candidates) =>
      Queues(Sent(q.channels, payload, Target(q, candidates)), None, q.text)
  }

  /** Whatever the order of the walk, a packet passes exactly when some open channel has room for it, or the primary
      when none is open. */
  lemma PassesMeansFits(channels: seq<Channel>, size: nat, candidates: seq<nat>)
    requires channels != [] && Lists(channels, candidates)
    ensures Passes(channels, size, candidates) <==> Fits(channels, size)
  {
    var s := Picked(channels, candidates);
    if candidates != [] {
      assert channels[candidates[0]].open;
    }
    forall i | 0 <= i < |channels| && channels[i].open
      ensures exists k :: 0 <= k < |s| && s[k].buffered == channels[i].buffered
    {
      assert i in candidates;
      var k :| 0 <= k < |candidates| && candidates[k] == i;
      assert s[k].buffered == channels[i].buffered;
    }
  }

  // No lane, and nothing of the primary but its text, is above the mark.
  predicate Bounded(q: Queues)
  {
    && (forall i | 1 <= i < |q.channels| :: q.channels[i].buffered <= 2 * 1024 * 1024)
    && (q.channels != [] ==> q.text <= q.channels[0].buffered <= 2 * 1024 * 1024 + q.text)
  }

  // The packet goes to the least-buffered of the channels that take it.
  lemma TargetLeast(q: Queues, candidates: seq<nat>)
    requires Lists(q.channels, candidates)
    ensures var t := Target(q, candidates);
      && (t.None? <==> forall i | 0 <= i < |q.channels| :: !q.channels[i].Takes())
      && (t.Some? ==> q.channels[t.value].Takes())
      && (t.Some? ==> forall i | 0 <= i < |q.channels| && q.channels[i].Takes() ::
            q.channels[t.value].buffered <= q.channels[i].buffered)
  {
    var s := Picked(q.channels, candidates);
    TakerLeast(s);
    hide Taker, Entries, Distinct;
    forall i | 0 <= i < |q.channels| && q.channels[i].Takes()
      ensures exists k :: 0 <= k < |candidates| && candidates[k] == i && s[k].Takes()
    {
      assert i in candidates;
    }
  }

  /** A binary packet takes no channel above the high-water mark exactly when some channel that takes it has room,
      or none takes it. */
  lemma SendStaysLow(q: Queues, payload: seq<byte>, candidates: seq<nat>)
    requires Enabled(q, Send(payload, candidates))
    ensures var t := Target(q, candidates);
      RoomToTake(q.channels, |payload|) <==>
        (t.Some? ==> After(q, Send(payload, candidates)).channels[t.value].buffered <= MAX_BUFFERED_AMOUNT)
  {
    TargetLeast(q, candidates);
  }

  // The first of the least-buffered open channels takes the packet.
  predicate FirstChoiceTakes(q: Queues, candidates: seq<nat>)
    requires forall k | 0 <= k < |candidates| :: candidates[k] < |q.channels|
  {
    candidates == [] ||
    var e := Entries(Picked(q.channels, candidates));
    q.channels[candidates[e[LeastIndex(e)].pos]].Takes()
  }

  /** When the first choice takes the packet that was let pass, there is room: the amount waitForBuffer looked at is
      the amount of the channel Send tries first. */
  lemma FirstChoiceSuffices(q: Queues, payload: seq<byte>, candidates: seq<nat>)
    requires Enabled(q, Send(payload, candidates)) && Fits(q.channels, |payload|) && FirstChoiceTakes(q, candidates)
    ensures RoomToTake(q.channels, |payload|)
  {}

  // Between the check and the send the channels only drain, and the first choice takes the packet.
  predicate Undisturbed(q: Queues, step: Step)
    requires Enabled(q, step)
  {
    && ((step.Change? || step.Text?) ==> q.cleared.None?)
    && (step.Send? ==> FirstChoiceTakes(q, step.candidates))
  }

  predicate Reaches(q: Queues, steps: seq<Step>, r: Queues)
    decreases |steps|
  {
    if steps == [] then r == q else
    Enabled(q, steps[0]) && Undisturbed(q, steps[0]) && Reaches(After(q, steps[0]), steps[1..], r)
  }

  // What waitForBuffer saw holds until Send runs.
  predicate Low(q: Queues)
  {
    Bounded(q) && q.channels != [] && (q.cleared.Some? ==> Fits(q.channels, q.cleared.value))
  }

  lemma DrainKeepsFit(q: Queues, step: Step, size: nat)
    requires Enabled(q, step) && step.Drain? && Fits(q.channels, size)
    ensures Fits(After(q, step).channels, size)
  {
    var after := After(q, step).channels;
    assert forall i | 0 <= i < |after| ::
      after[i].open == q.channels[i].open && after[i].buffered <= q.channels[i].buffered;
    if i :| 0 <= i < |q.channels| && q.channels[i].open {
      var j :| 0 <= j < |q.channels| && q.channels[j].open && q.channels[j].buffered + size <= MAX_BUFFERED_AMOUNT;
      assert after[j].open && after[i].open;
    }
  }

  lemma StepKeepsLow(q: Queues, step: Step)
    requires Low(q) && Enabled(q, step) && Undisturbed(q, step)
    ensures Low(After(q, step))
  {
    if step.Send? {
      FirstChoiceSuffices(q, step.payload, step.candidates);
      SendStaysLow(q, step.payload, step.candidates);
    } else if step.Clear? {
      PassesMeansFits(q.channels, step.size, step.candidates);
    } else if step.Drain? && q.cleared.Some? {
      DrainKeepsFit(q, step, q.cleared.value);
    }
  }

  /** Back-pressure: in every run, binary traffic takes no lane above the high-water mark, and the primary exceeds it by
      no more than the text still queued on it. */
  lemma {:induction false} LanesStayBelowHighWater(q: Queues, steps: seq<Step>, r: Queues)
    requires Low(q) && Reaches(q, steps, r)
    ensures Low(r)
    decreases |steps|
  {
    if steps != [] {
      StepKeepsLow(q, steps[0]);
      LanesStayBelowHighWater(After(q, steps[0]), steps[1..], r);
    }
  }

  /** When the first choice refuses the mark can be passed: the primary has room and refuses, the full lane takes the
      packet. */
  lemma RefusalOverfills()
    ensures exists q, payload, candidates ::
      && Low(q) && Enabled(q, Send(payload, candidates))
      && !Bounded(After(q, Send(payload, candidates)))
  {
    var primary := Channel(true, false, 0, []);
    var lane := Channel(true, true, MAX_BUFFERED_AMOUNT, []);
    var q := Queues([primary, lane], Some(1), 0);
    var payload: seq<byte> := [0];
    var candidates := [0, 1];
    assert q.channels[0].open && HasRoom(q.channels, 1) && Low(q);
    SecondTakes(q, candidates);
    hide Target, Lists, HasRoom;
    var step := Send(payload, candidates);
    assert Enabled(q, step) && After(q, step).channels[1].buffered == MAX_BUFFERED_AMOUNT + 1;
  }

  lemma SecondTakes(q: Queues, candidates: seq<nat>)
    requires |q.channels| == 2 && !q.channels[0].Takes() && q.channels[1].Takes()
    requires q.channels[0].open && candidates == [0, 1]
    ensures Lists(q.channels, candidates) && Target(q, candidates) == Some(1)
  {
    assert Lists(q.channels, candidates);
    TargetLeast(q, candidates);
  }
}
