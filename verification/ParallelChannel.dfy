/** The objects of webrtc/parallel_channel.go: connections, lanes, and the channel whose methods change its table. */
module ParallelChannels {
  import opened Wrappers
  import opened Chunking
  import opened Lanes
  import opened Negotiation
  import opened Striping

  // A pion PeerConnection, by the number it was created under.
  class PeerConnection {
    const id: nat
    var closed: bool
    var described: bool
    var applied: seq<Candidate>

    constructor (id: nat)
      ensures this.id == id && !closed && !described && applied == []
    {
      this.id, closed, described, applied := id, false, false, [];
    }

    method Close()
      modifies this`closed
      ensures closed
    {
      closed := true;
    }

    method SetRemoteDescription(applies: bool) returns (ok: bool)
      modifies this`described
      ensures ok == applies && described == (old(described) || applies)
    {
      ok := applies;
      described := described || applies;
    }

    method AddICECandidate(candidate: Candidate, refused: set<Candidate>) returns (ok: bool)
      modifies this`applied
      ensures ok == (candidate !in refused)
      ensures applied == old(applied) + if ok then [candidate] else []
    {
      ok := candidate !in refused;
      if ok {
        applied := applied + [candidate];
      }
    }
  }

  class ParallelLane {
    const pc: PeerConnection
    var channel: DataChannel?
    var open: bool

    constructor (pc: PeerConnection)
      ensures this.pc == pc && channel == null && !open
    {
      this.pc, channel, open := pc, null, false;
    }

    function Value(): Lane
      reads this, pc
    {
      Lane(pc.id, channel != null, open, pc.described, pc.applied)
    }
  }

  // Nothing that the lane table or the striping sees of the lane has changed.
  twostate predicate Untouched(lane: ParallelLane)
    reads lane, lane.pc
  {
    lane.Value() == old(lane.Value()) && lane.channel == old(lane.channel)
  }

  class ParallelChannel {
    const connections: int
    const initiator: bool
    const primary: DataChannel
    var negotiated: int
    var closed: bool
    var lanes: map<int, ParallelLane>
    var pendingCandidates: map<int, seq<Candidate>>
    var next: nat
    var binaryCursor: int

    ghost function LaneObjects(): set<ParallelLane>
      reads this
    {
      set i | i in lanes :: lanes[i]
    }

    ghost function Connections(): set<PeerConnection>
      reads this
    {
      set i | i in lanes :: lanes[i].pc
    }

    ghost function Repr(): set<object>
      reads this
    {
      (set i | i in lanes :: lanes[i] as object) + (set i | i in lanes :: lanes[i].pc as object)
    }

    function LaneValues(): (m: map<int, Lane>)
      reads this, LaneObjects(), Connections()
      ensures m.Keys == lanes.Keys && forall i | i in lanes :: m[i] == lanes[i].Value()
    {
      map i | i in lanes :: lanes[i].Value()
    }

    function Value(): Table
      reads this, LaneObjects(), Connections()
    {
      Table(connections, initiator, negotiated, closed, LaneValues(), pendingCandidates, next)
    }

    // The lanes and their connections are distinct objects, each connection under its own number.
    ghost predicate Valid()
      reads this
    {
      && (forall i | i in lanes :: lanes[i].pc.id < next)
      && (forall i, j | i in lanes && j in lanes && i != j ::
            lanes[i] != lanes[j] && lanes[i].pc != lanes[j].pc && lanes[i].pc.id != lanes[j].pc.id)
    }

    // The lanes as the striping sees them.
    function Stripes(): (s: map<int, Stripe>)
      reads this, LaneObjects()
      ensures s.Keys == lanes.Keys && forall i | i in lanes :: s[i] == Stripe(lanes[i].open, lanes[i].channel)
    {
      map i | i in lanes :: Stripe(lanes[i].open, lanes[i].channel)
    }

    // The channels are distinct objects and the cursor is a 64-bit number.
    ghost predicate Wired()
      reads this, LaneObjects()
    {
      0 <= binaryCursor < TWO_TO_64 && Apart(primary, Stripes())
    }

    constructor (connections: int, initiator: bool, primary: DataChannel)
      ensures Valid() && Wired() && Value() == Fresh(connections, initiator)
      ensures this.primary == primary && lanes == map[] && pendingCandidates == map[] && binaryCursor == 0
      ensures negotiated == 1 && !closed && 1 <= this.connections <= 8
    {
      this.connections, this.initiator, this.primary := ClampParallelConnections(connections), initiator, primary;
      negotiated, closed, lanes, pendingCandidates, next, binaryCursor := 1, false, map[], map[], 0, 0;
    }

    // ---------- what a change of the table leaves as it was ----------

    // Lanes have left the table and no other lane has changed.
    twostate lemma Fewer(gone: set<int>)
      requires lanes == old(lanes) - gone
      requires forall i | i in lanes :: Untouched(lanes[i])
      ensures LaneValues() == old(LaneValues()) - gone
      ensures old(Wired()) && binaryCursor == old(binaryCursor) ==> Wired()
    {
      var before, after := old(LaneValues()), LaneValues();
      forall i | i in after ensures i in before && after[i] == before[i] {
        assert i in lanes && Untouched(lanes[i]);
      }
      assert after.Keys == before.Keys - gone;
    }

    // No lane but the one at index has changed or moved.
    twostate lemma OneLane(index: int)
      requires index in lanes && lanes.Keys == old(lanes).Keys + {index}
      requires forall i | i in lanes && i != index :: lanes[i] == old(lanes)[i] && Untouched(lanes[i])
      ensures LaneValues() == old(LaneValues())[index := lanes[index].Value()]
    {
      var before, after := old(LaneValues()), LaneValues();
      forall i | i in after && i != index ensures i in before && after[i] == before[i] {
        assert i in lanes && i in old(lanes) && Untouched(lanes[i]);
      }
      assert after.Keys == before.Keys + {index};
    }

    // The channel of the lane at index, if it is new, is nobody else's.
    twostate lemma StaysWired(index: int)
      requires index in lanes && lanes.Keys == old(lanes).Keys + {index} && binaryCursor == old(binaryCursor)
      requires forall i | i in lanes && i != index ::
        lanes[i] == old(lanes)[i] && lanes[i].channel == old(lanes[i].channel)
      requires var data := lanes[index].channel;
        || data == null
        || (index in old(lanes) && lanes[index] == old(lanes)[index] && data == old(lanes[index].channel))
        || (data != primary && forall i | i in lanes && i != index :: lanes[i].channel != data)
      ensures old(Wired()) ==> Wired()
    {
      if old(Wired()) {
        var before, after := old(Stripes()), Stripes();
        assert forall i | i in lanes && i != index :: after[i].channel == before[i].channel;
      }
    }

    // Nobody else has this channel.
    ghost predicate Unused(data: DataChannel, index: int)
      reads this, LaneObjects()
    {
      data != primary && forall i | i in lanes && i != index :: lanes[i].channel != data
    }

    // ---------- the sections under the lock ----------

    method InstallLane(index: int, lane: ParallelLane) returns (ok: bool)
      requires Valid() && lane.Value() == Lane(lane.pc.id, false, false, false, [])
      requires lane.pc.id < next
      requires forall i | i in lanes :: lanes[i] != lane && lanes[i].pc != lane.pc && lanes[i].pc.id != lane.pc.id
      modifies this`lanes
      ensures Valid() && Value() == Install(old(Value()), index, lane.pc.id)
      ensures ok == Admits(old(Value()), index) && (ok <==> !old(closed) && index !in old(lanes))
      ensures lanes == if ok then old(lanes)[index := lane] else old(lanes)
      ensures old(Wired()) ==> Wired()
    {
      hide Wired;
      if closed || index in lanes {
        return false;
      }
      lanes := lanes[index := lane];
      hide LaneValues;
      OneLane(index);
      StaysWired(index);
      ok := true;
    }

    method RemoveLane(index: int)
      requires Valid()
      modifies this`lanes, this`pendingCandidates, if index in lanes then {lanes[index].pc} else {}
      ensures Valid() && Value() == Remove(old(Value()), index)
      ensures lanes == old(lanes) - {index} && Repr() <= old(Repr())
      ensures index in old(lanes) ==> old(lanes)[index].pc.closed
      ensures pendingCandidates == old(pendingCandidates) - {index}
      ensures old(Wired()) ==> Wired()
    {
      hide Wired, LaneValues;
      if index in lanes {
        var lane := lanes[index];
        lanes, pendingCandidates := lanes - {index}, pendingCandidates - {index};
        lane.pc.Close();
      } else {
        lanes, pendingCandidates := lanes - {index}, pendingCandidates - {index};
      }
      Fewer({index});
    }

    method RemoveLaneIfCurrent(index: int, lane: ParallelLane)
      requires Valid()
      requires index in lanes ==> (lanes[index] == lane <==> lanes[index].pc.id == lane.pc.id)
      modifies this`lanes, this`pendingCandidates, lane.pc
      ensures Valid() && Value() == RemoveIfCurrent(old(Value()), index, lane.pc.id)
      ensures lanes == if index in old(lanes) && old(lanes)[index] == lane then old(lanes) - {index} else old(lanes)
      ensures index in old(lanes) && old(lanes)[index] == lane ==> lane.pc.closed
      ensures old(Wired()) ==> Wired()
    {
      hide Wired, LaneValues;
      if index !in lanes || lanes[index] != lane {
        return;
      }
      lanes, pendingCandidates := lanes - {index}, pendingCandidates - {index};
      if !lane.pc.closed {
        lane.pc.Close();
      }
      Fewer({index});
    }

    method AttachLaneChannel(index: int, lane: ParallelLane, data: DataChannel)
      requires Valid()
      requires index in lanes ==> (lanes[index] == lane <==> lanes[index].pc.id == lane.pc.id)
      modifies lane`channel, data`open
      ensures Valid() && Value() == Attach(old(Value()), index, lane.pc.id)
      ensures if index in lanes && lanes[index] == lane then lane.channel == data else !data.open
      ensures old(Wired() && Unused(data, index)) ==> Wired()
    {
      hide Wired, Unused, LaneValues;
      if index !in lanes || lanes[index] != lane {
        CloseStray(data);
        return;
      }
      SetChannel(index, lane, data);
    }

    // Closing a channel that no lane gets leaves the table as it is.
    method CloseStray(data: DataChannel)
      requires Valid()
      modifies data`open
      ensures !data.open && Valid() && Value() == old(Value()) && (old(Wired()) ==> Wired())
    {
      data.Close();
      Fewer({});
    }

    method SetChannel(index: int, lane: ParallelLane, data: DataChannel)
      requires Valid() && index in lanes && lanes[index] == lane
      modifies lane`channel
      ensures Valid() && lane.channel == data && Value() == Attach(old(Value()), index, lane.pc.id)
      ensures old(Wired() && Unused(data, index)) ==> Wired()
    {
      lane.channel := data;
      assert forall i | i in lanes && i != index :: Untouched(lanes[i]);
      assert old(Unused(data, index)) ==> Unused(data, index);
      hide Valid, LaneValues, Wired;
      OneLane(index);
      if Unused(data, index) {
        StaysWired(index);
      }
    }

    method OnOpen(index: int, lane: ParallelLane)
      requires Valid()
      requires index in lanes ==> (lanes[index] == lane <==> lanes[index].pc.id == lane.pc.id)
      modifies lane`open
      ensures Valid() && Value() == Open(old(Value()), index, lane.pc.id)
      ensures lane.open == (old(lane.open) || (index in lanes && lanes[index] == lane))
      ensures old(Wired()) ==> Wired()
    {
      hide Wired;
      if index in lanes && lanes[index] == lane {
        lane.open := true;
        assert forall i | i in lanes && i != index :: Untouched(lanes[i]);
        hide Valid, LaneValues;
        OneLane(index);
        StaysWired(index);
      }
    }

    /** shutdown: closes every lane's connection, once. */
    method Shutdown(order: seq<int>)
      requires Valid() && forall i :: i in order <==> i in lanes
      modifies this`closed, this`lanes, Connections()
      ensures Valid() && Value() == Shut(old(Value()))
      ensures closed && pendingCandidates == old(pendingCandidates)
      ensures lanes == if old(closed) then old(lanes) else map[]
      ensures !old(closed) ==> forall i | i in old(lanes) :: old(lanes)[i].pc.closed
      ensures old(Wired()) ==> Wired()
    {
      hide Wired;
      if closed {
        return;
      }
      closed := true;
      var removed := lanes;
      lanes := map[];
      assert forall i | i in order :: i in removed;
      CloseAll(removed, order);
      assert LaneValues() == map[];
      Fewer(removed.Keys);
    }

    // The connection, known by its number, is in no lane but the one at index.
    ghost predicate Belongs(pc: PeerConnection, index: int)
      reads this
    {
      forall i | i in lanes && (lanes[i].pc == pc || lanes[i].pc.id == pc.id) :: i == index && lanes[i].pc == pc
    }

    /** flushLaneCandidates: the queue of the index goes into the connection, whether or not its lane is still there. */
    method FlushLaneCandidates(index: int, pc: PeerConnection, refused: set<Candidate>) returns (ok: bool)
      requires Valid() && Belongs(pc, index)
      modifies this`pendingCandidates, pc`applied
      ensures Valid() && Value() == FlushInto(old(Value()), index, pc.id, refused) && index !in pendingCandidates
      ensures pc.applied == old(pc.applied) + Accepted(Queue(old(Value()), index), refused)
      ensures ok <==> Accepted(Queue(old(Value()), index), refused) == Queue(old(Value()), index)
      ensures old(Wired()) ==> Wired()
    {
      hide Wired, LaneValues, Accepted;
      if index in lanes && lanes[index].pc == pc {
        ok := FlushCurrent(index, pc, refused);
      } else {
        ok := FlushDetached(index, pc, refused);
      }
    }

    method FlushCurrent(index: int, pc: PeerConnection, refused: set<Candidate>) returns (ok: bool)
      requires Valid() && index in lanes && lanes[index].pc == pc
      modifies this`pendingCandidates, pc`applied
      ensures Valid() && Value() == Flush(old(Value()), index, refused) && (old(Wired()) ==> Wired())
      ensures pc.applied == old(pc.applied) + Accepted(Queue(old(Value()), index), refused)
      ensures ok <==> Accepted(Queue(old(Value()), index), refused) == Queue(old(Value()), index)
    {
      hide Wired, LaneValues, Accepted;
      var pending := if index in pendingCandidates then pendingCandidates[index] else [];
      pendingCandidates := pendingCandidates - {index};
      ok := AddAll(pc, pending, refused);
      assert Valid() && forall i | i in lanes && i != index :: Untouched(lanes[i]);
      hide Valid, Untouched;
      OneLane(index);
      StaysWired(index);
    }

    method FlushDetached(index: int, pc: PeerConnection, refused: set<Candidate>) returns (ok: bool)
      requires Valid() && forall i | i in lanes :: lanes[i].pc != pc
      modifies this`pendingCandidates, pc`applied
      ensures Valid() && Value() == old(Value()).(pending := old(pendingCandidates) - {index})
      ensures old(Wired()) ==> Wired()
      ensures pc.applied == old(pc.applied) + Accepted(Queue(old(Value()), index), refused)
      ensures ok <==> Accepted(Queue(old(Value()), index), refused) == Queue(old(Value()), index)
    {
      hide Wired, LaneValues, Accepted;
      var pending := if index in pendingCandidates then pendingCandidates[index] else [];
      pendingCandidates := pendingCandidates - {index};
      ok := AddAll(pc, pending, refused);
      Fewer({});
    }

    method AcceptCandidate(index: int, candidate: Option<Candidate>, refused: set<Candidate>)
      requires Valid()
      modifies this`pendingCandidates, if index in lanes then {lanes[index].pc} else {}
      ensures Valid() && Value() == Negotiation.AcceptCandidate(old(Value()), index, candidate, refused)
      ensures old(Wired()) ==> Wired()
    {
      hide Wired;
      if candidate.None? || !(0 < index < negotiated) || |candidate.value| > MAX_PARALLEL_CANDIDATE_SIZE {
        return;
      }
      if index !in lanes || !lanes[index].pc.described {
        QueueCandidate(index, candidate.value);
        return;
      }
      ApplyCandidate(index, candidate.value, refused);
    }

    method QueueCandidate(index: int, candidate: Candidate)
      requires Valid()
      modifies this`pendingCandidates
      ensures Valid() && (old(Wired()) ==> Wired())
      ensures var t := old(Value());
        Value() == if |Queue(t, index)| < MAX_PENDING_CANDIDATES
                   then t.(pending := t.pending[index := Queue(t, index) + [candidate]]) else t
    {
      hide Wired, LaneValues;
      var pending := if index in pendingCandidates then pendingCandidates[index] else [];
      if |pending| < MAX_PENDING_CANDIDATES {
        pendingCandidates := pendingCandidates[index := pending + [candidate]];
        Fewer({});
      }
    }

    method ApplyCandidate(index: int, candidate: Candidate, refused: set<Candidate>)
      requires Valid() && index in lanes
      modifies lanes[index].pc
      ensures Valid() && (old(Wired()) ==> Wired())
      ensures var t := old(Value());
        Value() == if candidate in refused then t
                   else t.(lanes := t.lanes[index := t.lanes[index].(applied := t.lanes[index].applied + [candidate])])
    {
      hide Wired;
      var ok := lanes[index].pc.AddICECandidate(candidate, refused);
      assert forall i | i in lanes && i != index :: Untouched(lanes[i]);
      hide Valid, LaneValues;
      if ok {
        OneLane(index);
        StaysWired(index);
      } else {
        Fewer({});
      }
    }

    method AcceptAnswer(index: int, applies: bool, refused: set<Candidate>)
      requires Valid()
      modifies this`pendingCandidates, if index in lanes then {lanes[index].pc} else {}
      ensures Valid() && Value() == Negotiation.AcceptAnswer(old(Value()), index, applies, refused)
      ensures lanes == old(lanes)
      ensures 0 < index < negotiated && index in lanes && applies ==>
        Informed(index, old(Queue(Value(), index)), old(if index in lanes then lanes[index].pc.applied else []),
                 refused)
      ensures old(Wired()) ==> Wired()
    {
      hide Wired;
      if !(0 < index < negotiated) || index !in lanes {
        return;
      }
      ghost var t := Value();
      assert t.lanes[index].applied == lanes[index].pc.applied;
      DescribeAndFlush(index, applies, refused);
      if applies {
        hide LaneValues, Value, Valid, Informed, Flush, Described;
        InformedBy(t, index, refused);
      }
    }

    // The lane at index has its description and no queue; its connection has taken what was queued up to the first
    // candidate it refused, and all of it when it refuses none.
    ghost predicate Informed(index: int, queue: seq<Candidate>, before: seq<Candidate>, refused: set<Candidate>)
      reads this, LaneObjects(), Connections()
    {
      && index in lanes && lanes[index].pc.described && index !in pendingCandidates
      && before <= lanes[index].pc.applied <= before + queue
      && ((forall c | c in queue :: c !in refused) ==> lanes[index].pc.applied == before + queue)
    }

    lemma InformedBy(t: Table, index: int, refused: set<Candidate>)
      requires index in t.lanes && index in lanes && Value() == Flush(Described(t, index), index, refused)
      ensures Informed(index, Queue(t, index), t.lanes[index].applied, refused)
    {
      AcceptedWhole(Queue(t, index), refused);
      var u := Flush(Described(t, index), index, refused);
      assert u.lanes[index] == lanes[index].Value();
      hide Accepted, LaneValues;
    }

    // SetRemoteDescription, and the flush when it succeeds.
    method DescribeAndFlush(index: int, applies: bool, refused: set<Candidate>)
      requires Valid() && index in lanes
      modifies this`pendingCandidates, lanes[index].pc
      ensures Valid() && lanes == old(lanes)
      ensures Value() == if applies then Flush(Described(old(Value()), index), index, refused) else old(Value())
      ensures old(Wired()) ==> Wired()
    {
      hide Wired;
      var described := SetRemoteDescription(index, applies);
      if described {
        ghost var t := Value();
        var ok := FlushLaneCandidates(index, lanes[index].pc, refused);
        assert Value() == FlushInto(t, index, lanes[index].pc.id, refused);
      }
    }

    method SetRemoteDescription(index: int, applies: bool) returns (described: bool)
      requires Valid() && index in lanes
      modifies lanes[index].pc`described
      ensures described == applies && Valid() && lanes == old(lanes)
      ensures Value() == if applies then Described(old(Value()), index) else old(Value())
      ensures old(Wired()) ==> Wired()
    {
      hide Wired;
      described := lanes[index].pc.SetRemoteDescription(applies);
      assert forall i | i in lanes && i != index :: Untouched(lanes[i]);
      hide Valid, LaneValues;
      if described {
        OneLane(index);
        StaysWired(index);
      } else {
        Fewer({});
      }
    }

    // ---------- making lanes ----------

    // A connection that has just been made, in a lane of its own.
    method NewLane() returns (lane: ParallelLane)
      requires Valid()
      modifies this`next
      ensures Valid() && Value() == Created(old(Value())) && lanes == old(lanes)
      ensures fresh(lane) && fresh(lane.pc) && lane.pc.id == old(next)
      ensures lane.Value() == Lane(old(next), false, false, false, []) && old(next) < next
      ensures forall i | i in lanes :: lanes[i] != lane && lanes[i].pc != lane.pc && lanes[i].pc.id != lane.pc.id
      ensures old(Wired()) ==> Wired()
    {
      hide Wired;
      var pc := new PeerConnection(next);
      lane := new ParallelLane(pc);
      next := next + 1;
      hide Valid, LaneValues;
      Fewer({});
    }

    // newPeerConnection and installLane: a connection that does not enter the table is closed.
    method MakeLane(index: int) returns (ok: bool, lane: ParallelLane)
      requires Valid()
      modifies this`lanes, this`next
      ensures Valid() && Value() == Install(Created(old(Value())), index, old(next))
      ensures ok == Admits(old(Value()), index)
      ensures fresh(lane) && fresh(lane.pc) && lane.pc.id == old(next)
      ensures fresh(Repr() - old(Repr())) && (ok ==> index in lanes && lanes[index] == lane)
      ensures !ok ==> lane.pc.closed && lanes == old(lanes)
      ensures old(Wired()) ==> Wired()
    {
      hide Wired, Valid, LaneValues;
      lane := NewLane();
      ok := InstallLane(index, lane);
      if !ok {
        CloseUnused(lane.pc);
      }
    }

    // Closing a connection that no lane holds leaves the table as it is.
    method CloseUnused(pc: PeerConnection)
      requires Valid() && forall i | i in lanes :: lanes[i].pc != pc
      modifies pc`closed
      ensures pc.closed && Valid() && Value() == old(Value())
      ensures old(Wired()) ==> Wired()
    {
      hide Wired;
      pc.Close();
      Fewer({});
    }

    /** createOffer. */
    method CreateOffer(index: int, setup: Setup) returns (failed: bool, ghost pc: PeerConnection?)
      requires Valid()
      modifies this`lanes, this`next
      ensures Valid() && (Value(), failed) == Negotiation.CreateOffer(old(Value()), index, setup)
      ensures fresh(Repr() - old(Repr()))
      ensures index in lanes ==> fresh(lanes[index].pc) || lanes[index].pc in old(Repr())
      ensures pc == null <==> next == old(next)
      ensures pc != null ==> fresh(pc) && (pc.closed || (index in lanes && lanes[index].pc == pc))
      ensures old(Wired()) ==> Wired()
    {
      hide Wired;
      pc := null;
      if !(0 < index < negotiated) {
        return false, null;
      }
      if !setup.made {
        return true, null;
      }
      var ok, lane := MakeLane(index);
      pc := lane.pc;
      if !ok {
        return false, pc;
      }
      if !setup.prepared {
        return true, pc;
      }
      hide Valid, LaneValues;
      AttachNew(index, lane);
      failed := !setup.sent;
    }

    // CreateDataChannel on a lane just installed, and attachLaneChannel.
    method AttachNew(index: int, lane: ParallelLane)
      requires Valid() && index in lanes && lanes[index] == lane
      modifies lane`channel
      ensures Valid() && Value() == Attach(old(Value()), index, lane.pc.id) && lanes == old(lanes)
      ensures old(Wired()) ==> Wired()
    {
      hide Wired;
      var data := new DataChannel();
      Fewer({});
      assert Value() == old(Value()) && Unused(data, index);
      hide *;
      AttachLaneChannel(index, lane, data);
    }

    /** acceptOffer. */
    method AcceptOffer(index: int, setup: Setup, refused: set<Candidate>)
      requires Valid()
      modifies this`lanes, this`next, this`pendingCandidates
      ensures Valid() && Value() == Negotiation.AcceptOffer(old(Value()), index, setup, refused)
      ensures 0 < index < negotiated && setup.made && !old(closed) && index !in old(lanes) ==>
        && index in lanes && fresh(lanes[index])
        && (setup.prepared ==> Informed(index, old(Queue(Value(), index)), [], refused))
      ensures fresh(Repr() - old(Repr()))
      ensures old(Wired()) ==> Wired()
    {
      hide Wired;
      if !(0 < index < negotiated) || !setup.made {
        return;
      }
      var ok, lane := MakeLane(index);
      if ok {
        ghost var t := Value();
        assert index in t.lanes && t.lanes[index].applied == [] && Queue(t, index) == old(Queue(Value(), index));
        hide LaneValues, Value, Valid, Install, Created, Described, Flush, Informed;
        DescribeAndFlush(index, setup.prepared, refused);
        if setup.prepared {
          InformedBy(t, index, refused);
        }
      }
    }

    /** The offers of a capability message: an offer that fails clears its index. */
    method CreateOffers(connections: int, setups: int -> Setup)
      requires Valid()
      modifies this`lanes, this`next, this`pendingCandidates, Repr()
      ensures Valid() && Value() == Negotiation.CreateOffers(old(Value()), 1, connections, setups)
      ensures fresh(Repr() - old(Repr()))
      ensures old(Wired()) ==> Wired()
    {
      hide Wired, Valid, Value, Negotiation.CreateOffer;
      var lane := 1;
      while lane < connections
        invariant Valid() && fresh(Repr() - old(Repr())) && (old(Wired()) ==> Wired())
        invariant Negotiation.CreateOffers(Value(), lane, connections, setups)
               == Negotiation.CreateOffers(old(Value()), 1, connections, setups)
        decreases connections - lane
      {
        ghost var before := Repr();
        OfferOrRemove(lane, setups(lane));
        assert Repr() - old(Repr()) <= (Repr() - before) + (before - old(Repr()));
        lane := lane + 1;
      }
    }

    method OfferOrRemove(index: int, setup: Setup)
      requires Valid()
      modifies this`lanes, this`next, this`pendingCandidates, Repr()
      ensures Valid() && fresh(Repr() - old(Repr()))
      ensures var (u, failed) := Negotiation.CreateOffer(old(Value()), index, setup);
        Value() == if failed then Remove(u, index) else u
      ensures old(Wired()) ==> Wired()
    {
      hide Wired;
      var failed, pc := CreateOffer(index, setup);
      hide Valid, Value, LaneValues, Negotiation.CreateOffer, Remove;
      if failed {
        RemoveLane(index);
      }
    }

    method HandleCapability(n: int, setups: int -> Setup)
      requires Valid()
      modifies this`negotiated, this`lanes, this`next, this`pendingCandidates, Repr()
      ensures Valid() && Value() == Handle(old(Value()), Capability(n, setups), {})
      ensures fresh(Repr() - old(Repr()))
      ensures old(Wired()) ==> Wired()
    {
      hide Wired;
      if !(1 <= n <= MAX_PARALLEL_CONNECTIONS) {
        return;
      }
      negotiated := Min(connections, n);
      hide LaneValues;
      Fewer({});
      assert Valid() && Value() == Negotiate(old(Value()), n) && Repr() == old(Repr());
      hide Valid, Repr, Negotiate, Negotiation.CreateOffers;
      if initiator {
        CreateOffers(negotiated, setups);
      }
    }

    /** handleParallelControl, and the two other ways a lane ends: its failure callback and shutdown. */
    method Process(e: Event, order: seq<int>, refused: set<Candidate>)
      requires Valid() && forall i :: i in order <==> i in lanes
      modifies this`negotiated, this`closed, this`lanes, this`next, this`pendingCandidates, Repr()
      ensures Valid() && Value() == Handle(old(Value()), e, refused)
      ensures fresh(Repr() - old(Repr()))
      ensures old(Wired()) ==> Wired()
    {
      hide Wired, Valid, LaneValues, Negotiation.CreateOffers, Negotiation.AcceptOffer, Negotiation.AcceptAnswer,
           Negotiation.AcceptCandidate;
      match e
      case Capability(n, setups) => HandleCapability(n, setups);
      case Offer(lane, acceptable, setup) =>
        if !initiator && acceptable {
          AcceptOffer(lane, setup, refused);
        }
      case Answer(lane, acceptable, applies) =>
        if initiator && acceptable {
          AcceptAnswer(lane, applies, refused);
        }
      case Ice(lane, candidate) => AcceptCandidate(lane, candidate, refused);
      case Removed(lane) =>
        if lane in lanes {
          RemoveLaneIfCurrent(lane, lanes[lane]);
        }
      case Shutdown => Shutdown(order);
    }

    // ---------- striping ----------

    /** What the striping may use is what the lane table has as open and attached; with the indices of the table inside
        the local limit there are at most that many candidates, the primary among them. */
    lemma StripesOfTable(order: seq<int>)
      requires Walks(Stripes(), order) && connections >= 1
      requires forall i | i in Value().lanes :: 1 <= i < connections
      ensures forall i | Usable(Stripes(), i) ::
        i in Value().lanes && Value().lanes[i].open && Value().lanes[i].attached
      ensures |Candidates(primary, Stripes(), order)| <= connections
    {
      forall k | 0 <= k < |order| ensures 1 <= order[k] < connections {
        assert order[k] in order;
      }
      DistinctBound(order, connections);
      OpenLanesBound(primary, Stripes(), order, |order|);
    }

    // An open channel that can carry binary data: the primary, or that of a lane that has opened.
    predicate Carries(ch: DataChannel)
      reads this, LaneObjects(), ch
    {
      ch.open && (ch == primary || exists i :: i in lanes && lanes[i].open && lanes[i].channel == ch)
    }

    lemma CandidatesCarry(order: seq<int>)
      requires Wired() && Walks(Stripes(), order)
      ensures forall ch | ch in Channels(primary, Stripes()) ::
        ch in Candidates(primary, Stripes(), order) <==> Carries(ch)
    {
      CandidatesAreOpen(primary, Stripes(), order);
      hide Candidates, Walks, Apart;
    }

    /** Send: the channels tried are the open ones of the lane table, each once, round from the cursor. The packet goes
        to the least buffered of those that take it, the first of them in that order, and is queued there once; nothing
        else changes, and there is an error exactly when every open channel refuses. */
    method Send(payload: seq<byte>, order: seq<int>) returns (ok: bool, ghost turned: seq<DataChannel>, ghost p: nat)
      requires Wired() && Walks(Stripes(), order)
      modifies this`binaryCursor, Channels(primary, Stripes())
      ensures Wired() && Stripes() == old(Stripes())
      ensures turned == old(Turned(Candidates(primary, Stripes(), order), binaryCursor)) && Distinct(turned)
      ensures binaryCursor == if turned == [] then old(binaryCursor) else (old(binaryCursor) + 1) % TWO_TO_64
      ensures forall ch | ch in Channels(primary, old(Stripes())) && ch !in turned :: ch.Value() == old(ch.Value())
      ensures forall ch | ch in Channels(primary, old(Stripes())) :: ch in turned <==> old(Carries(ch))
      ensures GoesRound(old(Candidates(primary, Stripes(), order)), old(binaryCursor), turned)
      ensures Served(old(Values(turned)), payload, ok, p, Values(turned))
    {
      hide Turned, Candidates, Walks, Wired, Values, Carries, GoesRound, Served, Distinct, Delivered;
      var count;
      ok, count, turned, p := SendStriped(payload, order);
      if count > 0 {
        AdvanceCursor(turned);
      }
    }

    // The channels of the table are tried; the lanes and the cursor stay.
    method SendStriped(payload: seq<byte>, order: seq<int>)
      returns (ok: bool, count: nat, ghost turned: seq<DataChannel>, ghost p: nat)
      requires Wired() && Walks(Stripes(), order)
      modifies Channels(primary, Stripes())
      ensures Wired() && Stripes() == old(Stripes()) && count == |turned|
      ensures turned == old(Turned(Candidates(primary, Stripes(), order), binaryCursor)) && Distinct(turned)
      ensures forall ch | ch in Channels(primary, old(Stripes())) && ch !in turned :: ch.Value() == old(ch.Value())
      ensures forall ch | ch in Channels(primary, old(Stripes())) :: ch in turned <==> old(Carries(ch))
      ensures GoesRound(old(Candidates(primary, Stripes(), order)), old(binaryCursor), turned)
      ensures Served(old(Values(turned)), payload, ok, p, Values(turned))
    {
      var stripes := Stripes();
      CandidatesCarry(order);
      hide Turned, Candidates, Walks, Apart, Values, Carries, GoesRound, Served, Distinct;
      var candidates;
      ok, candidates, p := SendOver(primary, stripes, binaryCursor, payload, order);
      count, turned := |candidates|, candidates;
      StillWired(stripes);
    }

    // The cursor moves under the same lock, whatever the outcome.
    method AdvanceCursor(ghost turned: seq<DataChannel>)
      requires Wired()
      modifies this`binaryCursor
      ensures binaryCursor == (old(binaryCursor) + 1) % TWO_TO_64 && Values(turned) == old(Values(turned))
      ensures Wired() && Stripes() == old(Stripes())
    {
      binaryCursor := (binaryCursor + 1) % TWO_TO_64;
      assert forall i | i in lanes :: Stripes()[i] == old(Stripes())[i];
    }

    twostate lemma StillWired(stripes: map<int, Stripe>)
      requires 0 <= binaryCursor < TWO_TO_64 && lanes == old(lanes)
      requires old(Stripes()) == stripes && Apart(primary, stripes)
      requires forall i | i in lanes :: lanes[i].open == old(lanes[i].open) && lanes[i].channel == old(lanes[i].channel)
      ensures Wired() && Stripes() == stripes
    {
      assert forall i | i in lanes :: Stripes()[i] == stripes[i];
    }

    method BufferedAmount(order: seq<int>) returns (minimum: nat)
      requires Wired() && Walks(Stripes(), order)
      ensures minimum == LeastBuffered(primary.buffered, Values(Candidates(primary, Stripes(), order)))
    {
      var stripes := Stripes();
      minimum := BufferedOver(primary, stripes, order);
      assert Stripes() == stripes;
    }
  }

  method CloseAll(removed: map<int, ParallelLane>, order: seq<int>)
    requires (forall k | 0 <= k < |order| :: order[k] in removed) && forall i | i in removed :: i in order
    modifies set i | i in removed :: removed[i].pc
    ensures forall i | i in removed :: removed[i].pc.closed
  {
    for n := 0 to |order|
      invariant forall k | 0 <= k < n :: removed[order[k]].pc.closed
    {
      var index := order[n];
      assert index in removed && removed[index].pc in set i | i in removed :: removed[i].pc;
      removed[index].pc.Close();
    }
    forall i | i in removed ensures removed[i].pc.closed {
      assert i in order;
    }
  }

  lemma {:induction false} AcceptedPrefix(queue: seq<Candidate>, n: nat, refused: set<Candidate>)
    requires n <= |queue| && forall k | 0 <= k < n :: queue[k] !in refused
    requires n < |queue| ==> queue[n] in refused
    ensures Accepted(queue, refused) == queue[..n]
    decreases n
  {
    if n > 0 {
      AcceptedPrefix(queue[1..], n - 1, refused);
      assert queue[..n] == [queue[0]] + queue[1..][..n - 1];
    }
  }

  method AddAll(pc: PeerConnection, pending: seq<Candidate>, refused: set<Candidate>) returns (ok: bool)
    modifies pc`applied
    ensures pc.applied == old(pc.applied) + Accepted(pending, refused)
    ensures ok <==> Accepted(pending, refused) == pending
  {
    for n := 0 to |pending|
      invariant pc.applied == old(pc.applied) + pending[..n]
      invariant forall k | 0 <= k < n :: pending[k] !in refused
    {
      ok := pc.AddICECandidate(pending[n], refused);
      if !ok {
        AcceptedPrefix(pending, n, refused);
        return;
      }
    }
    AcceptedPrefix(pending, |pending|, refused);
    ok := true;
  }
}
