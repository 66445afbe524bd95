/** The negotiation loop of webrtc/parallel_channel.go: what one control message does to the table of lanes, and which
    candidates reach a lane's connection. */
module Negotiation {
  import opened Wrappers
  import opened Lanes

  // How far the setup of a connection gets: whether the connection is made, its channel or remote description is set,
  // and the local description is set and sent.
  datatype Setup = Setup(made: bool, prepared: bool, sent: bool)

  datatype Event =
    | Capability(connections: int, setups: int -> Setup)
    | Offer(lane: int, acceptable: bool, setup: Setup)
    | Answer(lane: int, acceptable: bool, applies: bool)
    | Ice(lane: int, candidate: Option<Candidate>)
    | Removed(lane: int)
    | Shutdown

  // ---------- the handlers ----------

  // What a connection takes of the queued candidates: flushing stops at the first one it refuses.
  function Accepted(queue: seq<Candidate>, refused: set<Candidate>): (r: seq<Candidate>)
    ensures r <= queue && forall c | c in r :: c !in refused
    ensures |r| < |queue| ==> queue[|r|] in refused
  {
    if queue == [] || queue[0] in refused then [] else [queue[0]] + Accepted(queue[1..], refused)
  }

  function Flush(t: Table, index: int, refused: set<Candidate>): Table
    requires index in t.lanes
  {
    var lane := t.lanes[index];
    t.(lanes := t.lanes[index := lane.(applied := lane.applied + Accepted(Queue(t, index), refused))],
       pending := t.pending - {index})
  }

  // The flush for a connection whose lane may have left the table meanwhile.
  function FlushInto(t: Table, index: int, pc: nat, refused: set<Candidate>): Table
  {
    if Current(t, index, pc) then Flush(t, index, refused) else t.(pending := t.pending - {index})
  }

  function Described(t: Table, index: int): Table
    requires index in t.lanes
  {
    t.(lanes := t.lanes[index := t.lanes[index].(described := true)])
  }

  // createOffer, and whether it returned an error.
  function CreateOffer(t: Table, index: int, setup: Setup): (Table, bool)
  {
    if !ValidLane(t, index) then (t, false) else
    if !setup.made then (t, true) else
    var u := Install(Created(t), index, t.next);
    if !Admits(t, index) then (u, false) else
    if !setup.prepared then (u, true) else
    (Attach(u, index, t.next), !setup.sent)
  }

  function CreateOffers(t: Table, lane: int, connections: int, setups: int -> Setup): Table
    decreases connections - lane
  {
    if lane >= connections then t else
    var (u, failed) := CreateOffer(t, lane, setups(lane));
    CreateOffers(if failed then Remove(u, lane) else u, lane + 1, connections, setups)
  }

  function AcceptOffer(t: Table, index: int, setup: Setup, refused: set<Candidate>): Table
  {
    if !ValidLane(t, index) || !setup.made then t else
    var u := Install(Created(t), index, t.next);
    if !Admits(t, index) || !setup.prepared then u else
    Flush(Described(u, index), index, refused)
  }

  function AcceptAnswer(t: Table, index: int, applies: bool, refused: set<Candidate>): Table
  {
    if !ValidLane(t, index) || index !in t.lanes || !applies then t else
    Flush(Described(t, index), index, refused)
  }

  // The remote description of the lane's connection is set.
  predicate HasDescription(t: Table, index: int) { index in t.lanes && t.lanes[index].described }

  predicate Worthwhile(t: Table, index: int, candidate: Option<Candidate>)
  {
    candidate.Some? && ValidLane(t, index) && |candidate.value| <= MAX_PARALLEL_CANDIDATE_SIZE
  }

  function AcceptCandidate(t: Table, index: int, candidate: Option<Candidate>, refused: set<Candidate>): Table
  {
    if !Worthwhile(t, index, candidate) then t else
    if !HasDescription(t, index) then
      if |Queue(t, index)| < MAX_PENDING_CANDIDATES then
        t.(pending := t.pending[index := Queue(t, index) + [candidate.value]])
      else t
    else if candidate.value in refused then t
    else t.(lanes := t.lanes[index := t.lanes[index].(applied := t.lanes[index].applied + [candidate.value])])
  }

  function Handle(t: Table, e: Event, refused: set<Candidate>): Table
  {
    match e
    case Capability(n, setups) =>
      var u := Negotiate(t, n);
      if Counts(n) && t.initiator then CreateOffers(u, 1, u.negotiated, setups) else u
    case Offer(lane, acceptable, setup) =>
      if !t.initiator && acceptable then AcceptOffer(t, lane, setup, refused) else t
    case Answer(lane, acceptable, applies) =>
      if t.initiator && acceptable then AcceptAnswer(t, lane, applies, refused) else t
    case Ice(lane, candidate) => AcceptCandidate(t, lane, candidate, refused)
    case Removed(lane) => if lane in t.lanes then Remove(t, lane) else t
    case Shutdown => Shut(t)
  }

  // ---------- what a lane was told ----------

  // The usable candidates for one index since its lane was last given up, in order; early counts those that came
  // before the remote description.
  datatype History = History(heard: seq<Candidate>, early: nat)

  const NOTHING := History([], 0)

  // The message makes createOffer fail for this index, so that removeLane clears it.
  predicate OfferFails(t: Table, e: Event, index: int)
  {
    && e.Capability? && Counts(e.connections) && t.initiator
    && 1 <= index < Negotiate(t, e.connections).negotiated
    && Fails(t, index, e.setups(index))
  }

  predicate Clears(t: Table, e: Event, index: int)
  {
    || OfferFails(t, e, index)
    || (e.Removed? && e.lane == index && index in t.lanes)
    || (e.Shutdown? && !t.closed && HasDescription(t, index))
  }

  function Note(h: History, t: Table, e: Event, index: int): History
  {
    if e.Ice? && e.lane == index && Worthwhile(t, index, e.candidate) then
      History(h.heard + [e.candidate.value], if HasDescription(t, index) then h.early else h.early + 1)
    else if Clears(t, e, index) then NOTHING
    else h
  }

  // The table and the history of one index after a run of messages.
  predicate Reaches(t: Table, h: History, events: seq<Event>, index: int, refused: set<Candidate>, u: Table, g: History)
    decreases |events|
  {
    if events == [] then u == t && g == h else
    Reaches(Handle(t, events[0], refused), Note(h, t, events[0], index), events[1..], index, refused, u, g)
  }

  function First(s: seq<Candidate>, n: nat): seq<Candidate> { if |s| <= n then s else s[..n] }

  // The candidates the connection takes one at a time.
  function Taken(s: seq<Candidate>, refused: set<Candidate>): seq<Candidate>
  {
    if s == [] then [] else
    Taken(s[..|s| - 1], refused) + if s[|s| - 1] in refused then [] else [s[|s| - 1]]
  }

  // The queue and the connection hold what they should of the history.
  predicate Kept(t: Table, h: History, index: int, refused: set<Candidate>)
  {
    && h.early <= |h.heard|
    && (if HasDescription(t, index) then
          && Queue(t, index) == []
          && t.lanes[index].applied ==
               Accepted(First(h.heard[..h.early], MAX_PENDING_CANDIDATES), refused) + Taken(h.heard[h.early..], refused)
        else
          && h.early == |h.heard|
          && Queue(t, index) == First(h.heard, MAX_PENDING_CANDIDATES)
          && (index in t.lanes ==> t.lanes[index].applied == []))
  }

  lemma EarlyStep(t: Table, h: History, c: Candidate, index: int, refused: set<Candidate>)
    requires Kept(t, h, index, refused) && Worthwhile(t, index, Some(c)) && !HasDescription(t, index)
    ensures Kept(AcceptCandidate(t, index, Some(c), refused), History(h.heard + [c], h.early + 1), index, refused)
  {}

  lemma LateHistory(heard: seq<Candidate>, early: nat, c: Candidate, refused: set<Candidate>)
    requires early <= |heard|
    ensures (heard + [c])[..early] == heard[..early]
    ensures Taken((heard + [c])[early..], refused) == Taken(heard[early..], refused) + if c in refused then [] else [c]
  {
    var late := heard[early..];
    assert (heard + [c])[early..] == late + [c] && (late + [c])[..|late|] == late;
  }

  lemma LateStep(t: Table, h: History, c: Candidate, index: int, refused: set<Candidate>)
    requires Kept(t, h, index, refused) && Worthwhile(t, index, Some(c)) && HasDescription(t, index)
    ensures Kept(AcceptCandidate(t, index, Some(c), refused), History(h.heard + [c], h.early), index, refused)
  {
    LateHistory(h.heard, h.early, c, refused);
    var early := Accepted(First(h.heard[..h.early], MAX_PENDING_CANDIDATES), refused);
    var late := Taken(h.heard[h.early..], refused);
    hide Taken, Accepted, First, Worthwhile;
    assert early + (late + [c]) == (early + late) + [c] && late + [] == late;
  }

  // Setting the description flushes the queue into the connection.
  lemma FlushStep(t: Table, h: History, index: int, refused: set<Candidate>)
    requires Kept(t, h, index, refused) && index in t.lanes
    ensures Kept(Flush(Described(t, index), index, refused), h, index, refused)
  {
    if HasDescription(t, index) {
      FlushAgain(t, index, refused);
      hide Accepted, Taken, First, Flush, Described;
    } else {
      assert h.heard[..h.early] == h.heard && h.heard[h.early..] == [];
      assert Taken([], refused) == [];
      hide Accepted, Taken, First;
    }
  }

  // With its queue empty a described lane is not changed by another flush.
  lemma FlushAgain(t: Table, index: int, refused: set<Candidate>)
    requires HasDescription(t, index) && Queue(t, index) == []
    ensures var u := Flush(Described(t, index), index, refused);
      u.lanes == t.lanes && Queue(u, index) == []
  {
    var lane := t.lanes[index];
    assert lane.(described := true) == lane && lane.applied + Accepted([], refused) == lane.applied;
    assert t.lanes[index := lane] == t.lanes;
  }

  // A message for other lanes changes nothing here.
  lemma Elsewhere(t: Table, u: Table, h: History, index: int, refused: set<Candidate>)
    requires Kept(t, h, index, refused) && Queue(u, index) == Queue(t, index)
    requires index in t.lanes <==> index in u.lanes
    requires index in t.lanes ==> t.lanes[index].described == u.lanes[index].described
    requires index in t.lanes ==> t.lanes[index].applied == u.lanes[index].applied
    ensures Kept(u, h, index, refused)
  {}

  lemma {:induction false} OffersElsewhere(t: Table, lane: int, connections: int, setups: int -> Setup, index: int)
    requires 1 <= lane && !(lane <= index < connections)
    ensures var u := CreateOffers(t, lane, connections, setups);
      && Queue(u, index) == Queue(t, index) && (index in t.lanes <==> index in u.lanes)
      && (index in t.lanes ==> u.lanes[index] == t.lanes[index])
    decreases connections - lane
  {
    if lane < connections {
      var (u, failed) := CreateOffer(t, lane, setups(lane));
      OffersElsewhere(if failed then Remove(u, lane) else u, lane + 1, connections, setups, index);
    }
  }

  // Whether createOffer fails for an index the count allows.
  predicate Fails(t: Table, index: int, s: Setup) { !s.made || (Admits(t, index) && !(s.prepared && s.sent)) }

  lemma OfferStep(t: Table, h: History, index: int, s: Setup, refused: set<Candidate>)
    requires Kept(t, h, index, refused) && ValidLane(t, index)
    ensures var (u, failed) := CreateOffer(t, index, s);
      && failed == Fails(t, index, s)
      && (if failed then Kept(Remove(u, index), NOTHING, index, refused) else Kept(u, h, index, refused))
  {}

  lemma OfferElsewhere(t: Table, h: History, lane: int, s: Setup, index: int, refused: set<Candidate>)
    requires Kept(t, h, index, refused) && lane != index
    ensures var (u, failed) := CreateOffer(t, lane, s); var v := if failed then Remove(u, lane) else u;
      Kept(v, h, index, refused) && v.negotiated == t.negotiated && (Admits(v, index) <==> Admits(t, index))
  {
    var (u, failed) := CreateOffer(t, lane, s);
    Elsewhere(t, if failed then Remove(u, lane) else u, h, index, refused);
  }

  lemma {:induction false} OffersKeep(t: Table, h: History, lane: int, setups: int -> Setup, index: int,
                                      refused: set<Candidate>)
    requires Kept(t, h, index, refused) && 1 <= lane <= index < t.negotiated
    ensures Kept(CreateOffers(t, lane, t.negotiated, setups),
                 if Fails(t, index, setups(index)) then NOTHING else h, index, refused)
    decreases t.negotiated - lane
  {
    var (u, failed) := CreateOffer(t, lane, setups(lane));
    var v := if failed then Remove(u, lane) else u;
    if lane == index {
      OfferStep(t, h, index, setups(index), refused);
      OffersElsewhere(v, lane + 1, t.negotiated, setups, index);
      hide Kept, CreateOffer, Fails;
      Elsewhere(v, CreateOffers(v, lane + 1, t.negotiated, setups),
                if failed then NOTHING else h, index, refused);
    } else {
      OfferElsewhere(t, h, lane, setups(lane), index, refused);
      hide Kept, CreateOffer;
      OffersKeep(v, h, lane + 1, setups, index, refused);
    }
  }

  lemma CapabilityStep(t: Table, h: History, e: Event, index: int, refused: set<Candidate>)
    requires Kept(t, h, index, refused) && e.Capability?
    ensures Kept(Handle(t, e, refused), Note(h, t, e, index), index, refused)
  {
    var u := Negotiate(t, e.connections);
    Elsewhere(t, u, h, index, refused);
    if Counts(e.connections) && t.initiator {
      if 1 <= index < u.negotiated {
        OffersKeep(u, h, 1, e.setups, index, refused);
      } else {
        OffersElsewhere(u, 1, u.negotiated, e.setups, index);
        Elsewhere(u, CreateOffers(u, 1, u.negotiated, e.setups), h, index, refused);
      }
    }
  }

  lemma OfferedStep(t: Table, h: History, lane: int, s: Setup, index: int, refused: set<Candidate>)
    requires Kept(t, h, index, refused)
    ensures Kept(AcceptOffer(t, lane, s, refused), h, index, refused)
  {
    var u := Install(Created(t), lane, t.next);
    Elsewhere(t, Created(t), h, index, refused);
    if lane == index {
      if Admits(t, lane) {
        assert Kept(u, h, index, refused);
        FlushStep(u, h, index, refused);
      }
    } else {
      Elsewhere(t, AcceptOffer(t, lane, s, refused), h, index, refused);
    }
  }

  lemma AnsweredStep(t: Table, h: History, lane: int, applies: bool, index: int, refused: set<Candidate>)
    requires Kept(t, h, index, refused)
    ensures Kept(AcceptAnswer(t, lane, applies, refused), h, index, refused)
  {
    if lane == index && lane in t.lanes {
      FlushStep(t, h, index, refused);
    } else {
      Elsewhere(t, AcceptAnswer(t, lane, applies, refused), h, index, refused);
    }
  }

  lemma IceStep(t: Table, h: History, e: Event, index: int, refused: set<Candidate>)
    requires Kept(t, h, index, refused) && e.Ice?
    ensures Kept(Handle(t, e, refused), Note(h, t, e, index), index, refused)
  {
    if Worthwhile(t, e.lane, e.candidate) {
      if e.lane != index {
        Elsewhere(t, AcceptCandidate(t, e.lane, e.candidate, refused), h, index, refused);
      } else if HasDescription(t, index) {
        LateStep(t, h, e.candidate.value, index, refused);
      } else {
        EarlyStep(t, h, e.candidate.value, index, refused);
      }
    }
  }

  lemma HandleKeeps(t: Table, h: History, e: Event, index: int, refused: set<Candidate>)
    requires Kept(t, h, index, refused)
    ensures Kept(Handle(t, e, refused), Note(h, t, e, index), index, refused)
  {
    match e
    case Capability(_, _) => CapabilityStep(t, h, e, index, refused);
    case Offer(lane, _, s) => OfferedStep(t, h, lane, s, index, refused);
    case Answer(lane, _, applies) => AnsweredStep(t, h, lane, applies, index, refused);
    case Ice(_, _) => IceStep(t, h, e, index, refused);
    case Removed(_) =>
    case Shutdown =>
  }

  lemma {:induction false} RunKeeps(t: Table, h: History, events: seq<Event>, index: int, refused: set<Candidate>,
                                    u: Table, g: History)
    requires Kept(t, h, index, refused) && Reaches(t, h, events, index, refused, u, g)
    ensures Kept(u, g, index, refused)
    decreases |events|
  {
    if events != [] {
      HandleKeeps(t, h, events[0], index, refused);
      RunKeeps(Handle(t, events[0], refused), Note(h, t, events[0], index), events[1..], index, refused, u, g);
    }
  }

  /** In every run, the connection of a lane has taken the candidates heard for it in order and once each: those that
      came before the remote description up to the sixty-fourth, up to the first it refused, and then every later one
      it does not refuse. What is not yet applied is queued, and no queue exceeds sixty-four. */
  lemma CandidatesInOrder(connections: int, initiator: bool, events: seq<Event>, index: int, refused: set<Candidate>,
                          t: Table, h: History)
    requires Reaches(Fresh(connections, initiator), NOTHING, events, index, refused, t, h)
    ensures h.early <= |h.heard| && |Queue(t, index)| <= MAX_PENDING_CANDIDATES
    ensures HasDescription(t, index) ==>
      t.lanes[index].applied ==
        Accepted(First(h.heard[..h.early], MAX_PENDING_CANDIDATES), refused) + Taken(h.heard[h.early..], refused)
    ensures HasDescription(t, index) ==> Queue(t, index) == []
    ensures !HasDescription(t, index) ==> Queue(t, index) == First(h.heard, MAX_PENDING_CANDIDATES)
    ensures refused == {} && HasDescription(t, index) ==>
      t.lanes[index].applied == First(h.heard[..h.early], MAX_PENDING_CANDIDATES) + h.heard[h.early..]
  {
    RunKeeps(Fresh(connections, initiator), NOTHING, events, index, refused, t, h);
    if refused == {} {
      AcceptedWhole(First(h.heard[..h.early], MAX_PENDING_CANDIDATES), refused);
      TakenAll(h.heard[h.early..]);
    }
  }

  lemma {:induction false} AcceptedWhole(queue: seq<Candidate>, refused: set<Candidate>)
    ensures (forall c | c in queue :: c !in refused) ==> Accepted(queue, refused) == queue
    decreases |queue|
  {
    if queue != [] {
      AcceptedWhole(queue[1..], refused);
      assert queue == [queue[0]] + queue[1..];
    }
  }

  lemma {:induction false} TakenAll(s: seq<Candidate>)
    ensures Taken(s, {}) == s
    decreases |s|
  {
    if s != [] {
      TakenAll(s[..|s| - 1]);
    }
  }

  /** A capability message leaves an installed lane as it is, except when it makes the initiator offer that index again
      and no connection can be made: the failure of the new connection removes the lane that was already there. */
  lemma CapabilityKeepsLane(t: Table, e: Event, index: int, refused: set<Candidate>)
    requires e.Capability? && index in t.lanes
    ensures var u := Handle(t, e, refused);
      var offered := Counts(e.connections) && t.initiator && 1 <= index < Min(t.connections, e.connections);
      if offered && !e.setups(index).made then index !in u.lanes
      else index in u.lanes && u.lanes[index] == t.lanes[index]
  {
    var u := Negotiate(t, e.connections);
    if Counts(e.connections) && t.initiator {
      if 1 <= index < u.negotiated {
        OffersLane(u, 1, e.setups, index);
      } else {
        OffersElsewhere(u, 1, u.negotiated, e.setups, index);
      }
    }
  }

  lemma {:induction false} OffersLane(t: Table, lane: int, setups: int -> Setup, index: int)
    requires index in t.lanes && 1 <= lane <= index < t.negotiated
    ensures var u := CreateOffers(t, lane, t.negotiated, setups);
      if !setups(index).made then index !in u.lanes else index in u.lanes && u.lanes[index] == t.lanes[index]
    decreases t.negotiated - lane
  {
    var (u, failed) := CreateOffer(t, lane, setups(lane));
    var v := if failed then Remove(u, lane) else u;
    if lane == index {
      OffersElsewhere(v, lane + 1, t.negotiated, setups, index);
    } else {
      OffersLane(v, lane + 1, setups, index);
    }
  }

  lemma {:induction false} OffersNew(t: Table, lane: int, setups: int -> Setup, index: int)
    requires index !in t.lanes && !t.closed && 1 <= lane <= index < t.negotiated
    ensures var u, s := CreateOffers(t, lane, t.negotiated, setups), setups(index);
      if s.made && s.prepared && s.sent then
        && index in u.lanes && u.lanes[index] == Lane(u.lanes[index].pc, true, false, false, [])
        && u.lanes[index].pc >= t.next && Queue(u, index) == Queue(t, index)
      else index !in u.lanes && Queue(u, index) == []
    decreases t.negotiated - lane
  {
    var (u, failed) := CreateOffer(t, lane, setups(lane));
    var v := if failed then Remove(u, lane) else u;
    if lane == index {
      OffersElsewhere(v, lane + 1, t.negotiated, setups, index);
    } else {
      OffersNew(v, lane + 1, setups, index);
    }
  }

  /** What a capability message makes of an index without a lane on an open channel: the initiator gets a lane with its
      channel, not yet open or described, when every stage of the offer succeeds, and otherwise no lane and no queue.
      The other side only takes over the count, and a count out of range is ignored. */
  lemma CapabilityMakesLane(t: Table, n: int, setups: int -> Setup, index: int, refused: set<Candidate>)
    requires index !in t.lanes && !t.closed
    ensures var u, s := Handle(t, Capability(n, setups), refused), setups(index);
      if n < 1 || n > 8 then u == t
      else
        && u.negotiated == Min(t.connections, n)
        && (!t.initiator ==> u == t.(negotiated := u.negotiated))
        && (t.initiator && 1 <= index < u.negotiated && s.made && s.prepared && s.sent ==>
              && index in u.lanes && u.lanes[index] == Lane(u.lanes[index].pc, true, false, false, [])
              && u.lanes[index].pc >= t.next && Queue(u, index) == Queue(t, index))
        && (t.initiator && 1 <= index < u.negotiated && !(s.made && s.prepared && s.sent) ==>
              index !in u.lanes && Queue(u, index) == [])
        && (index < 1 || index >= u.negotiated ==> index !in u.lanes && Queue(u, index) == Queue(t, index))
  {
    if Counts(n) && t.initiator {
      var u := Negotiate(t, n);
      OffersCount(u, 1, u.negotiated, setups);
      if 1 <= index < u.negotiated {
        OffersNew(u, 1, setups, index);
      } else {
        OffersElsewhere(u, 1, u.negotiated, setups, index);
      }
    }
  }

  lemma {:induction false} OffersCount(t: Table, lane: int, connections: int, setups: int -> Setup)
    ensures CreateOffers(t, lane, connections, setups).negotiated == t.negotiated
    decreases connections - lane
  {
    if lane < connections {
      var (u, failed) := CreateOffer(t, lane, setups(lane));
      OffersCount(if failed then Remove(u, lane) else u, lane + 1, connections, setups);
    }
  }

  /** What an offer makes: the other side gets a lane at a free valid index of an open channel whenever a connection can
      be made, under a new number and without channel; every other lane and every other queue stays. */
  lemma OfferMakesLane(t: Table, lane: int, acceptable: bool, s: Setup, index: int, refused: set<Candidate>)
    ensures var u := Handle(t, Offer(lane, acceptable, s), refused);
      if lane == index && !t.initiator && acceptable && 0 < index < t.negotiated && s.made && !t.closed
         && index !in t.lanes then
        && index in u.lanes && u.lanes[index].pc == t.next && !u.lanes[index].attached && !u.lanes[index].open
        && (u.lanes[index].described <==> s.prepared)
      else
        && (index in u.lanes <==> index in t.lanes) && (index in t.lanes ==> u.lanes[index] == t.lanes[index])
        && Queue(u, index) == Queue(t, index)
  {}

  // The message sets the remote description of the lane at this index: an answer to the initiator for a lane it has, or
  // an offer to the other side for an index that is free.
  predicate Describes(t: Table, e: Event, index: int)
  {
    0 < index < t.negotiated &&
    match e
    case Answer(lane, acceptable, applies) =>
      lane == index && t.initiator && acceptable && applies && index in t.lanes
    case Offer(lane, acceptable, setup) =>
      lane == index && !t.initiator && acceptable && setup.made && setup.prepared && !t.closed && index !in t.lanes
    case _ => false
  }

  // What the message has done to the description of this index, and to its queue.
  predicate RightlyDescribed(t: Table, e: Event, index: int, refused: set<Candidate>, u: Table)
  {
    && (index in u.lanes && u.lanes[index].described <==>
          (index in t.lanes && t.lanes[index].described && index in u.lanes) || Describes(t, e, index))
    && (Describes(t, e, index) ==>
          var before := if index in t.lanes then t.lanes[index].applied else [];
          && Queue(u, index) == []
          && (forall other | other != index && other in t.lanes :: other in u.lanes && u.lanes[other] == t.lanes[other])
          && before <= u.lanes[index].applied <= before + Queue(t, index)
          && ((forall c | c in Queue(t, index) :: c !in refused) ==>
                u.lanes[index].applied == before + Queue(t, index)))
  }

  /** A lane of the table has its remote description exactly when it had it before, or the message is an answer or an
      offer that sets it. Then its queue goes into the connection: all of it, when nothing is refused. */
  lemma DescribedExactly(t: Table, e: Event, index: int, refused: set<Candidate>)
    ensures RightlyDescribed(t, e, index, refused, Handle(t, e, refused))
  {
    match e
    case Capability(_, _) => CapabilityDescribes(t, e, index, refused);
    case Offer(_, _, _) => OfferDescribes(t, e, index, refused);
    case Answer(_, _, _) => AnswerDescribes(t, e, index, refused);
    case _ =>
  }

  lemma AnswerDescribes(t: Table, e: Event, index: int, refused: set<Candidate>)
    requires e.Answer?
    ensures RightlyDescribed(t, e, index, refused, Handle(t, e, refused))
  {
    AcceptedWhole(Queue(t, index), refused);
    hide Accepted;
  }

  lemma OfferDescribes(t: Table, e: Event, index: int, refused: set<Candidate>)
    requires e.Offer?
    ensures RightlyDescribed(t, e, index, refused, Handle(t, e, refused))
  {
    AcceptedWhole(Queue(t, index), refused);
    hide Accepted;
  }

  // A capability message describes no lane.
  lemma CapabilityDescribes(t: Table, e: Event, index: int, refused: set<Candidate>)
    requires e.Capability?
    ensures RightlyDescribed(t, e, index, refused, Handle(t, e, refused))
  {
    if index in t.lanes {
      CapabilityKeepsLane(t, e, index, refused);
    } else if !t.closed {
      CapabilityMakesLane(t, e.connections, e.setups, index, refused);
    } else {
      OffersClosed(Negotiate(t, e.connections), 1, Negotiate(t, e.connections).negotiated, e.setups, index);
    }
  }

  lemma {:induction false} OffersClosed(t: Table, lane: int, connections: int, setups: int -> Setup, index: int)
    requires t.closed && index !in t.lanes
    ensures index !in CreateOffers(t, lane, connections, setups).lanes
    decreases connections - lane
  {
    if lane < connections {
      var (u, failed) := CreateOffer(t, lane, setups(lane));
      OffersClosed(if failed then Remove(u, lane) else u, lane + 1, connections, setups, index);
    }
  }

  /** What a candidate does: nothing when it is none, too long or for no valid lane; else it reaches a described lane's
      connection at once unless refused, and joins the queue of an index without description while that has room. */
  lemma CandidateArrives(t: Table, lane: int, candidate: Option<Candidate>, refused: set<Candidate>)
    ensures var u := Handle(t, Ice(lane, candidate), refused);
      if candidate.None? || |candidate.value| > 4096 || lane <= 0 || lane >= t.negotiated then u == t
      else if lane in t.lanes && t.lanes[lane].described then
        && u.lanes.Keys == t.lanes.Keys && u.pending == t.pending
        && u.lanes[lane].applied ==
             t.lanes[lane].applied + (if candidate.value in refused then [] else [candidate.value])
        && forall other | other in t.lanes && other != lane :: u.lanes[other] == t.lanes[other]
      else
        && u.lanes == t.lanes
        && Queue(u, lane) == Queue(t, lane) + (if |Queue(t, lane)| < 64 then [candidate.value] else [])
        && forall other | other != lane :: Queue(u, other) == Queue(t, other)
  {}

  /** A removed lane leaves the table with its queue; a shutdown closes the channel and leaves no lane. */
  lemma LanesEnd(t: Table, lane: int, refused: set<Candidate>)
    ensures var u := Handle(t, Removed(lane), refused);
      && lane !in u.lanes && (lane in t.lanes ==> Queue(u, lane) == [])
      && forall other | other != lane ::
           Queue(u, other) == Queue(t, other) && (other in u.lanes <==> other in t.lanes)
           && (other in t.lanes ==> u.lanes[other] == t.lanes[other])
    ensures var u := Handle(t, Shutdown, refused);
      u.closed && (t.closed || u.lanes == map[]) && (t.closed ==> u == t)
  {}

  /** So it happens: two capability messages in a row, the second while no connection can be made. */
  lemma RepeatedCapabilityRemovesLane()
    ensures exists first: Event, second: Event ::
      && first.Capability? && second.Capability? && first.connections == second.connections
      && var t := Handle(Fresh(2, true), first, {});
      1 in t.lanes && t.lanes[1].attached && 1 !in Handle(t, second, {}).lanes
  {
    var first := Capability(2, _ => Setup(true, true, true));
    var second := Capability(2, _ => Setup(false, false, false));
    var u := Negotiate(Fresh(2, true), 2);
    var (v, failed) := CreateOffer(u, 1, Setup(true, true, true));
    assert CreateOffers(u, 1, 2, first.setups) == CreateOffers(v, 2, 2, first.setups) == v;
    CapabilityKeepsLane(v, second, 1, {});
    assert Handle(Fresh(2, true), first, {}) == v && 1 in v.lanes && v.lanes[1].attached;
  }
}
