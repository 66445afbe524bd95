/** Who owns a secondary connection, over all interleavings of negotiation, callbacks and shutdown. */
module LaneOwnership {
  import opened Wrappers
  import opened Lanes
  import opened Negotiation

  // flight: connections created and not yet offered to installLane, with the index they are meant for.
  // closing: connections their remover, or the creator installLane refused, is about to close. gone: closed ones.
  // hooks: lanes that had a channel attached, whose open callback can fire at any later time.
  datatype World = World(table: Table, flight: map<nat, int>, closing: set<nat>, gone: set<nat>, hooks: set<(int, nat)>)

  datatype Step =
    | Capability(connections: int)
    | Create(index: int)
    | InstallLane(pc: nat)
    | AttachLaneChannel(index: int, pc: nat)
    | OnOpen(index: int, pc: nat)
    | RemoveLane(index: int)
    | RemoveLaneIfCurrent(index: int, pc: nat)
    | Candidates(index: int, described: bool, applied: seq<Candidate>, pending: map<int, seq<Candidate>>)
    | Shutdown
    | Close(pc: nat)

  function Initial(connections: int, initiator: bool): World
  {
    World(Fresh(connections, initiator), map[], {}, {}, {})
  }

  predicate Enabled(w: World, step: Step)
  {
    match step
    case Create(index) => ValidLane(w.table, index)
    case InstallLane(pc) => pc in w.flight
    case OnOpen(index, pc) => (index, pc) in w.hooks
    case Close(pc) => pc in w.closing
    case _ => true
  }

  // The connections created so far.
  function Numbers(n: nat): (r: set<nat>)
    ensures forall k: nat :: k in r <==> k < n
  {
    if n == 0 then {} else Numbers(n - 1) + {n - 1}
  }

  // The connections the table holds.
  function Held(t: Table): set<nat> { set i | i in t.lanes :: t.lanes[i].pc }

  function At(t: Table, index: int): set<nat> { if index in t.lanes then {t.lanes[index].pc} else {} }

  // The remote description, the applied and the queued candidates change; no lane moves.
  function Learned(t: Table, index: int, described: bool, applied: seq<Candidate>,
                   pending: map<int, seq<Candidate>>): Table
  {
    t.(pending := pending, lanes :=
      if index in t.lanes then t.lanes[index := t.lanes[index].(described := described, applied := applied)]
      else t.lanes)
  }

  function After(w: World, step: Step): World
    requires Enabled(w, step)
  {
    var t := w.table;
    match step
    case Capability(n) => w.(table := Negotiate(t, n))
    case Create(index) => w.(table := Created(t), flight := w.flight[t.next := index])
    case InstallLane(pc) =>
      var index := w.flight[pc];
      World(Install(t, index, pc), w.flight - {pc},
            if Admits(t, index) then w.closing else w.closing + {pc}, w.gone, w.hooks)
    case AttachLaneChannel(index, pc) =>
      w.(table := Attach(t, index, pc), hooks := if Current(t, index, pc) then w.hooks + {(index, pc)} else w.hooks)
    case OnOpen(index, pc) => w.(table := Open(t, index, pc))
    case RemoveLane(index) => w.(table := Remove(t, index), closing := w.closing + At(t, index))
    case RemoveLaneIfCurrent(index, pc) =>
      w.(table := RemoveIfCurrent(t, index, pc),
         closing := if Current(t, index, pc) then w.closing + {pc} else w.closing)
    case Candidates(index, described, applied, pending) => w.(table := Learned(t, index, described, applied, pending))
    case Shutdown => w.(table := Shut(t), closing := if t.closed then w.closing else w.closing + Held(t))
    case Close(pc) => w.(closing := w.closing - {pc}, gone := w.gone + {pc})
  }

  predicate Reaches(w: World, steps: seq<Step>, r: World)
    decreases |steps|
  {
    if steps == [] then r == w else Enabled(w, steps[0]) && Reaches(After(w, steps[0]), steps[1..], r)
  }

  // Each connection is in one place: in flight, in the table at one index, being closed, or closed.
  predicate Owned(w: World)
  {
    && w.flight.Keys + Held(w.table) + w.closing + w.gone == Numbers(w.table.next)
    && w.flight.Keys !! Held(w.table) !! w.closing !! w.gone
    && (forall i, j | i in w.table.lanes && j in w.table.lanes && w.table.lanes[i].pc == w.table.lanes[j].pc :: i == j)
  }

  predicate InRange(w: World)
  {
    && w.table.negotiated <= w.table.connections <= MAX_PARALLEL_CONNECTIONS
    && (forall i | i in w.table.lanes :: 1 <= i < w.table.connections)
    && (forall pc | pc in w.flight :: 1 <= w.flight[pc] < w.table.connections)
  }

  predicate Attached(w: World)
  {
    && (forall i | i in w.table.lanes && w.table.lanes[i].open :: w.table.lanes[i].attached)
    && (forall i | i in w.table.lanes && (i, w.table.lanes[i].pc) in w.hooks :: w.table.lanes[i].attached)
    && (forall h | h in w.hooks :: h.1 in Held(w.table) || h.1 in w.closing || h.1 in w.gone)
    && (forall h, i | h in w.hooks && i in w.table.lanes && w.table.lanes[i].pc == h.1 :: i == h.0)
  }

  predicate Inv(w: World)
  {
    Owned(w) && InRange(w) && Attached(w) && (w.table.closed ==> w.table.lanes == map[])
  }

  lemma OwnedStep(w: World, step: Step)
    requires Inv(w) && Enabled(w, step)
    ensures Owned(After(w, step))
  {
    match step
    case InstallLane(pc) => OwnedInstall(w, pc);
    case RemoveLane(_) => OwnedRemove(w, step);
    case RemoveLaneIfCurrent(_, _) => OwnedRemove(w, step);
    case Shutdown => OwnedRemove(w, step);
    case _ => HeldSame(w.table, After(w, step).table);
  }

  lemma OwnedInstall(w: World, pc: nat)
    requires Inv(w) && pc in w.flight
    ensures Owned(After(w, InstallLane(pc)))
  {
    if Admits(w.table, w.flight[pc]) {
      HeldInstall(w.table, w.flight[pc], pc);
    }
  }

  lemma OwnedRemove(w: World, step: Step)
    requires Inv(w) && (step.RemoveLane? || step.RemoveLaneIfCurrent? || step.Shutdown?)
    ensures Owned(After(w, step))
  {
    match step
    case RemoveLane(index) => HeldRemove(w.table, index);
    case RemoveLaneIfCurrent(index, pc) => if Current(w.table, index, pc) { HeldRemove(w.table, index); }
    case Shutdown => assert Held(Shut(w.table)) == {} || w.table.closed;
  }

  lemma HeldSame(t: Table, u: Table)
    requires t.lanes.Keys == u.lanes.Keys && forall i | i in t.lanes :: t.lanes[i].pc == u.lanes[i].pc
    ensures Held(t) == Held(u)
  {}

  lemma HeldInstall(t: Table, index: int, pc: nat)
    requires Admits(t, index)
    ensures Held(Install(t, index, pc)) == Held(t) + {pc}
  {
    var u := Install(t, index, pc);
    assert u.lanes[index].pc == pc;
    assert forall i | i in t.lanes :: u.lanes[i] == t.lanes[i];
  }

  lemma HeldRemove(t: Table, index: int)
    requires forall i, j | i in t.lanes && j in t.lanes && t.lanes[i].pc == t.lanes[j].pc :: i == j
    ensures Held(Remove(t, index)) == Held(t) - At(t, index)
  {
    var u := Remove(t, index);
    assert forall i | i in u.lanes :: u.lanes[i] == t.lanes[i];
  }

  lemma StepKeeps(w: World, step: Step)
    requires Inv(w) && Enabled(w, step)
    ensures Inv(After(w, step))
  {
    OwnedStep(w, step);
    AttachedStep(w, step);
    hide Owned, Attached;
  }

  lemma AttachedStep(w: World, step: Step)
    requires Inv(w) && Enabled(w, step)
    ensures Attached(After(w, step))
  {
    match step
    case InstallLane(pc) => AttachedInstall(w, pc);
    case RemoveLane(index) => HeldRemove(w.table, index);
    case RemoveLaneIfCurrent(index, pc) => if Current(w.table, index, pc) { HeldRemove(w.table, index); }
    case Shutdown =>
    case _ => HeldSame(w.table, After(w, step).table);
  }

  // A connection still in flight has no open callback yet.
  lemma AttachedInstall(w: World, pc: nat)
    requires Inv(w) && pc in w.flight
    ensures Attached(After(w, InstallLane(pc)))
  {
    if Admits(w.table, w.flight[pc]) {
      HeldInstall(w.table, w.flight[pc], pc);
    }
  }

  lemma {:induction false} RunKeeps(w: World, steps: seq<Step>, r: World)
    requires Inv(w) && Reaches(w, steps, r)
    ensures Inv(r)
    decreases |steps|
  {
    if steps != [] {
      StepKeeps(w, steps[0]);
      RunKeeps(After(w, steps[0]), steps[1..], r);
    }
  }

  /** In every run, each connection ever created has exactly one owner, lane indices stay within the local limit of at
      most eight, an open lane has its channel, and a closed channel has no lanes. */
  lemma OneOwner(connections: int, initiator: bool, steps: seq<Step>, r: World)
    requires Reaches(Initial(connections, initiator), steps, r)
    ensures r.table.connections == ClampParallelConnections(connections)
    ensures forall pc: nat | pc < r.table.next ::
      var n := (if pc in r.flight then 1 else 0) + (if pc in Held(r.table) then 1 else 0)
             + (if pc in r.closing then 1 else 0) + (if pc in r.gone then 1 else 0);
      n == 1
    ensures forall i, j | i in r.table.lanes && j in r.table.lanes
      && r.table.lanes[i].pc == r.table.lanes[j].pc :: i == j
    ensures forall i | i in r.table.lanes :: 1 <= i < r.table.connections <= MAX_PARALLEL_CONNECTIONS
    ensures forall i | i in r.table.lanes && r.table.lanes[i].open :: r.table.lanes[i].attached
    ensures r.table.closed ==> r.table.lanes == map[]
  {
    var w := Initial(connections, initiator);
    assert Held(w.table) == {};
    RunKeeps(w, steps, r);
    SameOptions(w, steps, r);
    forall pc: nat | pc < r.table.next
      ensures pc in r.flight.Keys + Held(r.table) + r.closing + r.gone
    {
      assert pc in Numbers(r.table.next);
    }
  }

  lemma {:induction false} SameOptions(w: World, steps: seq<Step>, r: World)
    requires Reaches(w, steps, r)
    ensures r.table.connections == w.table.connections && r.table.initiator == w.table.initiator
    decreases |steps|
  {
    if steps != [] {
      SameOptions(After(w, steps[0]), steps[1..], r);
    }
  }

  // Given up: no longer in flight or in the table, and never there again.
  function Released(w: World): set<nat> { w.closing + w.gone }

  lemma {:induction false} ReleasedGrows(w: World, steps: seq<Step>, r: World)
    requires Reaches(w, steps, r)
    ensures Released(w) <= Released(r) && w.gone <= r.gone && (w.table.closed ==> r.table.closed)
    decreases |steps|
  {
    if steps != [] {
      ReleasedGrows(After(w, steps[0]), steps[1..], r);
    }
  }

  /** A connection that was given up never returns to the table, and a closed channel never gets a lane again. */
  lemma NeverReturns(w: World, steps: seq<Step>, r: World)
    requires Inv(w) && Reaches(w, steps, r)
    ensures forall pc | pc in Released(w) :: pc in Released(r) && pc !in Held(r.table) && pc !in r.flight
    ensures w.table.closed ==> r.table.closed && r.table.lanes == map[]
  {
    RunKeeps(w, steps, r);
    ReleasedGrows(w, steps, r);
  }

  /** Nothing leaks: once the channel is closed, and no creator or remover is still at work, every connection ever
      created has been closed. */
  lemma NothingLeaks(connections: int, initiator: bool, steps: seq<Step>, r: World)
    requires Reaches(Initial(connections, initiator), steps, r)
    requires r.table.closed && r.flight == map[] && r.closing == {}
    ensures forall pc: nat :: pc in r.gone <==> pc < r.table.next
  {
    var w := Initial(connections, initiator);
    assert Held(w.table) == {};
    RunKeeps(w, steps, r);
    assert Held(r.table) == {};
    forall pc: nat ensures pc in r.gone <==> pc < r.table.next {
      assert pc in Numbers(r.table.next) <==> pc < r.table.next;
    }
  }

  // ---------- shutdown and opening, over whole runs ----------

  lemma {:induction false} Halves(w: World, steps: seq<Step>, r: World, k: nat) returns (m: World)
    requires k <= |steps| && Reaches(w, steps, r)
    ensures Reaches(w, steps[..k], m) && Reaches(m, steps[k..], r)
    decreases k
  {
    if k == 0 {
      m := w;
      assert steps[0..] == steps;
    } else {
      m := Halves(After(w, steps[0]), steps[1..], r, k - 1);
      assert steps[..k][1..] == steps[1..][..k - 1] && steps[1..][k - 1..] == steps[k..];
    }
  }

  lemma {:induction false} ClosedBy(w: World, steps: seq<Step>, r: World)
    requires Reaches(w, steps, r)
    ensures r.table.closed <==> w.table.closed || exists k :: 0 <= k < |steps| && steps[k].Shutdown?
    decreases |steps|
  {
    if steps != [] {
      var rest := steps[1..];
      ClosedBy(After(w, steps[0]), rest, r);
      if k :| 0 <= k < |steps| && steps[k].Shutdown? {
        if k > 0 { assert rest[k - 1].Shutdown?; }
      }
      if k :| 0 <= k < |rest| && rest[k].Shutdown? { assert steps[k + 1].Shutdown?; }
    }
  }

  /** A channel is closed exactly when it was shut down. Then its table is empty, and every connection a creator offers
      after that is refused: it goes to be closed and is never in the table. */
  lemma ShutdownIsFinal(connections: int, initiator: bool, steps: seq<Step>, r: World)
    requires Reaches(Initial(connections, initiator), steps, r)
    ensures r.table.closed <==> exists k :: 0 <= k < |steps| && steps[k].Shutdown?
    ensures (exists k :: 0 <= k < |steps| && steps[k].Shutdown?) ==> r.table.lanes == map[]
    ensures forall j, k | 0 <= j < k < |steps| && steps[j].Shutdown? && steps[k].InstallLane? ::
      steps[k].pc in r.closing + r.gone && steps[k].pc !in Held(r.table)
  {
    var w := Initial(connections, initiator);
    assert Held(w.table) == {};
    ClosedBy(w, steps, r);
    RunKeeps(w, steps, r);
    forall j, k | 0 <= j < k < |steps| && steps[j].Shutdown? && steps[k].InstallLane?
      ensures steps[k].pc in r.closing + r.gone && steps[k].pc !in Held(r.table)
    {
      LateInstall(w, steps, r, j, k);
    }
  }

  lemma LateInstall(w: World, steps: seq<Step>, r: World, j: nat, k: nat)
    requires Inv(w) && Reaches(w, steps, r)
    requires j < k < |steps| && steps[j].Shutdown? && steps[k].InstallLane?
    ensures steps[k].pc in r.closing + r.gone && steps[k].pc !in Held(r.table)
  {
    var pc := steps[k].pc;
    var m := Halves(w, steps, r, k);
    ClosedBy(w, steps[..k], m);
    assert steps[..k][j].Shutdown? && steps[k..][0] == steps[k];
    RunKeeps(w, steps[..k], m);
    var n := After(m, steps[k]);
    StepKeeps(m, steps[k]);
    hide Inv, Enabled, Owned;
    assert pc in n.closing;
    NeverReturns(n, steps[k..][1..], r);
  }

  lemma {:induction false} OpenedBy(w: World, steps: seq<Step>, r: World, i: int)
    requires Inv(w) && Reaches(w, steps, r) && i in r.table.lanes
    ensures var pc := r.table.lanes[i].pc;
      r.table.lanes[i].open <==>
        (Current(w.table, i, pc) && w.table.lanes[i].open) || exists k :: 0 <= k < |steps| && steps[k] == OnOpen(i, pc)
    decreases |steps|
  {
    if steps != [] {
      var pc, rest, m := r.table.lanes[i].pc, steps[1..], After(w, steps[0]);
      StepKeeps(w, steps[0]);
      OpenedBy(m, rest, r, i);
      if steps[0] == OnOpen(i, pc) {
        HookIsCurrent(w, steps, r, i);
      }
      if k :| 0 <= k < |steps| && steps[k] == OnOpen(i, pc) {
        if k > 0 { assert rest[k - 1] == OnOpen(i, pc); }
      }
      if k :| 0 <= k < |rest| && rest[k] == OnOpen(i, pc) { assert steps[k + 1] == OnOpen(i, pc); }
      OpenStep(w, steps[0], i, pc);
      if Current(w.table, i, pc) {
        assert pc in Held(r.table);
        NeverReturns(m, rest, r);
        StaysCurrent(w, steps[0], i, pc);
      }
    }
  }

  // A connection that is not given up stays where it is.
  lemma StaysCurrent(w: World, step: Step, i: int, pc: nat)
    requires Inv(w) && Enabled(w, step) && Current(w.table, i, pc) && pc !in Released(After(w, step))
    ensures Current(After(w, step).table, i, pc)
  {
    assert pc in Held(w.table);
  }

  // An open callback that fires for a connection still in the table at the end finds it there.
  lemma HookIsCurrent(w: World, steps: seq<Step>, r: World, i: int)
    requires Inv(w) && Reaches(w, steps, r) && i in r.table.lanes
    requires (i, r.table.lanes[i].pc) in w.hooks
    ensures Current(w.table, i, r.table.lanes[i].pc)
  {
    var pc := r.table.lanes[i].pc;
    assert pc in Held(r.table);
    NeverReturns(w, steps, r);
    assert pc in Held(w.table);
  }

  // One step opens a lane only as its open callback.
  lemma OpenStep(w: World, step: Step, i: int, pc: nat)
    requires Inv(w) && Enabled(w, step)
    ensures var m := After(w, step);
      Current(m.table, i, pc) ==>
        (m.table.lanes[i].open <==>
           (Current(w.table, i, pc) && w.table.lanes[i].open) || (step == OnOpen(i, pc) && Current(w.table, i, pc)))
  {}

  /** In every run a lane of the table is open exactly when its open callback has run, and has its channel then. */
  lemma OpensExactly(connections: int, initiator: bool, steps: seq<Step>, r: World, i: int)
    requires Reaches(Initial(connections, initiator), steps, r) && i in r.table.lanes
    ensures r.table.lanes[i].open <==> exists k :: 0 <= k < |steps| && steps[k] == OnOpen(i, r.table.lanes[i].pc)
    ensures r.table.lanes[i].open ==> r.table.lanes[i].attached
  {
    var w := Initial(connections, initiator);
    assert Held(w.table) == {};
    OpenedBy(w, steps, r, i);
    RunKeeps(w, steps, r);
  }

  /** A created connection can come into use: installed at a free index of an open channel, attached and opened, it is a
      lane that is open and has its channel. */
  lemma LaneComesUp(w: World, pc: nat) returns (r: World)
    requires pc in w.flight && Admits(w.table, w.flight[pc])
    ensures var i := w.flight[pc];
      && Reaches(w, [InstallLane(pc), AttachLaneChannel(i, pc), OnOpen(i, pc)], r)
      && i in r.table.lanes && r.table.lanes[i] == Lane(pc, true, true, false, []) && pc !in r.flight
  {
    var i := w.flight[pc];
    One(w, InstallLane(pc));
    r := Snoc(w, [InstallLane(pc)], After(w, InstallLane(pc)), AttachLaneChannel(i, pc));
    r := Snoc(w, [InstallLane(pc)] + [AttachLaneChannel(i, pc)], r, OnOpen(i, pc));
    assert [InstallLane(pc)] + [AttachLaneChannel(i, pc)] + [OnOpen(i, pc)] ==
      [InstallLane(pc), AttachLaneChannel(i, pc), OnOpen(i, pc)];
  }

  /** The bound on lane indices is the local limit and not the negotiated count: a later capability message can lower
      the count below a lane that stays. */
  lemma ShrinkLeavesLane()
    ensures exists steps, r, i :: Reaches(Initial(8, true), steps, r) && i in r.table.lanes && !ValidLane(r.table, i)
  {
    var steps := [Step.Capability(3), Create(2), InstallLane(0), Step.Capability(2)];
    var w0 := Initial(8, true);
    var w1 := After(w0, steps[0]);
    var w2 := After(w1, steps[1]);
    var w3 := After(w2, steps[2]);
    var w4 := After(w3, steps[3]);
    assert steps[3..][1..] == [] && Reaches(w4, steps[3..][1..], w4);
    assert steps[2..][1..] == steps[3..] && Reaches(w3, steps[3..], w4);
    assert steps[1..][1..] == steps[2..] && Reaches(w2, steps[2..], w4);
    assert Reaches(w1, steps[1..], w4);
    assert Reaches(w0, steps, w4) && 2 in w4.table.lanes && !ValidLane(w4.table, 2);
  }

  // ---------- the handlers of the negotiation loop are runs of these steps ----------

  lemma {:induction false} Then(w: World, a: seq<Step>, m: World, b: seq<Step>, r: World)
    requires Reaches(w, a, m) && Reaches(m, b, r)
    ensures Reaches(w, a + b, r)
    decreases |a|
  {
    if a == [] {
      assert a + b == b;
    } else {
      Then(After(w, a[0]), a[1..], m, b, r);
      assert (a + b)[1..] == a[1..] + b;
    }
  }

  lemma One(w: World, step: Step)
    requires Enabled(w, step)
    ensures Reaches(w, [step], After(w, step))
  {}

  lemma Snoc(w: World, a: seq<Step>, m: World, step: Step) returns (r: World)
    requires Reaches(w, a, m) && Enabled(m, step)
    ensures r == After(m, step) && Reaches(w, a + [step], r)
  {
    r := After(m, step);
    One(m, step);
    Then(w, a, m, [step], r);
  }

  // newPeerConnection and installLane.
  lemma MakeSteps(w: World, index: int) returns (steps: seq<Step>, r: World)
    requires ValidLane(w.table, index)
    ensures Reaches(w, steps, r) && r.table == Install(Created(w.table), index, w.table.next)
  {
    var pc := w.table.next;
    steps := [Create(index)];
    One(w, Create(index));
    r := Snoc(w, steps, After(w, Create(index)), InstallLane(pc));
    steps := steps + [InstallLane(pc)];
  }

  lemma OfferSteps(w: World, index: int, setup: Setup) returns (steps: seq<Step>, r: World)
    ensures var (u, failed) := CreateOffer(w.table, index, setup);
      Reaches(w, steps, r) && r.table == if failed then Remove(u, index) else u
  {
    steps, r := [], w;
    var t := w.table;
    if ValidLane(t, index) && setup.made {
      steps, r := MakeSteps(w, index);
      if Admits(t, index) && setup.prepared {
        var attach := AttachLaneChannel(index, t.next);
        r := Snoc(w, steps, r, attach);
        steps := steps + [attach];
      }
    }
    if CreateOffer(t, index, setup).1 {
      r := Snoc(w, steps, r, RemoveLane(index));
      steps := steps + [RemoveLane(index)];
    }
  }

  lemma {:induction false} OffersSteps(w: World, lane: int, connections: int, setups: int -> Setup)
    returns (steps: seq<Step>, r: World)
    ensures Reaches(w, steps, r) && r.table == CreateOffers(w.table, lane, connections, setups)
    decreases connections - lane
  {
    steps, r := [], w;
    if lane < connections {
      var a, m := OfferSteps(w, lane, setups(lane));
      var b;
      b, r := OffersSteps(m, lane + 1, connections, setups);
      Then(w, a, m, b, r);
      steps := a + b;
    }
  }

  // Setting the remote description and flushing; taking one candidate.
  lemma LearnSteps(w: World, a: seq<Step>, m: World, index: int, u: Table) returns (steps: seq<Step>, r: World)
    requires Reaches(w, a, m)
    requires exists d, s, p :: u == Learned(m.table, index, d, s, p)
    ensures Reaches(w, steps, r) && r.table == u
  {
    var d, s, p :| u == Learned(m.table, index, d, s, p);
    r := Snoc(w, a, m, Candidates(index, d, s, p));
    steps := a + [Candidates(index, d, s, p)];
  }

  lemma FlushLearns(t: Table, index: int, refused: set<Candidate>)
    requires index in t.lanes
    ensures var u := Flush(Described(t, index), index, refused);
      u == Learned(t, index, true, u.lanes[index].applied, u.pending)
  {}

  /** Whatever the negotiation loop does with a control message is a run of the steps above, so what holds in every run
      of them holds of its table. */
  lemma HandlersAreRuns(w: World, e: Event, refused: set<Candidate>) returns (steps: seq<Step>, r: World)
    ensures Reaches(w, steps, r) && r.table == Handle(w.table, e, refused)
  {
    var t := w.table;
    steps, r := [], w;
    match e
    case Capability(n, setups) =>
      One(w, Step.Capability(n));
      steps, r := [Step.Capability(n)], After(w, Step.Capability(n));
      if Counts(n) && t.initiator {
        var b, m := OffersSteps(r, 1, r.table.negotiated, setups);
        Then(w, steps, r, b, m);
        steps, r := steps + b, m;
      }
    case Offer(lane, acceptable, setup) =>
      if !t.initiator && acceptable && ValidLane(t, lane) && setup.made {
        steps, r := MakeSteps(w, lane);
        if Admits(t, lane) && setup.prepared {
          FlushLearns(r.table, lane, refused);
          steps, r := LearnSteps(w, steps, r, lane, Handle(t, e, refused));
        }
      }
    case Answer(lane, acceptable, applies) =>
      if t.initiator && acceptable && ValidLane(t, lane) && lane in t.lanes && applies {
        FlushLearns(t, lane, refused);
        steps, r := LearnSteps(w, steps, r, lane, Handle(t, e, refused));
      }
    case Ice(lane, candidate) =>
      CandidateLearns(t, lane, candidate, refused);
      steps, r := LearnSteps(w, steps, r, lane, Handle(t, e, refused));
    case Removed(lane) =>
      if lane in t.lanes {
        One(w, RemoveLane(lane));
        steps, r := [RemoveLane(lane)], After(w, RemoveLane(lane));
      }
    case Shutdown =>
      One(w, Step.Shutdown);
      steps, r := [Step.Shutdown], After(w, Step.Shutdown);
  }

  lemma CandidateLearns(t: Table, lane: int, candidate: Option<Candidate>, refused: set<Candidate>)
    ensures exists d, s, p :: AcceptCandidate(t, lane, candidate, refused) == Learned(t, lane, d, s, p)
  {
    var u := AcceptCandidate(t, lane, candidate, refused);
    if lane in t.lanes {
      assert u == Learned(t, lane, u.lanes[lane].described, u.lanes[lane].applied, u.pending);
    } else {
      assert u == Learned(t, lane, false, [], u.pending);
    }
  }
}
