/** Which channel takes a binary packet (Send and BufferedAmount of webrtc/parallel_channel.go). */
module Striping {
  import opened Wrappers
  import opened Packets

  // ---------- the order of attempts ----------

  // A candidate by its position after rotation and its buffered amount.
  datatype Entry = Entry(pos: nat, buffered: nat)

  // The first of the least-buffered entries.
  function LeastIndex(s: seq<Entry>): (i: nat)
    requires s != []
    ensures i < |s|
    ensures forall j | 0 <= j < |s| :: s[i].buffered <= s[j].buffered
    ensures forall j | 0 <= j < i :: s[i].buffered < s[j].buffered
  {
    if |s| == 1 then 0 else
    var i := LeastIndex(s[..|s| - 1]);
    if s[|s| - 1].buffered < s[i].buffered then |s| - 1 else i
  }

  function Without<T>(s: seq<T>, i: nat): seq<T>
    requires i < |s|
  {
    s[..i] + s[i + 1..]
  }

  // Repeatedly picking and removing the least-buffered candidate.
  function Attempts(s: seq<Entry>): (r: seq<Entry>)
    ensures |r| == |s|
    decreases |s|
  {
    if s == [] then [] else
    var i := LeastIndex(s);
    [s[i]] + Attempts(Without(s, i))
  }

  predicate Before(a: Entry, b: Entry) { a.buffered < b.buffered || (a.buffered == b.buffered && a.pos < b.pos) }

  predicate Sorted(s: seq<Entry>) { forall i, j | 0 <= i < j < |s| :: Before(s[i], s[j]) }

  predicate InOrder(s: seq<Entry>) { forall i, j | 0 <= i < j < |s| :: s[i].pos < s[j].pos }

  lemma SplitAt(s: seq<Entry>, i: nat)
    requires i < |s|
    ensures multiset(s) == multiset{s[i]} + multiset(Without(s, i))
    ensures InOrder(s) ==> InOrder(Without(s, i))
  {
    assert s == s[..i] + [s[i]] + s[i + 1..];
  }

  lemma Members(s: seq<Entry>, t: seq<Entry>, e: Entry)
    requires multiset(s) == multiset(t) && e in s
    ensures e in t
  {
    assert e in multiset(t);
  }

  lemma LeastFirst(s: seq<Entry>, i: nat, tail: seq<Entry>)
    requires s != [] && InOrder(s) && i == LeastIndex(s) && multiset(tail) == multiset(Without(s, i))
    ensures forall e | e in tail :: Before(s[i], e)
  {
    var rest := Without(s, i);
    forall e | e in tail ensures Before(s[i], e) {
      Members(tail, rest, e);
      var q :| 0 <= q < |rest| && rest[q] == e;
      assert rest[q] == if q < i then s[q] else s[q + 1];
    }
  }

  /** The attempts are a stable sort of the candidates by buffered amount: the same candidates, each once,
      least buffered first, ties in rotated order. */
  lemma {:induction false} AttemptsAreStableSort(s: seq<Entry>)
    requires InOrder(s)
    ensures multiset(Attempts(s)) == multiset(s) && Sorted(Attempts(s))
    decreases |s|
  {
    if s != [] {
      var i := LeastIndex(s);
      var rest := Without(s, i);
      SplitAt(s, i);
      AttemptsAreStableSort(rest);
      var tail := Attempts(rest);
      LeastFirst(s, i, tail);
      assert Attempts(s) == [s[i]] + tail;
      SortedFirst(s[i], tail);
      hide LeastIndex, Without, InOrder, Attempts, Sorted, Before;
    }
  }

  lemma SortedFirst(first: Entry, tail: seq<Entry>)
    requires Sorted(tail) && forall e | e in tail :: Before(first, e)
    ensures Sorted([first] + tail) && multiset([first] + tail) == multiset{first} + multiset(tail)
  {}

  lemma TailMultiset(s: seq<Entry>)
    requires s != []
    ensures multiset(s[1..]) == multiset(s) - multiset{s[0]}
  {
    assert s == [s[0]] + s[1..];
  }

  lemma SameHead(a: seq<Entry>, b: seq<Entry>)
    requires Sorted(a) && Sorted(b) && multiset(a) == multiset(b) && a != []
    ensures b != [] && a[0] == b[0]
  {
    Members(a, b, a[0]);
    Members(b, a, b[0]);
    var i :| 0 <= i < |b| && b[i] == a[0];
    var j :| 0 <= j < |a| && a[j] == b[0];
  }

  /** There is only one such order. */
  lemma {:induction false} StableSortUnique(a: seq<Entry>, b: seq<Entry>)
    requires Sorted(a) && Sorted(b) && multiset(a) == multiset(b)
    ensures a == b
    decreases |a|
  {
    if a == [] {
      assert |multiset(b)| == |b| && |multiset(a)| == 0;
    } else {
      SameHead(a, b);
      TailMultiset(a);
      TailMultiset(b);
      StableSortUnique(a[1..], b[1..]);
      assert a == [a[0]] + a[1..] && b == [b[0]] + b[1..];
    }
  }

  // ---------- one packet, on values ----------

  // A channel as Send sees it: its state, its send queue, and whether it takes the next packet.
  datatype Channel = Channel(open: bool, accepts: bool, buffered: nat, sent: seq<seq<byte>>) {
    predicate Takes() { open && accepts }

    function Queued(payload: seq<byte>): Channel
    {
      this.(buffered := buffered + |payload|, sent := sent + [payload])
    }
  }

  function Entries(s: seq<Channel>): (r: seq<Entry>)
    ensures |r| == |s| && InOrder(r)
    ensures forall i | 0 <= i < |s| :: r[i] == Entry(i, s[i].buffered)
  {
    seq(|s|, i requires 0 <= i < |s| => Entry(i, s[i].buffered))
  }

  // BufferedAmount: the least amount buffered on a candidate, or the primary's when there is none.
  function LeastBuffered(primary: nat, s: seq<Channel>): (r: nat)
    ensures s == [] ==> r == primary
    ensures s != [] ==> exists i :: 0 <= i < |s| && s[i].buffered == r
    ensures forall i | 0 <= i < |s| :: r <= s[i].buffered
  {
    if s == [] then primary else
    var e := Entries(s);
    var r := e[LeastIndex(e)].buffered;
    assert forall i | 0 <= i < |s| :: e[i].buffered == s[i].buffered;
    r
  }

  // The candidates left, tried one after the other: the position that took the packet, if any.
  function Taker(s: seq<Channel>, left: seq<Entry>): (t: Option<nat>)
    requires forall e | e in left :: e.pos < |s|
    ensures t.Some? ==> t.value < |s|
    decreases |left|
  {
    if left == [] then None else
    var i := LeastIndex(left);
    if s[left[i].pos].Takes() then Some(left[i].pos) else
    WithoutSubset(left, i);
    Taker(s, Without(left, i))
  }

  lemma WithoutSubset<T>(s: seq<T>, i: nat)
    requires i < |s|
    ensures forall e | e in Without(s, i) :: e in s
  {}

  function Sent(s: seq<Channel>, payload: seq<byte>, taker: Option<nat>): seq<Channel>
    requires taker.Some? ==> taker.value < |s|
  {
    if taker.Some? then s[taker.value := s[taker.value].Queued(payload)] else s
  }

  // One packet's effect on the candidates.
  predicate Delivered(before: seq<Channel>, payload: seq<byte>, ok: bool, after: seq<Channel>)
  {
    var taker := Taker(before, Entries(before));
    ok == taker.Some? && after == Sent(before, payload, taker)
  }

  lemma NoneDelivered(payload: seq<byte>)
    ensures Delivered([], payload, false, [])
  {}

  function Positions(a: seq<Entry>): (r: seq<nat>)
    ensures |r| == |a| && forall j | 0 <= j < |a| :: r[j] == a[j].pos
  {
    seq(|a|, j requires 0 <= j < |a| => a[j].pos)
  }

  // The first position of the order whose channel takes the packet.
  function FirstTaking(s: seq<Channel>, order: seq<nat>): (t: Option<nat>)
    requires forall k | 0 <= k < |order| :: order[k] < |s|
  {
    if order == [] then None else
    if s[order[0]].Takes() then Some(order[0]) else FirstTaking(s, order[1..])
  }

  lemma {:induction false} FirstTakingMeans(s: seq<Channel>, order: seq<nat>)
    requires forall k | 0 <= k < |order| :: order[k] < |s|
    ensures var t := FirstTaking(s, order);
      && (t.None? <==> forall k | 0 <= k < |order| :: !s[order[k]].Takes())
      && (t.Some? ==> exists j :: FirstAt(s, order, j) && order[j] == t.value)
  {
    if order != [] {
      if s[order[0]].Takes() {
        assert FirstAt(s, order, 0);
      } else {
        var rest := order[1..];
        FirstTakingMeans(s, rest);
        assert forall k | 1 <= k < |order| :: order[k] == rest[k - 1];
        if FirstTaking(s, rest).Some? {
          var j :| FirstAt(s, rest, j) && rest[j] == FirstTaking(s, rest).value;
          assert FirstAt(s, order, j + 1);
        }
      }
    }
  }

  predicate FirstAt(s: seq<Channel>, order: seq<nat>, j: int)
  {
    && 0 <= j < |order| && (forall k | 0 <= k <= j :: order[k] < |s|)
    && s[order[j]].Takes() && forall k | 0 <= k < j :: !s[order[k]].Takes()
  }

  lemma {:induction false} TakerFollowsAttempts(s: seq<Channel>, left: seq<Entry>)
    requires InOrder(left) && forall e | e in left :: e.pos < |s|
    ensures forall e | e in Attempts(left) :: e.pos < |s|
    ensures Taker(s, left) == FirstTaking(s, Positions(Attempts(left)))
    decreases |left|
  {
    if left != [] {
      var i := LeastIndex(left);
      var rest := Without(left, i);
      SplitAt(left, i);
      WithoutSubset(left, i);
      TakerFollowsAttempts(s, rest);
      var tail := Attempts(rest);
      assert Attempts(left) == [left[i]] + tail;
      hide LeastIndex, Without, InOrder, Attempts;
      assert Positions([left[i]] + tail)[1..] == Positions(tail);
    }
  }

  // The positions in the order in which Send tries them.
  function TryOrder(s: seq<Channel>): (r: seq<nat>)
  {
    Positions(Attempts(Entries(s)))
  }

  // Least buffered first, ties in rotated order.
  predicate Precedes(s: seq<Channel>, p: nat, q: nat)
    requires p < |s| && q < |s|
  {
    s[p].buffered < s[q].buffered || (s[p].buffered == s[q].buffered && p < q)
  }

  /** Send tries every candidate at most once, in the stable order by buffered amount. */
  lemma TryOrderIsStable(s: seq<Channel>)
    ensures var r := TryOrder(s);
      && |r| == |s|
      && (forall j | 0 <= j < |r| :: r[j] < |s|)
      && (forall i, j | 0 <= i < j < |r| :: Precedes(s, r[i], r[j]))
      && (forall p | 0 <= p < |s| :: p in r)
  {
    AttemptsFacts(s);
    var a, r := Attempts(Entries(s)), TryOrder(s);
    assert r == Positions(a);
    hide Attempts, Entries;
    forall i, j | 0 <= i < j < |r| ensures Precedes(s, r[i], r[j]) {
      assert Before(a[i], a[j]);
    }
    forall p | 0 <= p < |s| ensures p in r {
      var j :| 0 <= j < |a| && a[j] == Entry(p, s[p].buffered);
      assert r[j] == p;
    }
  }

  lemma AttemptsFacts(s: seq<Channel>)
    ensures var a := Attempts(Entries(s));
      && Sorted(a) && |a| == |s|
      && (forall j | 0 <= j < |a| :: a[j].pos < |s| && a[j] == Entry(a[j].pos, s[a[j].pos].buffered))
      && (forall i | 0 <= i < |s| :: Entry(i, s[i].buffered) in a)
  {
    var e := Entries(s);
    var a := Attempts(e);
    AttemptsAreStableSort(e);
    forall j | 0 <= j < |a| ensures a[j].pos < |s| && a[j] == Entry(a[j].pos, s[a[j].pos].buffered) {
      Members(a, e, a[j]);
    }
    forall i | 0 <= i < |s| ensures Entry(i, s[i].buffered) in a {
      assert e[i] == Entry(i, s[i].buffered);
      Members(e, a, e[i]);
    }
  }

  // The channel that takes the packet is the first in the order of attempts that does.
  lemma TakerIsFirst(s: seq<Channel>)
    ensures var t, o := Taker(s, Entries(s)), TryOrder(s);
      && (t.None? <==> forall i | 0 <= i < |s| :: !s[i].Takes())
      && (t.Some? ==> exists j :: FirstAt(s, o, j) && o[j] == t.value)
  {
    var e, o := Entries(s), TryOrder(s);
    TryOrderIsStable(s);
    TakerFollowsAttempts(s, e);
    FirstTakingMeans(s, o);
    hide Taker, TryOrder, Entries, Attempts, FirstTaking, Precedes;
    if Taker(s, e).None? {
      forall i | 0 <= i < |s| ensures !s[i].Takes() {
        assert i in o;
      }
    }
  }

  /** One packet goes to the first channel in the order of attempts that takes it, and to none only when all
      refuse. The channel that takes it queues it once; no other channel changes. */
  lemma OnePacket(s: seq<Channel>, payload: seq<byte>, ok: bool, r: seq<Channel>)
    requires Delivered(s, payload, ok, r)
    ensures !ok <==> forall i | 0 <= i < |s| :: !s[i].Takes()
    ensures !ok ==> r == s
    ensures ok ==> var o := TryOrder(s); exists j ::
      FirstAt(s, o, j) && r == s[o[j] := Channel(true, true, s[o[j]].buffered + |payload|, s[o[j]].sent + [payload])]
  {
    TakerIsFirst(s);
    hide Taker, TryOrder, Entries;
    if ok {
      var o := TryOrder(s);
      var j :| FirstAt(s, o, j) && o[j] == Taker(s, Entries(s)).value;
      assert s[o[j]].Queued(payload) == Channel(true, true, s[o[j]].buffered + |payload|, s[o[j]].sent + [payload]);
    }
  }

  // The packet goes to the least-buffered of the channels that take it.
  lemma TakerLeast(s: seq<Channel>)
    ensures var t := Taker(s, Entries(s));
      && (t.None? <==> forall i | 0 <= i < |s| :: !s[i].Takes())
      && (t.Some? ==> s[t.value].Takes())
      && (t.Some? ==> forall i | 0 <= i < |s| && s[i].Takes() :: s[t.value].buffered <= s[i].buffered)
  {
    var t, o := Taker(s, Entries(s)), TryOrder(s);
    TakerIsFirst(s);
    TryOrderIsStable(s);
    hide Taker, TryOrder, Entries;
    if t.Some? {
      var j :| FirstAt(s, o, j) && o[j] == t.value;
      forall i | 0 <= i < |s| && s[i].Takes() ensures s[t.value].buffered <= s[i].buffered {
        assert i in o;
        var k :| 0 <= k < |o| && o[k] == i;
        assert k > j ==> Precedes(s, o[j], o[k]);
      }
    }
  }

  // The first in the order of attempts that takes the packet comes before every other that would.
  lemma FirstPrecedes(s: seq<Channel>, o: seq<nat>, j: int, k: nat)
    requires FirstAt(s, o, j) && o == TryOrder(s) && k < |s| && s[k].Takes()
    ensures var p := o[j]; s[p].buffered < s[k].buffered || (s[p].buffered == s[k].buffered && p <= k)
  {
    TryOrderIsStable(s);
    hide TryOrder;
    assert k in o;
    var i :| 0 <= i < |o| && o[i] == k;
    assert i > j ==> Precedes(s, o[j], o[i]);
  }

  // The packet is on the least buffered of the channels that take it, the first of those in rotated order, once; the
  // others are as they were. It is on none exactly when all refuse.
  ghost predicate Served(before: seq<Channel>, payload: seq<byte>, ok: bool, p: nat, after: seq<Channel>)
  {
    && |after| == |before|
    && (ok <==> exists k :: 0 <= k < |before| && before[k].Takes())
    && (forall k | 0 <= k < |before| && !(ok && k == p) :: after[k] == before[k])
    && (ok ==>
          && p < |before| && before[p].Takes()
          && after[p] == before[p].(buffered := before[p].buffered + |payload|, sent := before[p].sent + [payload])
          && forall k | 0 <= k < |before| && before[k].Takes() ::
               before[p].buffered < before[k].buffered || (before[p].buffered == before[k].buffered && p <= k))
  }

  lemma ServedAt(before: seq<Channel>, payload: seq<byte>, p: nat)
    requires p < |before| && before[p].Takes()
    requires forall k | 0 <= k < |before| && before[k].Takes() ::
      before[p].buffered < before[k].buffered || (before[p].buffered == before[k].buffered && p <= k)
    ensures Served(before, payload, true, p, before[p := before[p].Queued(payload)])
  {}

  /** Where one packet goes, with nothing left to look up. */
  lemma PacketServed(before: seq<Channel>, payload: seq<byte>, ok: bool, after: seq<Channel>) returns (p: nat)
    requires Delivered(before, payload, ok, after)
    ensures Served(before, payload, ok, p, after)
  {
    var taker := Taker(before, Entries(before));
    TakerIsFirst(before);
    p := 0;
    if ok {
      p := taker.value;
      var o := TryOrder(before);
      var j :| FirstAt(before, o, j) && o[j] == p;
      hide Taker, TryOrder, Entries, Served;
      forall k: nat | k < |before| && before[k].Takes()
        ensures before[p].buffered < before[k].buffered || (before[p].buffered == before[k].buffered && p <= k)
      {
        FirstPrecedes(before, o, j, k);
      }
      ServedAt(before, payload, p);
    } else {
      hide Taker, TryOrder, Entries;
    }
  }

  // ---------- the channels themselves ----------

  // A pion DataChannel.
  class DataChannel {
    var open: bool
    var accepts: bool
    var buffered: nat
    var sent: seq<seq<byte>>

    constructor ()
      ensures Value() == Channel(false, false, 0, [])
    {
      open, accepts, buffered, sent := false, false, 0, [];
    }

    function Value(): Channel
      reads this
    {
      Channel(open, accepts, buffered, sent)
    }

    method Close()
      modifies this`open
      ensures !open
    {
      open := false;
    }

    method Send(payload: seq<byte>) returns (ok: bool)
      modifies this`buffered, this`sent
      ensures ok == old(Value()).Takes()
      ensures Value() == if ok then old(Value()).Queued(payload) else old(Value())
    {
      ok := open && accepts;
      if ok {
        sent, buffered := sent + [payload], buffered + |payload|;
      }
    }
  }

  function Values(s: seq<DataChannel>): (r: seq<Channel>)
    reads s
    ensures |r| == |s| && forall i | 0 <= i < |s| :: r[i] == s[i].Value()
  {
    seq(|s|, i requires 0 <= i < |s| reads s => s[i].Value())
  }

  predicate Distinct<T(==)>(s: seq<T>) { forall i, j | 0 <= i < j < |s| :: s[i] != s[j] }

  function Rotated<T>(s: seq<T>, start: nat): seq<T>
    requires start <= |s|
  {
    s[start..] + s[..start]
  }

  lemma RotatedSame<T>(s: seq<T>, start: nat)
    requires start <= |s|
    ensures |Rotated(s, start)| == |s|
    ensures forall x :: x in Rotated(s, start) <==> x in s
    ensures Distinct(s) ==> Distinct(Rotated(s, start))
  {}

  // The candidates still to be tried, by their entries.
  ghost predicate Matches(rotated: seq<DataChannel>, before: seq<Channel>, current: seq<DataChannel>,
                          left: seq<Entry>)
  {
    && |left| == |current| && |before| == |rotated|
    && forall i | 0 <= i < |left| ::
        left[i].pos < |rotated| && current[i] == rotated[left[i].pos]
        && left[i].buffered == before[left[i].pos].buffered
  }

  lemma MatchesEntries(rotated: seq<DataChannel>, before: seq<Channel>)
    requires |before| == |rotated|
    ensures Matches(rotated, before, rotated, Entries(before))
  {}

  lemma MatchesWithout(rotated: seq<DataChannel>, before: seq<Channel>, current: seq<DataChannel>, left: seq<Entry>,
                       least: nat)
    requires Matches(rotated, before, current, left) && least < |left|
    ensures Matches(rotated, before, current[..least] + current[least + 1..], Without(left, least))
    ensures left[least].pos < |rotated| && current[least] == rotated[left[least].pos]
    ensures forall e | e in left :: e.pos < |before|
    ensures forall e | e in Without(left, least) :: e.pos < |before|
  {}

  method FindLeast(ghost rotated: seq<DataChannel>, ghost before: seq<Channel>, current: seq<DataChannel>,
                   ghost left: seq<Entry>)
    returns (least: nat)
    requires current != [] && Matches(rotated, before, current, left) && Values(rotated) == before
    ensures |left| == |current| && least == LeastIndex(left)
  {
    assert forall i | 0 <= i < |left| :: left[i].buffered == current[i].buffered;
    least := 0;
    for index := 1 to |current|
      invariant least < index
      invariant forall j | 0 <= j < index :: current[least].buffered <= current[j].buffered
      invariant forall j | 0 <= j < least :: current[least].buffered < current[j].buffered
    {
      if current[index].buffered < current[least].buffered {
        least := index;
      }
    }
  }

  // Trying the channel at position p of the candidates.
  method TryOne(ghost rotated: seq<DataChannel>, candidate: DataChannel, ghost p: nat, payload: seq<byte>)
    returns (ok: bool)
    requires p < |rotated| && candidate == rotated[p] && Distinct(rotated)
    modifies candidate
    ensures ok == old(Values(rotated))[p].Takes()
    ensures Values(rotated) == if ok then Sent(old(Values(rotated)), payload, Some(p)) else old(Values(rotated))
  {
    ghost var before := Values(rotated);
    ok := candidate.Send(payload);
    assert forall i | 0 <= i < |rotated| && i != p :: rotated[i].Value() == before[i];
  }

  /** The loop of Send: pick the least-buffered candidate, try it, remove it from the list. */
  method TryInOrder(rotated: seq<DataChannel>, payload: seq<byte>) returns (ok: bool)
    requires Distinct(rotated)
    modifies rotated
    ensures Delivered(old(Values(rotated)), payload, ok, Values(rotated))
  {
    hide Matches, Distinct, LeastIndex, Attempts, InOrder, Values;
    var current := rotated;
    ghost var before := Values(rotated);
    ghost var left := Entries(before);
    MatchesEntries(rotated, before);
    while |current| > 0
      invariant Matches(rotated, before, current, left) && |left| == |current|
      invariant forall e | e in left :: e.pos < |before|
      invariant Values(rotated) == before
      invariant Taker(before, left) == Taker(before, Entries(before))
    {
      var least := FindLeast(rotated, before, current, left);
      MatchesWithout(rotated, before, current, left, least);
      ghost var p := left[least].pos;
      ok := TryOne(rotated, current[least], p, payload);
      if ok {
        return;
      }
      current := current[..least] + current[least + 1..];
      left := Without(left, least);
    }
    ok := false;
  }

  // ---------- the open channels ----------

  // What the striping sees of a lane.
  datatype Stripe = Stripe(open: bool, channel: DataChannel?)

  // No two of the channels are the same object.
  predicate Apart(primary: DataChannel, stripes: map<int, Stripe>)
  {
    && (forall i | i in stripes :: stripes[i].channel != primary)
    && (forall i, j | i in stripes && j in stripes && i != j && stripes[i].channel != null ::
          stripes[i].channel != stripes[j].channel)
  }

  // order is the order in which the map of lanes happens to be walked.
  ghost predicate Walks(stripes: map<int, Stripe>, order: seq<int>)
  {
    Distinct(order) && forall i :: i in order <==> i in stripes
  }

  function Channels(primary: DataChannel, stripes: map<int, Stripe>): set<DataChannel>
  {
    {primary} + set i | i in stripes && stripes[i].channel != null :: stripes[i].channel as DataChannel
  }

  // A lane that can carry binary data.
  predicate Usable(stripes: map<int, Stripe>, i: int)
    reads if i in stripes && stripes[i].channel != null then {stripes[i].channel} else {}
  {
    i in stripes && stripes[i].open && stripes[i].channel != null && stripes[i].channel.open
  }

  // The open lanes' channels among the first n of the walk.
  function OpenLanes(primary: DataChannel, stripes: map<int, Stripe>, order: seq<int>, n: nat): seq<DataChannel>
    requires n <= |order|
    reads Channels(primary, stripes)
  {
    if n == 0 then [] else
    OpenLanes(primary, stripes, order, n - 1) +
      if Usable(stripes, order[n - 1]) then [stripes[order[n - 1]].channel] else []
  }

  // binaryCandidates: the primary first, then the open lanes in the order of the walk.
  function Candidates(primary: DataChannel, stripes: map<int, Stripe>, order: seq<int>): seq<DataChannel>
    reads Channels(primary, stripes)
  {
    (if primary.open then [primary] else []) + OpenLanes(primary, stripes, order, |order|)
  }

  lemma {:induction false} OpenLanesFacts(primary: DataChannel, stripes: map<int, Stripe>, order: seq<int>, n: nat)
    requires Apart(primary, stripes) && Distinct(order) && n <= |order|
    ensures var open := OpenLanes(primary, stripes, order, n);
      && Distinct(open)
      && (forall ch | ch in open ::
            exists q :: 0 <= q < n && Usable(stripes, order[q]) && stripes[order[q]].channel == ch)
      && (forall q | 0 <= q < n && Usable(stripes, order[q]) :: stripes[order[q]].channel in open)
    decreases n
  {
    if n > 0 {
      OpenLanesFacts(primary, stripes, order, n - 1);
      if Usable(stripes, order[n - 1]) {
        assert stripes[order[n - 1]].channel !in OpenLanes(primary, stripes, order, n - 1);
      }
    }
  }

  /** The candidates are the open channels, each once, whatever the order of the walk. */
  lemma CandidatesAreOpen(primary: DataChannel, stripes: map<int, Stripe>, order: seq<int>)
    requires Apart(primary, stripes) && Walks(stripes, order)
    ensures var c := Candidates(primary, stripes, order);
      && Distinct(c) && (forall ch | ch in c :: ch in Channels(primary, stripes))
      && (forall ch: DataChannel :: ch in c <==>
            (ch == primary && primary.open) || exists i :: Usable(stripes, i) && stripes[i].channel == ch)
  {
    OpenLanesFacts(primary, stripes, order, |order|);
    assert primary !in OpenLanes(primary, stripes, order, |order|);
    forall i | Usable(stripes, i) ensures stripes[i].channel in Candidates(primary, stripes, order) {
      assert i in order;
      var q :| 0 <= q < |order| && order[q] == i;
    }
  }

  lemma {:induction false} OpenLanesBound(primary: DataChannel, stripes: map<int, Stripe>, order: seq<int>, n: nat)
    requires n <= |order|
    ensures |OpenLanes(primary, stripes, order, n)| <= n
  {
    if n > 0 {
      OpenLanesBound(primary, stripes, order, n - 1);
    }
  }

  // Distinct lane indices below a limit are fewer than the limit.
  lemma {:induction false} DistinctBound(order: seq<int>, limit: int)
    requires Distinct(order) && limit >= 1 && forall k | 0 <= k < |order| :: 1 <= order[k] < limit
    ensures |order| < limit
    decreases limit
  {
    if order != [] {
      assert 1 <= order[0] < limit;
      if k :| 0 <= k < |order| && order[k] == limit - 1 {
        var rest := Without(order, k);
        assert forall j | 0 <= j < |rest| :: rest[j] == order[if j < k then j else j + 1];
        DistinctBound(rest, limit - 1);
      } else {
        DistinctBound(order, limit - 1);
      }
    }
  }

  method BinaryCandidates(primary: DataChannel, stripes: map<int, Stripe>, order: seq<int>)
    returns (candidates: seq<DataChannel>)
    requires Walks(stripes, order)
    ensures candidates == Candidates(primary, stripes, order)
  {
    var first := if primary.open then [primary] else [];
    candidates := first;
    for n := 0 to |order|
      invariant candidates == first + OpenLanes(primary, stripes, order, n)
    {
      var index := order[n];
      assert index in order;
      var lane := stripes[index];
      OneLaneMore(primary, stripes, order, n, first);
      if lane.open && lane.channel != null && lane.channel.open {
        candidates := candidates + [lane.channel];
      }
      hide OpenLanes;
    }
  }

  lemma OneLaneMore(primary: DataChannel, stripes: map<int, Stripe>, order: seq<int>, n: nat, first: seq<DataChannel>)
    requires n < |order|
    ensures first + OpenLanes(primary, stripes, order, n + 1) ==
      first + OpenLanes(primary, stripes, order, n) +
        if Usable(stripes, order[n]) then [stripes[order[n]].channel] else []
  {}

  // The candidates as Send tries to fill them, starting from the cursor.
  function Turned<T>(c: seq<T>, cursor: int): seq<T>
    requires 0 <= cursor
  {
    if c == [] then [] else Rotated(c, cursor % |c|)
  }

  // All of c, round from the cursor.
  predicate GoesRound<T(==)>(c: seq<T>, cursor: int, turned: seq<T>)
  {
    |turned| == |c| && forall k | 0 <= k < |c| :: turned[k] == c[(cursor + k) % |c|]
  }

  // Nothing is lost by turning: the candidate at the cursor comes first and the others follow round.
  lemma TurnedAt<T>(c: seq<T>, cursor: int)
    requires 0 <= cursor
    ensures GoesRound(c, cursor, Turned(c, cursor))
    ensures forall x :: x in Turned(c, cursor) <==> x in c
  {
    if c != [] {
      RotatedSame(c, cursor % |c|);
      forall k | 0 <= k < |c| ensures Turned(c, cursor)[k] == c[(cursor + k) % |c|] {
        RoundTheEnd(cursor, k, |c|);
      }
    }
  }

  lemma RoundTheEnd(cursor: int, k: int, n: int)
    requires 0 <= cursor && 0 <= k < n
    ensures (cursor + k) % n == if cursor % n + k < n then cursor % n + k else cursor % n + k - n
  {
    var q, r := cursor / n, cursor % n;
    assert cursor + k == q * n + (r + k);
    if r + k < n {
      Remainder(cursor + k, q, r + k, n);
    } else {
      assert q * n + (r + k) == (q + 1) * n + (r + k - n);
      Remainder(cursor + k, q + 1, r + k - n, n);
    }
  }

  lemma Remainder(a: int, q: int, r: int, n: int)
    requires 0 <= r < n && a == q * n + r
    ensures a % n == r
  {
    assert (a / n - q) * n == r - a % n;
    ProductBelow(a / n - q, n);
  }

  lemma ProductBelow(d: int, n: int)
    requires n > 0
    ensures d > 0 ==> d * n >= n
    ensures d < 0 ==> d * n <= -n
  {}

  method TurnedCandidates(primary: DataChannel, stripes: map<int, Stripe>, cursor: int, order: seq<int>)
    returns (turned: seq<DataChannel>)
    requires 0 <= cursor && Apart(primary, stripes) && Walks(stripes, order)
    ensures turned == Turned(Candidates(primary, stripes, order), cursor)
    ensures Distinct(turned) && forall ch | ch in turned :: ch in Channels(primary, stripes)
    ensures GoesRound(Candidates(primary, stripes, order), cursor, turned)
  {
    var candidates := BinaryCandidates(primary, stripes, order);
    CandidatesAreOpen(primary, stripes, order);
    TurnedAt(candidates, cursor);
    hide Candidates, Usable, Walks, Channels, Apart;
    if |candidates| == 0 {
      return [];
    }
    var start := cursor % |candidates|;
    RotatedSame(candidates, start);
    turned := candidates[start..] + candidates[..start];
    assert turned == Rotated(candidates, start);
  }

  /** Send over the open channels: one packet has the effect that OnePacket states on those tried in turn. */
  method SendOver(primary: DataChannel, stripes: map<int, Stripe>, cursor: int, payload: seq<byte>, order: seq<int>)
    returns (ok: bool, turned: seq<DataChannel>, ghost p: nat)
    requires 0 <= cursor && Apart(primary, stripes) && Walks(stripes, order)
    modifies Channels(primary, stripes)
    ensures turned == old(Turned(Candidates(primary, stripes, order), cursor))
    ensures GoesRound(old(Candidates(primary, stripes, order)), cursor, turned) && Distinct(turned)
    ensures forall ch | ch in turned :: ch in Channels(primary, stripes)
    ensures forall ch | ch in Channels(primary, stripes) ::
      ch in turned <==> ch in old(Candidates(primary, stripes, order))
    ensures Delivered(old(Values(turned)), payload, ok, Values(turned))
    ensures Served(old(Values(turned)), payload, ok, p, Values(turned))
    ensures forall ch | ch in Channels(primary, stripes) && ch !in turned :: ch.Value() == old(ch.Value())
  {
    ghost var candidates := Candidates(primary, stripes, order);
    turned := TurnedCandidates(primary, stripes, cursor, order);
    assert Candidates(primary, stripes, order) == candidates;
    TurnedAt(candidates, cursor);
    hide Turned, Candidates, Walks, Apart, Delivered, Values, Distinct, Channels, Usable, GoesRound, Served;
    assert Values(turned) == old(Values(turned));
    ok := TryTurned(turned, payload);
    p := PacketServed(old(Values(turned)), payload, ok, Values(turned));
  }

  method TryTurned(turned: seq<DataChannel>, payload: seq<byte>) returns (ok: bool)
    requires Distinct(turned)
    modifies turned
    ensures Delivered(old(Values(turned)), payload, ok, Values(turned))
  {
    hide *;
    if |turned| == 0 {
      NoChannel(payload);
      return false;
    }
    ok := TryInOrder(turned, payload);
  }

  lemma NoChannel(payload: seq<byte>)
    ensures Delivered(Values([]), payload, false, Values([]))
  {
    NoneDelivered(payload);
    assert Values([]) == [];
  }

  /** BufferedAmount: the least amount buffered on an open channel, or on the primary when none is open. */
  method BufferedOver(primary: DataChannel, stripes: map<int, Stripe>, order: seq<int>) returns (minimum: nat)
    requires Walks(stripes, order)
    ensures minimum == LeastBuffered(primary.buffered, Values(Candidates(primary, stripes, order)))
  {
    var candidates := BinaryCandidates(primary, stripes, order);
    hide Candidates, Walks, LeastIndex;
    if |candidates| == 0 {
      return primary.buffered;
    }
    minimum := candidates[0].buffered;
    for i := 1 to |candidates|
      invariant exists j :: 0 <= j < |candidates| && candidates[j].buffered == minimum
      invariant forall j | 0 <= j < i :: minimum <= candidates[j].buffered
    {
      if candidates[i].buffered < minimum {
        minimum := candidates[i].buffered;
      }
    }
  }
}
