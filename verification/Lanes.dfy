/** The table of lanes of webrtc/parallel_channel.go, as a value. Every function is one section under the lock. */
module Lanes {
  import opened Wrappers

  const DEFAULT_PARALLEL_CONNECTIONS := 4
  const MAX_PARALLEL_CONNECTIONS := 8
  const MAX_PARALLEL_CANDIDATE_SIZE := 4096
  const MAX_PENDING_CANDIDATES := 64

  type Candidate = seq<byte>

  // A lane is known by its connection. described: the connection has its remote description; applied: the
  // candidates it has taken.
  datatype Lane = Lane(pc: nat, attached: bool, open: bool, described: bool, applied: seq<Candidate>)

  // connections and initiator are options; next numbers the connections as they are created.
  datatype Table = Table(
    connections: int, initiator: bool, negotiated: int, closed: bool,
    lanes: map<int, Lane>, pending: map<int, seq<Candidate>>, next: nat)

  function ClampParallelConnections(value: int): (r: int)
    ensures 1 <= r <= 8 && (1 <= value <= 8 ==> r == value)
    ensures (value <= 0 ==> r == 4) && (value > 8 ==> r == 8)
  {
    if value <= 0 then DEFAULT_PARALLEL_CONNECTIONS else Min(value, MAX_PARALLEL_CONNECTIONS)
  }

  function Fresh(connections: int, initiator: bool): Table
  {
    Table(ClampParallelConnections(connections), initiator, 1, false, map[], map[], 0)
  }

  predicate ValidLane(t: Table, index: int) { 0 < index < t.negotiated }

  predicate Current(t: Table, index: int, pc: nat) { index in t.lanes && t.lanes[index].pc == pc }

  function Queue(t: Table, index: int): seq<Candidate>
  {
    if index in t.pending then t.pending[index] else []
  }

  // The count in a capability message; counts out of range are ignored.
  predicate Counts(n: int) { 1 <= n <= MAX_PARALLEL_CONNECTIONS }

  function Negotiate(t: Table, n: int): Table
  {
    if Counts(n) then t.(negotiated := Min(t.connections, n)) else t
  }

  function Created(t: Table): Table { t.(next := t.next + 1) }

  predicate Admits(t: Table, index: int) { !t.closed && index !in t.lanes }

  function Install(t: Table, index: int, pc: nat): Table
  {
    if Admits(t, index) then t.(lanes := t.lanes[index := Lane(pc, false, false, false, [])]) else t
  }

  function Remove(t: Table, index: int): Table
  {
    t.(lanes := t.lanes - {index}, pending := t.pending - {index})
  }

  function RemoveIfCurrent(t: Table, index: int, pc: nat): Table
  {
    if Current(t, index, pc) then Remove(t, index) else t
  }

  function Attach(t: Table, index: int, pc: nat): Table
  {
    if Current(t, index, pc) then t.(lanes := t.lanes[index := t.lanes[index].(attached := true)]) else t
  }

  function Open(t: Table, index: int, pc: nat): Table
  {
    if Current(t, index, pc) then t.(lanes := t.lanes[index := t.lanes[index].(open := true)]) else t
  }

  function Shut(t: Table): Table
  {
    if t.closed then t else t.(closed := true, lanes := map[])
  }
}
