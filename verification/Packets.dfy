/** The binary packet of protocol/protocol.go: a length-prefixed JSON header and the chunk's bytes. */
module Packets {
  import opened Wrappers
  import opened Chunking
  import opened Json

  const VERSION: byte := 1
  const PACKET_TYPE_FILE_CHUNK: byte := 1
  const FIXED_HEADER_SIZE := 6
  const MAX_HEADER_SIZE := 64 * 1024
  const DEFAULT_CHUNK_SIZE := 12 * 1024
  const TARGET_CHUNK_SIZE := 64 * 1024
  const MAX_BUFFERED_AMOUNT := 2 * 1024 * 1024

  datatype ChunkHeader = ChunkHeader(transferId: seq<Rune>, index: int, offset: int, length: int)

  datatype Value = Text(text: seq<Rune>) | Number(number: int)

  datatype Member = Member(key: seq<Rune>, value: Value)

  // ---------- flat JSON objects ----------

  function PrintValue(v: Value): seq<byte>
    requires v.Number? ==> v.number >= 0
  {
    match v
    case Text(text) => Quoted(text)
    case Number(n) => Decimal(n)
  }

  predicate Printable(ms: seq<Member>) {
    forall i | 0 <= i < |ms| && ms[i].value.Number? :: 0 <= ms[i].value.number <= MAX_INT64
  }

  function PrintMembers(ms: seq<Member>): seq<byte>
    requires ms != [] && Printable(ms)
    decreases |ms|, 1
  {
    Quoted(ms[0].key) + [COLON] + PrintValue(ms[0].value) + Ending(ms)
  }

  // What follows the first member.
  function Ending(ms: seq<Member>): seq<byte>
    requires ms != [] && Printable(ms)
    decreases |ms|, 0
  {
    if |ms| == 1 then [CLOSE] else [COMMA] + PrintMembers(ms[1..])
  }

  // White space between the tokens of an object.
  function Skip(s: seq<byte>): (r: seq<byte>)
    ensures |r| <= |s|
  {
    if s != [] && (s[0] == 0x20 || s[0] == 0x09 || s[0] == 0x0A || s[0] == 0x0D) then Skip(s[1..]) else s
  }

  function ReadValue(s: seq<byte>): (d: Option<(Value, seq<byte>)>)
    ensures d.Some? ==> |d.value.1| < |s|
  {
    if s != [] && s[0] == QUOTE then
      match ReadString(s)
      case None => None
      case Some((text, rest)) => Some((Text(text), rest))
    else
      match ReadInt(s)
      case None => None
      case Some((n, rest)) => Some((Number(n), rest))
  }

  // The members up to the closing brace, and what follows it.
  function ReadMembers(s: seq<byte>): (d: Option<(seq<Member>, seq<byte>)>)
    decreases |s|
  {
    match ReadString(Skip(s))
    case None => None
    case Some((key, s1)) =>
      var s2 := Skip(s1);
      if s2 == [] || s2[0] != COLON then None else
      match ReadValue(Skip(s2[1..]))
      case None => None
      case Some((value, s3)) =>
        var s4 := Skip(s3);
        if s4 == [] then None
        else if s4[0] == CLOSE then Some(([Member(key, value)], s4[1..]))
        else if s4[0] != COMMA then None
        else match ReadMembers(s4[1..])
          case None => None
          case Some((ms, rest)) => Some(([Member(key, value)] + ms, rest))
  }

  lemma ValueRoundTrip(v: Value, rest: seq<byte>)
    requires v.Number? ==> 0 <= v.number <= MAX_INT64
    requires rest != [] && (rest[0] == COMMA || rest[0] == CLOSE)
    ensures PrintValue(v) != [] && PrintValue(v)[0] !in {0x20, 0x09, 0x0A, 0x0D}
    ensures ReadValue(PrintValue(v) + rest) == Some((v, rest))
  {
    match v
    case Text(text) => StringRoundTrip(text, rest);
    case Number(n) =>
      DecimalHead(n);
      IntRoundTrip(n, rest);
      assert (Decimal(n) + rest)[0] == Decimal(n)[0];
  }

  // The first member of a list reads back, and the list goes on after its comma.
  lemma MemberRoundTrip(m: Member, s: seq<byte>, s4: seq<byte>)
    requires m.value.Number? ==> 0 <= m.value.number <= MAX_INT64
    requires s4 != [] && (s4[0] == COMMA || s4[0] == CLOSE)
    requires s == Quoted(m.key) + ([COLON] + (PrintValue(m.value) + s4))
    ensures ReadMembers(s) ==
      if s4[0] == CLOSE then Some(([m], s4[1..])) else
      match ReadMembers(s4[1..])
      case None => None
      case Some((ms, rest)) => Some(([m] + ms, rest))
  {
    var s2 := [COLON] + (PrintValue(m.value) + s4);
    assert s[0] == QUOTE;
    StringRoundTrip(m.key, s2);
    ValueRoundTrip(m.value, s4);
    hide Quoted, ReadString, ReadValue, PrintValue;
    assert s2[1..] == PrintValue(m.value) + s4;
    assert (PrintValue(m.value) + s4)[0] == PrintValue(m.value)[0];
    assert Skip(s) == s && Skip(s2) == s2 && Skip(s2[1..]) == s2[1..] && Skip(s4) == s4;
  }

  lemma Regroup(a: seq<byte>, b: seq<byte>, c: seq<byte>, d: seq<byte>, e: seq<byte>)
    ensures a + b + c + d + e == a + (b + (c + (d + e)))
  {}

  lemma PrintedShape(ms: seq<Member>, rest: seq<byte>)
    requires ms != [] && Printable(ms)
    ensures ms[0].value.Number? ==> 0 <= ms[0].value.number <= MAX_INT64
    ensures PrintMembers(ms) + rest == Quoted(ms[0].key) + ([COLON] + (PrintValue(ms[0].value) + (Ending(ms) + rest)))
  {
    hide Ending, Quoted;
    Regroup(Quoted(ms[0].key), [COLON], PrintValue(ms[0].value), Ending(ms), rest);
  }

  lemma EndingShape(ms: seq<Member>, rest: seq<byte>)
    requires ms != [] && Printable(ms)
    ensures Ending(ms) + rest != [] && (Ending(ms) + rest)[0] == (if |ms| == 1 then CLOSE else COMMA)
    ensures (Ending(ms) + rest)[1..] == if |ms| == 1 then rest else PrintMembers(ms[1..]) + rest
  {
    hide PrintMembers;
  }

  /** Every list of members reads back as itself, in order. */
  lemma {:induction false} MembersRoundTrip(ms: seq<Member>, rest: seq<byte>)
    requires ms != [] && Printable(ms)
    ensures ReadMembers(PrintMembers(ms) + rest) == Some((ms, rest))
    decreases |ms|
  {
    hide ReadMembers, PrintMembers, PrintValue, Quoted, Ending;
    PrintedShape(ms, rest);
    EndingShape(ms, rest);
    MemberRoundTrip(ms[0], PrintMembers(ms) + rest, Ending(ms) + rest);
    if |ms| > 1 {
      MembersRoundTrip(ms[1..], rest);
      assert ms == [ms[0]] + ms[1..];
    } else {
      assert ms == [ms[0]];
    }
  }

  // ---------- the chunk header ----------

  function Runes(s: string): seq<Rune>
    requires forall i | 0 <= i < |s| :: s[i] as int < 128
  {
    seq(|s|, i requires 0 <= i < |s| => s[i] as int)
  }

  const TRANSFER_ID := Runes("transferId")
  const INDEX := Runes("index")
  const OFFSET := Runes("offset")
  const LENGTH := Runes("length")

  function Members(h: ChunkHeader): seq<Member> {
    [Member(TRANSFER_ID, Text(h.transferId)), Member(INDEX, Number(h.index)),
     Member(OFFSET, Number(h.offset)), Member(LENGTH, Number(h.length))]
  }

  function MarshalHeader(h: ChunkHeader): seq<byte>
    requires Printable(Members(h))
  {
    [OPEN] + PrintMembers(Members(h))
  }

  // A later member replaces an earlier one; unknown keys are ignored; a value of the wrong kind is an error.
  function Assign(h: ChunkHeader, m: Member): Option<ChunkHeader> {
    if m.key == TRANSFER_ID then if m.value.Text? then Some(h.(transferId := m.value.text)) else None
    else if m.key == INDEX then if m.value.Number? then Some(h.(index := m.value.number)) else None
    else if m.key == OFFSET then if m.value.Number? then Some(h.(offset := m.value.number)) else None
    else if m.key == LENGTH then if m.value.Number? then Some(h.(length := m.value.number)) else None
    else Some(h)
  }

  function AssignAll(h: ChunkHeader, ms: seq<Member>): Option<ChunkHeader>
    decreases |ms|
  {
    if ms == [] then Some(h) else
    match Assign(h, ms[0])
    case None => None
    case Some(next) => AssignAll(next, ms[1..])
  }

  function UnmarshalHeader(s: seq<byte>): Option<ChunkHeader> {
    var t := Skip(s);
    if t == [] || t[0] != OPEN then None else
    var zero := ChunkHeader([], 0, 0, 0);
    var inner := Skip(t[1..]);
    if inner != [] && inner[0] == CLOSE then if Skip(inner[1..]) == [] then Some(zero) else None else
    match ReadMembers(inner)
    case None => None
    case Some((ms, rest)) => if Skip(rest) == [] then AssignAll(zero, ms) else None
  }

  lemma KeysDiffer()
    ensures TRANSFER_ID != INDEX && TRANSFER_ID != OFFSET && TRANSFER_ID != LENGTH
    ensures INDEX != OFFSET && INDEX != LENGTH && OFFSET != LENGTH
  {
    assert |TRANSFER_ID| == 10 && |INDEX| == 5 && |OFFSET| == 6 && |LENGTH| == 6;
    assert OFFSET[0] != LENGTH[0];
  }

  lemma AssignMembers(h: ChunkHeader)
    ensures AssignAll(ChunkHeader([], 0, 0, 0), Members(h)) == Some(h)
  {
    KeysDiffer();
    var ms := Members(h);
    var h1 := ChunkHeader(h.transferId, 0, 0, 0);
    var h2 := h1.(index := h.index);
    var h3 := h2.(offset := h.offset);
    assert AssignAll(h, []) == Some(h);
    assert AssignAll(h3, ms[3..]) == Some(h) by { assert ms[3..][1..] == []; }
    assert AssignAll(h2, ms[2..]) == Some(h) by { assert ms[2..][1..] == ms[3..]; }
    assert AssignAll(h1, ms[1..]) == Some(h) by { assert ms[1..][1..] == ms[2..]; }
  }

  // What the members say of one key: the last of them counts, or the value from before.
  ghost predicate LastSays(ms: seq<Member>, key: seq<Rune>, before: Value, after: Value)
  {
    if forall i | 0 <= i < |ms| :: ms[i].key != key then after == before
    else exists i ::
      0 <= i < |ms| && ms[i].key == key && ms[i].value == after && forall j | i < j < |ms| :: ms[j].key != key
  }

  // The values are of the kinds the header's fields have.
  predicate RightKinds(ms: seq<Member>)
  {
    forall i | 0 <= i < |ms| ::
      && (ms[i].key == TRANSFER_ID ==> ms[i].value.Text?)
      && (ms[i].key in {INDEX, OFFSET, LENGTH} ==> ms[i].value.Number?)
  }

  lemma {:induction false} LastOfMore(m: Member, ms: seq<Member>, key: seq<Rune>, before: Value, after: Value)
    requires LastSays(ms, key, if m.key == key then m.value else before, after)
    ensures LastSays([m] + ms, key, before, after)
  {
    var all := [m] + ms;
    if forall i | 0 <= i < |ms| :: ms[i].key != key {
      if m.key == key { assert all[0].key == key && all[0].value == after; }
    } else {
      var i :| 0 <= i < |ms| && ms[i].key == key && ms[i].value == after && forall j | i < j < |ms| :: ms[j].key != key;
      assert all[i + 1] == ms[i];
    }
  }

  /** A list of members fills the header exactly when each known key has a value of its kind; a later member replaces
      an earlier one with the same key, and unknown keys change nothing. */
  lemma {:induction false} AssignMeans(h: ChunkHeader, ms: seq<Member>)
    ensures AssignAll(h, ms).Some? <==> RightKinds(ms)
    ensures AssignAll(h, ms).Some? ==>
      var g := AssignAll(h, ms).value;
      && LastSays(ms, TRANSFER_ID, Text(h.transferId), Text(g.transferId))
      && LastSays(ms, INDEX, Number(h.index), Number(g.index))
      && LastSays(ms, OFFSET, Number(h.offset), Number(g.offset))
      && LastSays(ms, LENGTH, Number(h.length), Number(g.length))
    decreases |ms|
  {
    KeysDiffer();
    hide Runes;
    if ms != [] {
      var m, rest := ms[0], ms[1..];
      assert ms == [m] + rest;
      var next := Assign(h, m);
      assert RightKinds(ms) <==> next.Some? && RightKinds(rest);
      if next.Some? {
        AssignMeans(next.value, rest);
        if AssignAll(next.value, rest).Some? {
          var g := AssignAll(next.value, rest).value;
          hide LastSays, RightKinds, AssignAll;
          LastOfMore(m, rest, TRANSFER_ID, Text(h.transferId), Text(g.transferId));
          LastOfMore(m, rest, INDEX, Number(h.index), Number(g.index));
          LastOfMore(m, rest, OFFSET, Number(h.offset), Number(g.offset));
          LastOfMore(m, rest, LENGTH, Number(h.length), Number(g.length));
        }
      }
    }
  }

  lemma UnmarshalMembers(printed: seq<byte>, ms: seq<Member>, h: ChunkHeader)
    requires printed != [] && printed[0] == QUOTE && ReadMembers(printed) == Some((ms, []))
    requires AssignAll(ChunkHeader([], 0, 0, 0), ms) == Some(h)
    ensures UnmarshalHeader([OPEN] + printed) == Some(h)
  {
    hide ReadMembers, AssignAll;
    var s := [OPEN] + printed;
    assert s[1..] == printed;
    assert Skip(s) == s && Skip(printed) == printed;
  }

  lemma HeaderRoundTrip(h: ChunkHeader)
    requires Printable(Members(h))
    ensures UnmarshalHeader(MarshalHeader(h)) == Some(h)
  {
    var ms := Members(h);
    var printed := PrintMembers(ms);
    AssignMembers(h);
    MembersRoundTrip(ms, []);
    assert printed + [] == printed;
    assert printed[0] == QUOTE;
    hide PrintMembers;
    UnmarshalMembers(printed, ms, h);
  }

  lemma {:induction false} SkipSpaces(spaces: seq<byte>, s: seq<byte>)
    requires forall i | 0 <= i < |spaces| :: spaces[i] in {0x20, 0x09, 0x0A, 0x0D}
    ensures Skip(spaces + s) == Skip(s)
    decreases |spaces|
  {
    if spaces == [] {
      assert spaces + s == s;
    } else {
      SkipSpaces(spaces[1..], s);
      assert (spaces + s)[1..] == spaces[1..] + s;
    }
  }

  /** Spaces, tabs and line ends before an object and before its members do not matter. */
  lemma SpacesIgnored(spaces: seq<byte>, s: seq<byte>)
    requires forall i | 0 <= i < |spaces| :: spaces[i] in {0x20, 0x09, 0x0A, 0x0D}
    ensures UnmarshalHeader(spaces + s) == UnmarshalHeader(s) && ReadMembers(spaces + s) == ReadMembers(s)
  {
    SkipSpaces(spaces, s);
    hide Skip, ReadString, ReadValue, AssignAll;
  }

  // ---------- packets ----------

  function BigEndian(n: int): seq<byte>
    requires 0 <= n < 0x1_0000_0000
  {
    [n / 0x100_0000, n / 0x1_0000 % 256, n / 0x100 % 256, n % 256]
  }

  function FromBigEndian(s: seq<byte>): int
    requires |s| == 4
  {
    (s[0] as int) * 0x100_0000 + (s[1] as int) * 0x1_0000 + (s[2] as int) * 0x100 + s[3] as int
  }

  lemma BigEndianRoundTrip(n: int)
    requires 0 <= n < 0x1_0000_0000
    ensures FromBigEndian(BigEndian(n)) == n
  {
    assert n == n / 0x100 * 0x100 + n % 0x100;
    assert n / 0x100 == n / 0x1_0000 * 0x100 + n / 0x100 % 0x100;
    assert n / 0x1_0000 == n / 0x100_0000 * 0x100 + n / 0x1_0000 % 0x100;
  }

  // The header matches the payload; its numbers are int64 values.
  predicate ValidHeader(h: ChunkHeader, payload: seq<byte>) {
    && h.transferId != [] && 0 <= h.index <= MAX_INT64 && 0 <= h.offset <= MAX_INT64
    && h.length == |payload| <= MAX_INT64
  }

  function Frame(header: seq<byte>, payload: seq<byte>): seq<byte>
    requires |header| <= MAX_HEADER_SIZE
  {
    [VERSION, PACKET_TYPE_FILE_CHUNK] + BigEndian(|header|) + header + payload
  }

  function Encode(h: ChunkHeader, payload: seq<byte>): Option<seq<byte>> {
    if !ValidHeader(h, payload) then None else
    var header := MarshalHeader(h);
    if header == [] || |header| > MAX_HEADER_SIZE then None else Some(Frame(header, payload))
  }

  function Decode(packet: seq<byte>): (d: Option<(ChunkHeader, seq<byte>)>) {
    if |packet| < FIXED_HEADER_SIZE || packet[0] != VERSION || packet[1] != PACKET_TYPE_FILE_CHUNK then None else
    var headerLength := FromBigEndian(packet[2..6]);
    if headerLength <= 0 || headerLength > MAX_HEADER_SIZE || FIXED_HEADER_SIZE + headerLength > |packet| then None else
    match UnmarshalHeader(packet[FIXED_HEADER_SIZE..FIXED_HEADER_SIZE + headerLength])
    case None => None
    case Some(h) =>
      var payload := packet[FIXED_HEADER_SIZE + headerLength..];
      if h.transferId == [] || h.index < 0 || h.offset < 0 || h.length != |payload| then None else Some((h, payload))
  }

  /** EncodeChunk: the packet is allocated and filled in place. */
  method EncodeChunk(h: ChunkHeader, payload: seq<byte>) returns (ok: bool, packet: array<byte>)
    ensures ok == Encode(h, payload).Some?
    ensures ok ==> packet[..] == Encode(h, payload).value
  {
    packet := new byte[0];
    if !ValidHeader(h, payload) {
      return false, packet;
    }
    var header := MarshalHeader(h);
    if |header| == 0 || |header| > MAX_HEADER_SIZE {
      return false, packet;
    }
    packet := Fill(header, payload);
    return true, packet;
  }

  method Fill(header: seq<byte>, payload: seq<byte>) returns (packet: array<byte>)
    requires |header| <= MAX_HEADER_SIZE
    ensures fresh(packet) && packet[..] == Frame(header, payload)
  {
    var n := FIXED_HEADER_SIZE + |header|;
    packet := new byte[n + |payload|];
    packet[0] := VERSION;
    packet[1] := PACKET_TYPE_FILE_CHUNK;
    PutUint32(packet, 2, |header|);
    hide BigEndian;
    ghost var fixed := [VERSION, PACKET_TYPE_FILE_CHUNK] + BigEndian(|header|);
    assert packet[..2] == [VERSION, PACKET_TYPE_FILE_CHUNK];
    assert packet[..FIXED_HEADER_SIZE] == packet[..2] + packet[2..6] == fixed;
    Copy(packet, FIXED_HEADER_SIZE, header);
    assert packet[..n] == packet[..FIXED_HEADER_SIZE] + packet[FIXED_HEADER_SIZE..n] == fixed + header;
    Copy(packet, n, payload);
    assert packet[..] == packet[..n] + packet[n..n + |payload|];
  }

  method PutUint32(a: array<byte>, at: nat, n: int)
    requires at + 4 <= a.Length && 0 <= n < 0x1_0000_0000
    modifies a
    ensures a[at..at + 4] == BigEndian(n)
    ensures a[..at] == old(a[..at]) && a[at + 4..] == old(a[at + 4..])
  {
    a[at], a[at + 1], a[at + 2], a[at + 3] := n / 0x100_0000, n / 0x1_0000 % 256, n / 0x100 % 256, n % 256;
  }

  // Go's copy, with room for all of s.
  method Copy(a: array<byte>, at: nat, s: seq<byte>)
    requires at + |s| <= a.Length
    modifies a
    ensures a[at..at + |s|] == s
    ensures a[..at] == old(a[..at]) && a[at + |s|..] == old(a[at + |s|..])
  {
    for i := 0 to |s|
      invariant a[at..at + i] == s[..i]
      invariant a[..at] == old(a[..at]) && a[at + |s|..] == old(a[at + |s|..])
    {
      a[at + i] := s[i];
    }
  }

  // How Decode sees a framed header, whatever the bytes after it.
  lemma FrameParts(header: seq<byte>, tail: seq<byte>)
    requires 0 < |header| <= MAX_HEADER_SIZE
    ensures var p, n := Frame(header, tail), FIXED_HEADER_SIZE + |header|;
      && |p| == n + |tail| && p[0] == VERSION && p[1] == PACKET_TYPE_FILE_CHUNK
      && FromBigEndian(p[2..6]) == |header| && p[FIXED_HEADER_SIZE..n] == header && p[n..] == tail
  {
    BigEndianRoundTrip(|header|);
    hide BigEndian, FromBigEndian;
    assert Frame(header, tail)[2..6] == BigEndian(|header|);
  }

  lemma DecodeFrame(h: ChunkHeader, tail: seq<byte>)
    requires Printable(Members(h)) && 0 < |MarshalHeader(h)| <= MAX_HEADER_SIZE
    ensures Decode(Frame(MarshalHeader(h), tail)) ==
      if h.transferId == [] || h.index < 0 || h.offset < 0 || h.length != |tail| then None else Some((h, tail))
  {
    FrameParts(MarshalHeader(h), tail);
    HeaderRoundTrip(h);
    hide Frame, MarshalHeader, UnmarshalHeader, FromBigEndian;
  }

  /** What decodes is a version 1 chunk packet, whose big-endian length counts the header, whose header is complete and
      whose announced length is that of the bytes after it. */
  lemma DecodeSound(p: seq<byte>)
    requires Decode(p).Some?
    ensures var (h, payload) := Decode(p).value;
      && |p| >= 6 && p[0] == 1 && p[1] == 1
      && var n := (p[2] as int) * 16777216 + (p[3] as int) * 65536 + (p[4] as int) * 256 + p[5] as int;
      && 0 < n <= 65536 && 6 + n <= |p| && payload == p[6 + n..] && UnmarshalHeader(p[6..6 + n]) == Some(h)
      && h.transferId != [] && h.index >= 0 && h.offset >= 0 && h.length == |payload|
  {
    hide UnmarshalHeader;
  }

  /** Every packet that can be encoded decodes to its header and payload. */
  lemma PacketRoundTrip(h: ChunkHeader, payload: seq<byte>)
    requires Encode(h, payload).Some?
    ensures Decode(Encode(h, payload).value) == Some((h, payload))
  {
    DecodeFrame(h, payload);
  }

  /** Nothing that strictly extends an encoded packet decodes, and no strict prefix of one does. */
  lemma PacketRigid(h: ChunkHeader, payload: seq<byte>, q: seq<byte>)
    requires Encode(h, payload).Some? && q != Encode(h, payload).value
    requires q <= Encode(h, payload).value || Encode(h, payload).value <= q
    ensures Decode(q) == None
  {
    var header := MarshalHeader(h);
    assert Encode(h, payload).value == Frame(header, payload) && h.length == |payload|;
    assert Printable(Members(h)) && 0 < |header| <= MAX_HEADER_SIZE;
    hide Encode, Decode, Frame, MarshalHeader, Members, Printable;
    if |q| >= FIXED_HEADER_SIZE + |header| {
      SameFrame(header, payload, q);
      DecodeFrame(h, q[FIXED_HEADER_SIZE + |header|..]);
    } else {
      LongerThan(header, payload);
      CutHeader(header, payload, q);
    }
  }

  lemma LongerThan(header: seq<byte>, payload: seq<byte>)
    requires |header| <= MAX_HEADER_SIZE
    ensures |Frame(header, payload)| == FIXED_HEADER_SIZE + |header| + |payload|
  {}

  // A packet cut inside its header is too short for the length it announces.
  lemma CutHeader(header: seq<byte>, payload: seq<byte>, q: seq<byte>)
    requires 0 < |header| <= MAX_HEADER_SIZE && q <= Frame(header, payload) && |q| < FIXED_HEADER_SIZE + |header|
    ensures Decode(q) == None
  {
    FrameParts(header, payload);
    hide Frame, UnmarshalHeader, FromBigEndian, BigEndian;
    if |q| >= FIXED_HEADER_SIZE {
      assert q[2..6] == Frame(header, payload)[2..6];
    }
  }

  // A packet that agrees with an encoded one through its header is a frame with another payload.
  lemma SameFrame(header: seq<byte>, payload: seq<byte>, q: seq<byte>)
    requires 0 < |header| <= MAX_HEADER_SIZE && |q| >= FIXED_HEADER_SIZE + |header|
    requires q <= Frame(header, payload) || Frame(header, payload) <= q
    ensures q == Frame(header, q[FIXED_HEADER_SIZE + |header|..])
    ensures q != Frame(header, payload) ==> |q[FIXED_HEADER_SIZE + |header|..]| != |payload|
  {}

  // ---------- packets fit the transport ----------

  function ChunkSizeFor(maxMessageSize: int): int {
    if maxMessageSize > 4096 then Min(TARGET_CHUNK_SIZE, maxMessageSize - 4096) else DEFAULT_CHUNK_SIZE
  }

  // randomID: lower-case hexadecimal or decimal digits.
  predicate PlainId(id: seq<Rune>) {
    0 < |id| <= 32 && forall i | 0 <= i < |id| :: 0x30 <= id[i] <= 0x39 || 0x61 <= id[i] <= 0x66
  }

  lemma {:induction false} PlainEscape(id: seq<Rune>)
    requires forall i | 0 <= i < |id| :: 0x30 <= id[i] <= 0x39 || 0x61 <= id[i] <= 0x66
    ensures |Escaped(id)| == |id|
  {
    if id != [] {
      PlainEscape(id[1..]);
      assert |EscapeRune(id[0])| == 1;
    }
  }

  lemma {:induction false} AsciiEscape(id: seq<Rune>)
    requires forall i | 0 <= i < |id| :: 0x41 <= id[i] <= 0x5A || 0x61 <= id[i] <= 0x7A
    ensures |Escaped(id)| == |id|
  {
    if id != [] {
      AsciiEscape(id[1..]);
      assert |EscapeRune(id[0])| == 1;
    }
  }

  lemma Pow10Of19()
    ensures Pow10(19) == 10_000_000_000_000_000_000
  {
    assert Pow10(2) == 100 && Pow10(4) == 10_000 && Pow10(6) == 1_000_000 && Pow10(8) == 100_000_000;
    assert Pow10(10) == 10_000_000_000 && Pow10(12) == 1_000_000_000_000;
    assert Pow10(14) == 100_000_000_000_000 && Pow10(16) == 10_000_000_000_000_000;
    assert Pow10(18) == 1_000_000_000_000_000_000;
  }

  lemma NumberLength(n: int)
    requires 0 <= n <= MAX_INT64
    ensures |PrintValue(Number(n))| <= 19
  {
    Pow10Of19();
    DecimalLength(n, 19);
  }

  lemma MemberLength(ms: seq<Member>)
    requires ms != [] && Printable(ms)
    ensures |PrintMembers(ms)| == |Quoted(ms[0].key)| + 1 + |PrintValue(ms[0].value)| + 1
      + if |ms| == 1 then 0 else |PrintMembers(ms[1..])|
  {}

  lemma KeyLength(s: string)
    requires forall i | 0 <= i < |s| :: 'a' <= s[i] <= 'z' || 'A' <= s[i] <= 'Z'
    ensures |Quoted(Runes(s))| == |s| + 2
  {
    AsciiEscape(Runes(s));
  }

  lemma KeyLengths()
    ensures |Quoted(TRANSFER_ID)| == 12 && |Quoted(INDEX)| == 7 && |Quoted(OFFSET)| == 8 && |Quoted(LENGTH)| == 8
  {
    hide Quoted;
    KeyLength("transferId"); KeyLength("index"); KeyLength("offset"); KeyLength("length");
  }

  lemma TailPrintable(ms: seq<Member>)
    requires ms != [] && Printable(ms)
    ensures Printable(ms[1..])
  {}

  // The printed length of a header by its parts.
  lemma HeaderParts(h: ChunkHeader)
    requires Printable(Members(h))
    ensures h.index >= 0 && h.offset >= 0 && h.length >= 0
    ensures |MarshalHeader(h)| == 9 + |Quoted(TRANSFER_ID)| + |Quoted(INDEX)| + |Quoted(OFFSET)| + |Quoted(LENGTH)|
      + |Quoted(h.transferId)| + |PrintValue(Number(h.index))| + |PrintValue(Number(h.offset))|
      + |PrintValue(Number(h.length))|
  {
    var ms := Members(h);
    assert ms[1].value.number == h.index && ms[2].value.number == h.offset && ms[3].value.number == h.length;
    var ms1 := ms[1..];
    var ms2 := ms1[1..];
    var ms3 := ms2[1..];
    TailPrintable(ms); TailPrintable(ms1); TailPrintable(ms2);
    assert ms1[0] == ms[1] && ms2[0] == ms[2] && ms3[0] == ms[3];
    hide PrintMembers, Quoted, Decimal, Printable;
    MemberLength(ms); MemberLength(ms1); MemberLength(ms2); MemberLength(ms3);
  }

  predicate Alphanumeric(s: string)
  {
    forall i | 0 <= i < |s| ::
      s[i] as int < 128 && ('0' <= s[i] <= '9' || 'A' <= s[i] <= 'Z' || 'a' <= s[i] <= 'z')
  }

  // The characters of s as bytes, in quotation marks.
  function InQuotes(s: string): seq<byte>
    requires Alphanumeric(s)
  {
    [0x22] + seq(|s|, i requires 0 <= i < |s| => s[i] as int) + [0x22]
  }

  // "key":value and what follows.
  function KeyValue(key: string, value: seq<byte>, more: seq<byte>): seq<byte>
    requires Alphanumeric(key)
  {
    InQuotes(key) + [0x3A] + value + more
  }

  lemma {:induction false} EscapedText(s: string)
    requires Alphanumeric(s)
    ensures Escaped(Runes(s)) == seq(|s|, i requires 0 <= i < |s| => s[i] as int)
  {
    if s != "" {
      EscapedText(s[1..]);
      assert Runes(s)[1..] == Runes(s[1..]);
      assert EscapeRune(Runes(s)[0]) == [s[0] as int];
    }
  }

  lemma QuotedText(s: string)
    requires Alphanumeric(s)
    ensures Quoted(Runes(s)) == InQuotes(s)
  {
    EscapedText(s);
  }

  lemma MemberText(ms: seq<Member>, key: string)
    requires ms != [] && Printable(ms) && Alphanumeric(key) && ms[0].key == Runes(key)
    ensures ms[0].value.Number? ==> 0 <= ms[0].value.number
    ensures |ms| > 1 ==> Printable(ms[1..])
    ensures PrintMembers(ms) ==
      KeyValue(key, PrintValue(ms[0].value), if |ms| == 1 then [0x7D] else [0x2C] + PrintMembers(ms[1..]))
  {
    QuotedText(key);
    hide Quoted, Runes, InQuotes, Alphanumeric, PrintValue;
  }

  lemma FourMembersText(ms: seq<Member>, k0: string, k1: string, k2: string, k3: string)
    requires |ms| == 4 && Printable(ms)
    requires Alphanumeric(k0) && Alphanumeric(k1) && Alphanumeric(k2) && Alphanumeric(k3)
    requires ms[0].key == Runes(k0) && ms[1].key == Runes(k1) && ms[2].key == Runes(k2) && ms[3].key == Runes(k3)
    ensures forall i | 0 <= i < 4 && ms[i].value.Number? :: ms[i].value.number >= 0
    ensures PrintMembers(ms) ==
      KeyValue(k0, PrintValue(ms[0].value),
      [0x2C] + KeyValue(k1, PrintValue(ms[1].value),
      [0x2C] + KeyValue(k2, PrintValue(ms[2].value),
      [0x2C] + KeyValue(k3, PrintValue(ms[3].value), [0x7D]))))
  {
    hide PrintMembers, Runes, KeyValue, PrintValue, Alphanumeric;
    var ms1 := ms[1..];
    var ms2 := ms1[1..];
    var ms3 := ms2[1..];
    assert ms1[0] == ms[1] && ms2[0] == ms[2] && ms3[0] == ms[3];
    MemberText(ms, k0);
    MemberText(ms1, k1);
    MemberText(ms2, k2);
    MemberText(ms3, k3);
  }

  /** A header with an alphanumeric id prints as encoding/json prints it:
      {"transferId":"<id>","index":<index>,"offset":<offset>,"length":<length>}. */
  lemma HeaderText(h: ChunkHeader, id: string)
    requires Printable(Members(h)) && Alphanumeric(id) && h.transferId == Runes(id)
    ensures h.index >= 0 && h.offset >= 0 && h.length >= 0
    ensures Alphanumeric("transferId") && Alphanumeric("index") && Alphanumeric("offset") && Alphanumeric("length")
    ensures MarshalHeader(h) ==
      [0x7B] + KeyValue("transferId", InQuotes(id),
      [0x2C] + KeyValue("index", Decimal(h.index),
      [0x2C] + KeyValue("offset", Decimal(h.offset),
      [0x2C] + KeyValue("length", Decimal(h.length), [0x7D]))))
  {
    hide KeyValue, PrintMembers, Runes, Quoted, InQuotes, Decimal;
    var ms := Members(h);
    assert ms[1].value.number == h.index && ms[2].value.number == h.offset && ms[3].value.number == h.length;
    QuotedText(id);
    FourMembersText(ms, "transferId", "index", "offset", "length");
  }

  /** A generated id and three int64 numbers print in at most 135 bytes. */
  lemma HeaderLength(h: ChunkHeader)
    requires Printable(Members(h)) && PlainId(h.transferId)
    ensures 0 < |MarshalHeader(h)| <= 135
  {
    HeaderParts(h);
    PlainEscape(h.transferId);
    hide MarshalHeader, PrintValue, Decimal;
    KeyLengths();
    assert Members(h)[1].value.number <= MAX_INT64 && Members(h)[2].value.number <= MAX_INT64
      && Members(h)[3].value.number <= MAX_INT64;
    NumberLength(h.index); NumberLength(h.offset); NumberLength(h.length);
  }

  lemma PacketLength(h: ChunkHeader, payload: seq<byte>)
    requires ValidHeader(h, payload) && PlainId(h.transferId)
    ensures Encode(h, payload).Some?
    ensures FIXED_HEADER_SIZE + |payload| < |Encode(h, payload).value| <= 141 + |payload|
  {
    hide MarshalHeader, PlainId, BigEndian;
    assert Printable(Members(h));
    hide Printable, Members;
    HeaderLength(h);
    LongerThan(MarshalHeader(h), payload);
  }

  /** With a negotiated maximum above 4096 every chunk's packet fits it; a full chunk's packet fits only then.
      Every packet stays below the send queue's high-water mark. */
  lemma PacketFits(maxMessageSize: int, h: ChunkHeader, payload: seq<byte>)
    requires 0 <= maxMessageSize < 0x1_0000_0000
    requires ValidHeader(h, payload) && PlainId(h.transferId) && |payload| <= ChunkSizeFor(maxMessageSize)
    ensures Encode(h, payload).Some?
    ensures var size := |Encode(h, payload).value|;
      && size <= MAX_BUFFERED_AMOUNT
      && (maxMessageSize > 4096 ==> size <= maxMessageSize)
      && (|payload| == ChunkSizeFor(maxMessageSize) && maxMessageSize > 4096 ==>
            |payload| == 65536 || size > maxMessageSize - 4096)
      && (|payload| == ChunkSizeFor(maxMessageSize) ==> (size <= maxMessageSize <==> maxMessageSize > 4096))
  {
    hide Encode, PlainId;
    PacketLength(h, payload);
  }
}
