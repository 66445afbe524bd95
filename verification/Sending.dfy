/** The sender of transfer/manager.go: its two counters, its window, and the chunks it emits. */
module Sending {
  import opened Wrappers
  import opened Chunking
  import opened Disks
  import opened Receiving
  import opened ReceiveInvariant
  import opened Sessions

  const MAX_UNACKNOWLEDGED := 8 * 1024 * 1024

  // A resume offset the sender cannot use makes it start over.
  function UsableOffset(offset: int, size: int, chunkSize: int): int
    requires chunkSize > 0
  {
    if offset < 0 || offset > size || offset % chunkSize != 0 then 0 else offset
  }

  // The metadata SendFile offers.
  function Offer(name: string, size: int, mime: string, chunkSize: int, lastModified: int, digest: string)
    : FileMetadata
  {
    FileMetadata(name, size, mime, chunkSize, TotalChunks(size, chunkSize), lastModified, digest, true, true, true)
  }

  datatype Outgoing = Outgoing(index: int, offset: int, data: seq<byte>)

  // io.ReadFull of the next want bytes of the file.
  function ReadFull(file: seq<byte>, offset: int, want: int): (data: seq<byte>)
    requires 0 <= offset && 0 <= want
    ensures |data| <= want && (|data| < want ==> offset + |data| >= |file|)
    ensures forall i | 0 <= i < |data| :: offset + i < |file| && data[i] == file[offset + i]
  {
    if offset >= |file| then [] else file[offset..Min(offset + want, |file|)]
  }

  // The chunks emitted up to the end, a full window, or the end of a shrunk file. The message handler may raise the
  // counter at any time: counter(i) is the value of received that is read before chunk i.
  function Stream(file: seq<byte>, size: int, chunkSize: int, counter: int -> int, offset: int, index: int)
    : seq<Outgoing>
    requires chunkSize > 0 && offset >= 0
    decreases size - offset
  {
    if offset >= size || offset - counter(index) >= MAX_UNACKNOWLEDGED then [] else
    var data := ReadFull(file, offset, Min(chunkSize, size - offset));
    if data == [] then [] else
    [Outgoing(index, offset, data)] + Stream(file, size, chunkSize, counter, offset + |data|, index + 1)
  }

  // Chunk i of an unchanged file.
  function TrueChunk(m: FileMetadata, file: seq<byte>, i: int): Outgoing
    requires Admissible(m) && |file| == m.size && 0 <= i < m.totalChunks
  {
    ChunkBounds(m, i);
    Outgoing(i, i * m.chunkSize, file[i * m.chunkSize..i * m.chunkSize + ChunkLen(m, i)])
  }

  function Bytes(chunks: seq<Outgoing>): seq<byte> {
    if chunks == [] then [] else chunks[0].data + Bytes(chunks[1..])
  }

  // The chunks are the true ones from chunk i on, each inside the window, up to the end or a full window.
  ghost predicate Tiles(m: FileMetadata, file: seq<byte>, counter: int -> int, i: int, out: seq<Outgoing>)
    requires Admissible(m) && |file| == m.size && 0 <= i <= m.totalChunks
  {
    && i + |out| <= m.totalChunks
    && (forall j | 0 <= j < |out| ::
          out[j] == TrueChunk(m, file, i + j) && Off(m, i + j) - counter(i + j) < MAX_UNACKNOWLEDGED)
    && (i + |out| == m.totalChunks || Off(m, i + |out|) - counter(i + |out|) >= MAX_UNACKNOWLEDGED)
    && 0 <= Off(m, i) <= Off(m, i + |out|) <= m.size
    && Bytes(out) == file[Off(m, i)..Off(m, i + |out|)]
  }

  /** From an unchanged file the emitted chunks are the true ones, in order and without gap, each inside the
      window; emission stops only at the end of the file or with the window full. */
  lemma {:induction false} StreamTiles(m: FileMetadata, file: seq<byte>, counter: int -> int, i: int)
    requires Admissible(m) && |file| == m.size && 0 <= i <= m.totalChunks
    ensures Off(m, i) >= 0 && Tiles(m, file, counter, i, Stream(file, m.size, m.chunkSize, counter, Off(m, i), i))
    decreases m.totalChunks - i
  {
    OffOrder(m, i, m.totalChunks);
    if i < m.totalChunks && Off(m, i) - counter(i) < MAX_UNACKNOWLEDGED {
      StreamStep(m, file, counter, i);
      StreamTiles(m, file, counter, i + 1);
      TilesStep(m, file, counter, i, Stream(file, m.size, m.chunkSize, counter, Off(m, i + 1), i + 1));
      hide Tiles, Off;
    } else {
      hide Off;
    }
  }

  lemma TilesStep(m: FileMetadata, file: seq<byte>, counter: int -> int, i: int, rest: seq<Outgoing>)
    requires Admissible(m) && |file| == m.size && 0 <= i < m.totalChunks
    requires Off(m, i) - counter(i) < MAX_UNACKNOWLEDGED && 0 <= Off(m, i) <= Off(m, i + 1) <= m.size
    requires TrueChunk(m, file, i).data == file[Off(m, i)..Off(m, i + 1)]
    requires Tiles(m, file, counter, i + 1, rest)
    ensures Tiles(m, file, counter, i, [TrueChunk(m, file, i)] + rest)
  {
    hide Off, Fits, ValidMetadata, TrueChunk;
    var out := [TrueChunk(m, file, i)] + rest;
    assert out[1..] == rest;
    forall j | 0 <= j < |out|
      ensures out[j] == TrueChunk(m, file, i + j) && Off(m, i + j) - counter(i + j) < MAX_UNACKNOWLEDGED
    {
      if j > 0 { assert out[j] == rest[j - 1]; }
    }
  }

  lemma StreamStep(m: FileMetadata, file: seq<byte>, counter: int -> int, i: int)
    requires Admissible(m) && |file| == m.size && 0 <= i < m.totalChunks
    requires Off(m, i) - counter(i) < MAX_UNACKNOWLEDGED
    ensures 0 <= Off(m, i) <= Off(m, i + 1) <= m.size
    ensures Stream(file, m.size, m.chunkSize, counter, Off(m, i), i) ==
      [TrueChunk(m, file, i)] + Stream(file, m.size, m.chunkSize, counter, Off(m, i + 1), i + 1)
    ensures TrueChunk(m, file, i).data == file[Off(m, i)..Off(m, i + 1)]
  {
    ChunkBounds(m, i);
    OffOrder(m, i, i + 1);
    hide Off, Fits, ValidMetadata;
  }

  /** Every true chunk passes the receiver's index, offset and length checks, without int64 overflow. */
  lemma TrueChunkPasses(c: Config, file: seq<byte>, i: int)
    requires Admissible(c.file) && |file| == c.file.size && 0 <= i < c.file.totalChunks
    ensures var o := TrueChunk(c.file, file, i);
      && WellFormed(c, Chunk(c.id, o.index, o.offset, |o.data|, o.data))
      && 0 <= i * c.file.chunkSize && o.offset + |o.data| <= c.file.size <= MAX_INT64
      && c.file.size + c.file.chunkSize - 1 <= MAX_INT64
  {
    ChunkBounds(c.file, i);
    ProductOrder(0, i, c.file.chunkSize);
  }

  /** Whatever offset the receiver offers, the sender takes it: both start at the same chunk, and without a
      full window the sender emits exactly the chunks from there on, whose bytes are the rest of the file. */
  lemma SidesAgree(c: Config, found: Disk, file: seq<byte>, counter: int -> int)
    requires Admissible(c.file) && |file| == c.file.size
    requires NeverFull(c.file, counter, Offered(c, found) / c.file.chunkSize)
    ensures var m, n := c.file, Offered(c, found);
      && UsableOffset(n, m.size, m.chunkSize) == n
      && 0 <= n / m.chunkSize <= m.totalChunks && 0 <= n <= m.size && Off(m, n / m.chunkSize) == n
      && (var out := Stream(file, m.size, m.chunkSize, counter, n, n / m.chunkSize);
          && |out| == m.totalChunks - n / m.chunkSize
          && Bytes(out) == file[n..])
  {
    var m, n := c.file, Offered(c, found);
    Aligned(found, m);
    AlignedOffset(m, 0);
    WholeStream(m, file, counter, n, n / m.chunkSize);
    hide Off, Fits, ValidMetadata, Offered, Stream;
  }

  // From chunk first on, every read of the counter finds the window open.
  ghost predicate NeverFull(m: FileMetadata, counter: int -> int, first: int)
  {
    forall i | first <= i < m.totalChunks :: Off(m, i) - counter(i) < MAX_UNACKNOWLEDGED
  }

  lemma WholeStream(m: FileMetadata, file: seq<byte>, counter: int -> int, n: int, i: int)
    requires Admissible(m) && |file| == m.size && 0 <= i <= m.totalChunks && Off(m, i) == n && NeverFull(m, counter, i)
    ensures 0 <= n <= m.size
    ensures var out := Stream(file, m.size, m.chunkSize, counter, n, i);
      |out| == m.totalChunks - i && Bytes(out) == file[n..]
  {
    OffEnds(m);
    StreamTiles(m, file, counter, i);
    var last := i + |Stream(file, m.size, m.chunkSize, counter, n, i)|;
    assert last == m.totalChunks || Off(m, last) - counter(last) >= MAX_UNACKNOWLEDGED;
    hide Off, Fits, ValidMetadata, Stream, TrueChunk, Bytes;
    assert last == m.totalChunks;
    assert file[n..m.size] == file[n..];
  }

  /** Whatever a receiver answers, the sender sends the rest of the file from a boundary inside it, and the whole file
      after any other answer. */
  lemma AnyAnswer(m: FileMetadata, file: seq<byte>, counter: int -> int, answer: int)
    requires Admissible(m) && |file| == m.size && NeverFull(m, counter, 0)
    ensures var n := UsableOffset(answer, m.size, m.chunkSize);
      && n >= 0
      && Bytes(Stream(file, m.size, m.chunkSize, counter, n, n / m.chunkSize)) ==
           if 0 <= answer <= m.size && answer % m.chunkSize == 0 then file[answer..] else file
  {
    var n := UsableOffset(answer, m.size, m.chunkSize);
    AlignedOffset(m, 0);
    AlignedOffset(m, n);
    WholeStream(m, file, counter, n, n / m.chunkSize);
    hide Off, Fits, ValidMetadata, Stream, Bytes;
    assert file[0..] == file;
  }

  // sendState with the streaming variables of SendFile.
  class FileSender {
    const file: seq<byte>
    const size: int
    const chunkSize: int

    var acked: int
    var received: int
    var offset: int
    var index: int
    var token: bool            // the one slot of the acks channel
    var sent: seq<Outgoing>

    ghost predicate Valid()
      reads this
    {
      chunkSize > 0 && 0 <= offset
    }

    constructor (file: seq<byte>, size: int, chunkSize: int)
      requires chunkSize > 0
      ensures Valid() && this.file == file && this.size == size && this.chunkSize == chunkSize
      ensures acked == received == offset == index == 0 && !token && sent == []
    {
      this.file, this.size, this.chunkSize := file, size, chunkSize;
      acked, received, offset, index, token, sent := 0, 0, 0, 0, false, [];
    }

    // The receiver's answer fixes where streaming starts.
    method Accept(answer: int)
      requires Valid()
      modifies this
      ensures Valid() && offset == acked == received == UsableOffset(answer, size, chunkSize)
      ensures 0 <= answer <= size && answer % chunkSize == 0 ==> offset == answer
      ensures answer < 0 || answer > size || answer % chunkSize != 0 ==> offset == 0
      ensures index == offset / chunkSize && token == old(token) && sent == old(sent)
    {
      var start := answer;
      if start < 0 || start > size || start % chunkSize != 0 {
        start := 0;
      }
      offset, acked, received := start, start, start;
      index := start / chunkSize;
    }

    // The file_ack case of handleControl.
    method HandleFileAck(n: int)
      modifies this`acked, this`received, this`token
      ensures acked == Max(old(acked), n) && received == Max(old(received), n) && token
    {
      if n > acked { acked := n; }
      if n > received { received := n; }
      token := true;
    }

    // The file_progress case of handleControl: it never moves acked.
    method HandleFileProgress(n: int)
      modifies this`received, this`token
      ensures received == Max(old(received), n) && token
    {
      if n > received { received := n; }
      token := true;
    }

    // The streaming loop between two waits. The message handler runs beside it: before chunk i the counter has come
    // to counter(i).
    method StreamChunks(counter: int -> int)
      requires Valid() && forall i, j | index <= i <= j :: received <= counter(i) <= counter(j)
      modifies this`offset, this`index, this`received, this`sent
      ensures Valid() && old(received) <= received
      ensures sent == old(sent) + Stream(file, size, chunkSize, counter, old(offset), old(index))
      ensures index == old(index) + |sent| - |old(sent)|
      ensures Stream(file, size, chunkSize, counter, offset, index) == []
    {
      hide ReadFull;
      ghost var all := sent + Stream(file, size, chunkSize, counter, offset, index);
      while offset < size
        invariant Valid() && index >= old(index) && old(received) <= received
        invariant sent + Stream(file, size, chunkSize, counter, offset, index) == all
        invariant index - |sent| == old(index) - |old(sent)|
        decreases size - offset
      {
        received := counter(index);
        if offset - received >= MAX_UNACKNOWLEDGED {
          break;
        }
        var want := Min(chunkSize, size - offset);
        var data := ReadFull(file, offset, want);
        if data == [] {
          break;
        }
        Emitted(sent, Outgoing(index, offset, data),
                Stream(file, size, chunkSize, counter, offset + |data|, index + 1));
        sent := sent + [Outgoing(index, offset, data)];
        offset := offset + |data|;
        index := index + 1;
      }
    }
  }

  lemma Emitted(sent: seq<Outgoing>, o: Outgoing, rest: seq<Outgoing>)
    ensures sent + ([o] + rest) == (sent + [o]) + rest
  {}
}
