/** The chunks of SendFile on the wire: from the file to a packet and back to what the receiver checks. */
module Carriage {
  import opened Wrappers
  import opened Chunking
  import opened Json
  import opened Packets
  import opened Sending

  // The header SendFile writes for chunk i of the file.
  function HeaderOf(id: seq<Rune>, o: Outgoing): ChunkHeader
  {
    ChunkHeader(id, o.index, o.offset, |o.data|)
  }

  /** Every chunk of an admissible file, of the chunk size chosen for the negotiated maximum, is encoded; its packet
      decodes to exactly its header and bytes, fits the maximum when that is above 4096, and never exceeds what the
      send queue accepts. */
  lemma ChunkTravels(maxMessageSize: int, id: seq<Rune>, m: FileMetadata, file: seq<byte>, i: int)
    requires 0 <= maxMessageSize < 0x1_0000_0000 && PlainId(id)
    requires Admissible(m) && m.chunkSize == ChunkSizeFor(maxMessageSize) && |file| == m.size && 0 <= i < m.totalChunks
    ensures var o := TrueChunk(m, file, i); var packet := Encode(HeaderOf(id, o), o.data);
      && packet.Some?
      && Decode(packet.value) == Some((HeaderOf(id, o), o.data))
      && |packet.value| <= MAX_BUFFERED_AMOUNT
      && (maxMessageSize > 4096 ==> |packet.value| <= maxMessageSize)
  {
    ChunkBounds(m, i);
    IndexBelowSize(i, m.chunkSize);
    var o := TrueChunk(m, file, i);
    PacketFits(maxMessageSize, HeaderOf(id, o), o.data);
    PacketRoundTrip(HeaderOf(id, o), o.data);
  }

  lemma IndexBelowSize(i: int, chunkSize: int)
    requires 0 <= i && 0 < chunkSize
    ensures i <= i * chunkSize
  {}
}
