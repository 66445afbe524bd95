/** How a file is cut into chunks (protocol/protocol.go), in int64 arithmetic. */
module Chunking {
  import opened Wrappers

  const MAX_INT64: int := 0x7FFF_FFFF_FFFF_FFFF
  const TWO_TO_64: int := 0x1_0000_0000_0000_0000

  datatype FileMetadata = FileMetadata(
    name: string, size: int, mime: string, chunkSize: int, totalChunks: int,
    lastModified: int, sha256: string, commitAck: bool, progressAck: bool, resume: bool)

  // int64 addition and subtraction wrap around.
  function Wrap64(x: int): int { (x + MAX_INT64 + 1) % TWO_TO_64 - MAX_INT64 - 1 }

  // Go's division of signed integers truncates toward zero.
  function TruncDiv(a: int, b: int): int
    requires b > 0
  {
    if a >= 0 then a / b else -((-a) / b)
  }

  function TotalChunks(size: int, chunkSize: int): int {
    if size <= 0 || chunkSize <= 0 then 0 else TruncDiv(Wrap64(size + chunkSize - 1), chunkSize)
  }

  // n chunks of the given size cover a file of the given size, and n - 1 do not.
  predicate Covers(n: int, size: int, chunkSize: int) {
    (n - 1) * chunkSize < size <= n * chunkSize
  }

  // The rounded-up sum of TotalChunks stays inside int64.
  predicate Fits(m: FileMetadata) { m.size + m.chunkSize - 1 <= MAX_INT64 }

  /** TotalChunks counts the chunks of a file exactly when its rounding sum does not wrap. */
  lemma TotalChunksExact(size: int, chunkSize: int)
    requires 0 < size <= MAX_INT64 && 0 < chunkSize <= MAX_INT64
    ensures Covers(TotalChunks(size, chunkSize), size, chunkSize) <==> size + chunkSize - 1 <= MAX_INT64
    ensures size + chunkSize - 1 > MAX_INT64 ==> TotalChunks(size, chunkSize) <= 0
  {
    var sum := size + chunkSize - 1;
    var n := TotalChunks(size, chunkSize);
    if sum <= MAX_INT64 {
      assert Wrap64(sum) == sum;
      DivFacts(sum, chunkSize);
      assert (n - 1) * chunkSize == n * chunkSize - chunkSize;
    } else {
      assert Wrap64(sum) == sum - TWO_TO_64 < 0;
      DivFacts(TWO_TO_64 - sum, chunkSize);
      assert n <= 0;
      NonPositiveProduct(n, chunkSize);
    }
  }

  lemma DivFacts(a: int, b: int)
    requires a >= 0 && b > 0
    ensures a / b >= 0 && (a / b) * b <= a < (a / b) * b + b
  {}

  lemma NonPositiveProduct(n: int, c: int)
    requires n <= 0 < c
    ensures n * c <= 0
  {}

  predicate ValidSha256(s: string) {
    |s| == 64 && forall i | 0 <= i < |s| :: '0' <= s[i] <= '9' || 'a' <= s[i] <= 'f' || 'A' <= s[i] <= 'F'
  }

  // What validFileMetadata admits; sizes are int64 values.
  predicate ValidMetadata(m: FileMetadata) {
    && m.name != "" && |m.name| <= 255
    && 0 <= m.size <= MAX_INT64
    && 0 < m.chunkSize <= 1024 * 1024
    && m.totalChunks == TotalChunks(m.size, m.chunkSize)
    && (m.sha256 == "" || ValidSha256(m.sha256))
  }

  // Valid metadata whose chunk count did not wrap.
  predicate Admissible(m: FileMetadata) { ValidMetadata(m) && Fits(m) }

  // Where chunk i starts; chunk TotalChunks "starts" at the end of the file.
  function Off(m: FileMetadata, i: int): int { Min(i * m.chunkSize, m.size) }

  function ChunkLen(m: FileMetadata, i: int): int { Min(m.chunkSize, m.size - i * m.chunkSize) }

  /** Chunk i lies inside the file and ends where chunk i + 1 starts; only the last reaches the end. */
  lemma ChunkBounds(m: FileMetadata, i: int)
    requires Admissible(m) && 0 <= i < m.totalChunks
    ensures Off(m, i) == i * m.chunkSize < m.size
    ensures 0 < ChunkLen(m, i) <= m.chunkSize
    ensures Off(m, i + 1) == Off(m, i) + ChunkLen(m, i) <= m.size
    ensures Off(m, i + 1) == m.size <==> i + 1 == m.totalChunks
    ensures i + 1 < m.totalChunks ==> ChunkLen(m, i) == m.chunkSize
  {
    TotalChunksExact(m.size, m.chunkSize);
    ProductOrder(i, m.totalChunks - 1, m.chunkSize);
    assert (i + 1) * m.chunkSize == i * m.chunkSize + m.chunkSize;
    if i + 1 < m.totalChunks {
      ProductOrder(i + 1, m.totalChunks - 1, m.chunkSize);
    } else {
      assert (i + 1) * m.chunkSize == m.totalChunks * m.chunkSize;
    }
  }

  lemma ProductOrder(i: int, j: int, c: int)
    requires i <= j && 0 < c
    ensures i * c <= j * c
  {}

  lemma OffEnds(m: FileMetadata)
    requires Admissible(m)
    ensures Off(m, 0) == 0 && Off(m, m.totalChunks) == m.size && 0 <= m.totalChunks
    ensures m.totalChunks == 0 <==> m.size == 0
  {}

  lemma OffOrder(m: FileMetadata, i: int, j: int)
    requires Admissible(m) && 0 <= i <= j <= m.totalChunks
    ensures 0 <= Off(m, i) <= Off(m, j) <= m.size
    ensures Off(m, i) == Off(m, j) ==> i == j
    ensures Off(m, j) == m.size <==> j == m.totalChunks
    decreases j - i
  {
    OffEnds(m);
    ProductOrder(0, i, m.chunkSize);
    if i < j {
      ChunkBounds(m, i);
      OffOrder(m, i + 1, j);
    } else if j < m.totalChunks {
      ChunkBounds(m, j);
    }
  }

  /** A resume offset on a chunk boundary names one chunk index, and the offset is where it starts. */
  lemma AlignedOffset(m: FileMetadata, offset: int)
    requires Admissible(m) && 0 <= offset <= m.size && offset % m.chunkSize == 0
    ensures 0 <= offset / m.chunkSize <= m.totalChunks
    ensures Off(m, offset / m.chunkSize) == offset
  {}

  // Total length of the chunks whose index is in s and below n.
  ghost function Held(m: FileMetadata, s: set<int>, n: int): int
    decreases n
  {
    if n <= 0 then 0 else Held(m, s, n - 1) + if n - 1 in s then ChunkLen(m, n - 1) else 0
  }

  lemma {:induction false} HeldAdd(m: FileMetadata, s: set<int>, i: int, n: int)
    requires i !in s && 0 <= i
    ensures Held(m, s + {i}, n) == Held(m, s, n) + if i < n then ChunkLen(m, i) else 0
    decreases n
  {
    if n > 0 { HeldAdd(m, s, i, n - 1); }
  }

  lemma {:induction false} HeldRemove(m: FileMetadata, s: set<int>, i: int, n: int)
    requires i in s && 0 <= i < n
    ensures Held(m, s - {i}, n) == Held(m, s, n) - ChunkLen(m, i)
  {
    assert s == (s - {i}) + {i};
    HeldAdd(m, s - {i}, i, n);
  }

  lemma {:induction false} HeldEmpty(m: FileMetadata, n: int)
    ensures Held(m, {}, n) == 0
    decreases n
  {
    if n > 0 { HeldEmpty(m, n - 1); }
  }

  /** Chunks with indices in [lo, hi) hold no more bytes than the file has between lo and hi. */
  lemma {:induction false} HeldBound(m: FileMetadata, s: set<int>, lo: int, hi: int, n: int)
    requires Admissible(m) && 0 <= lo <= hi <= m.totalChunks && 0 <= n <= m.totalChunks
    requires forall i | i in s :: lo <= i < hi
    ensures 0 <= Held(m, s, n) <= if n <= lo then 0 else Off(m, Min(n, hi)) - Off(m, lo)
    decreases n
  {
    OffOrder(m, lo, lo);
    if n > 0 {
      HeldBound(m, s, lo, hi, n - 1);
      ChunkBounds(m, n - 1);
      if lo < n <= hi { OffOrder(m, lo, n); }
      if lo < n { OffOrder(m, lo, Min(n, hi)); }
    }
  }
}
