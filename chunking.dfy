/**
 * The scrape-result router and chunker of the Kotlin agent service
 * (`processScrapeResults`), as functions over values. A result that is not
 * zipped, or whose zipped content is shorter than the chunk size, travels as
 * one non-chunked message; any other result travels on the chunked stream as a
 * header, the chunks read from a `ByteArrayInputStream` into one reused
 * buffer, and a summary.
 *
 * The CRC32 checksum is kept uninterpreted: a checksum value is the history
 * of updates that produced it, so two checksums are equal exactly when the
 * same buffers were absorbed in the same order.
 */
module Chunking {

  newtype byte = x: int | 0 <= x < 256

  datatype ScrapeResults = ScrapeResults(
    scrapeId: int,
    zipped: bool,
    contentAsText: string,
    contentAsZipped: seq<byte>)

  /** A fresh `CRC32`, or one after `update(buffer, 0, buffer.size)`. */
  datatype Checksum = Crc32Initial | Crc32Update(prior: Checksum, buffer: seq<byte>)

  /** Messages of the chunked stream. A chunk carries the whole buffer. */
  datatype ChunkedMsg =
    | Header(results: ScrapeResults)
    | Chunk(scrapeId: int, chunkCount: int, readByteCount: int, checksum: Checksum, bytes: seq<byte>)
    | Summary(scrapeId: int, totalChunkCount: int, totalByteCount: int, checksum: Checksum)

  /** A message of the non-chunked stream. */
  datatype NonChunkedMsg = ScrapeResponseMsg(results: ScrapeResults)

  /** What the read loop leaves behind: the chunks it sent and its three accumulators. */
  datatype ChunkRun = ChunkRun(chunks: seq<ChunkedMsg>, totalChunkCount: int, totalByteCount: int, checksum: Checksum)

  /**
   * `ByteArrayInputStream.read(b)` with `available` bytes left to read and a
   * buffer of `bufLen` bytes: -1 once nothing is left, otherwise the number of
   * bytes copied, which is 0 only for an empty buffer.
   */
  function ReadCount(available: nat, bufLen: nat): (n: int)
    ensures n == -1 <==> available == 0
    ensures n >= 0 ==> n <= bufLen && n <= available
    ensures n > 0 <==> available > 0 && bufLen > 0
    ensures 0 <= n < bufLen ==> n == available
  {
    if available == 0 then -1
    else if bufLen <= available then bufLen
    else available
  }

  /**
   * The chunk loop over the bytes `rest` not read yet, with the buffer's
   * current contents, the chunk and byte counters and the checksum so far.
   * Each read overwrites only the front of the buffer, and the checksum
   * absorbs the whole buffer.
   */
  function ChunkLoop(id: int, rest: seq<byte>, buffer: seq<byte>, count: int, total: int, crc: Checksum): ChunkRun
    decreases |rest|
  {
    var n := ReadCount(|rest|, |buffer|);
    if n <= 0 then ChunkRun([], count, total, crc)
    else
      var filled := rest[..n] + buffer[n..];
      var crc' := Crc32Update(crc, filled);
      var later := ChunkLoop(id, rest[n..], filled, count + 1, total + n, crc');
      ChunkRun([Chunk(id, count + 1, n, crc', filled)] + later.chunks,
               later.totalChunkCount, later.totalByteCount, later.checksum)
  }

  /** A freshly allocated `ByteArray(size)`. */
  function Zeros(size: nat): (z: seq<byte>)
    ensures |z| == size && forall i :: 0 <= i < size ==> z[i] == 0
  {
    if size == 0 then [] else Zeros(size - 1) + [0]
  }

  /** The loop as it starts for one result: fresh stream, fresh buffer, zeroed counters, fresh CRC32. */
  function ChunksOf(id: int, data: seq<byte>, size: nat): ChunkRun {
    ChunkLoop(id, data, Zeros(size), 0, 0, Crc32Initial)
  }

  /** Header, chunks, summary, in this order, for one result. */
  function ChunkedMessagesFor(r: ScrapeResults, size: nat): seq<ChunkedMsg> {
    var run := ChunksOf(r.scrapeId, r.contentAsZipped, size);
    [Header(r)] + run.chunks + [Summary(r.scrapeId, run.totalChunkCount, run.totalByteCount, run.checksum)]
  }

  /** The routing decision. */
  predicate GoesChunked(r: ScrapeResults, size: nat) {
    r.zipped && |r.contentAsZipped| >= size
  }

  /** What the results put on the non-chunked stream, in order. */
  function NonChunkedOf(rs: seq<ScrapeResults>, size: nat): seq<NonChunkedMsg>
    decreases |rs|
  {
    if rs == [] then []
    else
      var last := rs[|rs| - 1];
      NonChunkedOf(rs[..|rs| - 1], size) + (if GoesChunked(last, size) then [] else [ScrapeResponseMsg(last)])
  }

  /** What the results put on the chunked stream, in order. */
  function ChunkedOf(rs: seq<ScrapeResults>, size: nat): seq<ChunkedMsg>
    decreases |rs|
  {
    if rs == [] then []
    else
      var last := rs[|rs| - 1];
      ChunkedOf(rs[..|rs| - 1], size) + (if GoesChunked(last, size) then ChunkedMessagesFor(last, size) else [])
  }

  // ---------------------------------------------------------------------------
  // Reading the chunks back

  /** The first `readByteCount` bytes of a chunk; nothing for other messages. */
  function Payload(m: ChunkedMsg): seq<byte> {
    if m.Chunk? && 0 <= m.readByteCount <= |m.bytes| then m.bytes[..m.readByteCount] else []
  }

  /** The receiver's reassembly: the chunks' payloads concatenated. */
  function Reassemble(ms: seq<ChunkedMsg>): seq<byte> {
    if ms == [] then [] else Payload(ms[0]) + Reassemble(ms[1..])
  }

  /** The sum of the chunks' `readByteCount`. */
  function SumRead(ms: seq<ChunkedMsg>): int {
    if ms == [] then 0 else (if ms[0].Chunk? then ms[0].readByteCount else 0) + SumRead(ms[1..])
  }

  /** `crc` after absorbing each chunk's whole buffer, in order. */
  function Absorb(crc: Checksum, ms: seq<ChunkedMsg>): Checksum
    decreases |ms|
  {
    if ms == [] then crc
    else Absorb(if ms[0].Chunk? then Crc32Update(crc, ms[0].bytes) else crc, ms[1..])
  }

  /** Counts the header messages: one per result sent chunked. */
  function Headers(ms: seq<ChunkedMsg>): nat {
    if ms == [] then 0 else (if ms[0].Header? then 1 else 0) + Headers(ms[1..])
  }

  // ---------------------------------------------------------------------------
  // Properties of the chunk loop. Each induction is split into the lemma and
  // its step, which receives the property of the rest of the run.

  /** One turn of the loop: a positive read sends one chunk, and the rest of the run follows it. */
  lemma ChunkLoopUnfold(id: int, rest: seq<byte>, buffer: seq<byte>, count: int, total: int, crc: Checksum)
    returns (c: ChunkedMsg, later: ChunkRun)
    requires ReadCount(|rest|, |buffer|) > 0
    ensures var n := ReadCount(|rest|, |buffer|);
            var filled := rest[..n] + buffer[n..];
            && c == Chunk(id, count + 1, n, Crc32Update(crc, filled), filled)
            && later == ChunkLoop(id, rest[n..], filled, count + 1, total + n, Crc32Update(crc, filled))
            && ChunkLoop(id, rest, buffer, count, total, crc)
               == ChunkRun([c] + later.chunks, later.totalChunkCount, later.totalByteCount, later.checksum)
  {
    var n := ReadCount(|rest|, |buffer|);
    var filled := rest[..n] + buffer[n..];
    c := Chunk(id, count + 1, n, Crc32Update(crc, filled), filled);
    later := ChunkLoop(id, rest[n..], filled, count + 1, total + n, Crc32Update(crc, filled));
  }

  /** Chunks carry the result's id and are numbered on from the counter, one apart. */
  predicate NumberedFrom(id: int, count: int, run: ChunkRun) {
    && run.totalChunkCount == count + |run.chunks|
    && forall k :: 0 <= k < |run.chunks| ==>
         run.chunks[k].Chunk? && run.chunks[k].scrapeId == id && run.chunks[k].chunkCount == count + k + 1
  }

  lemma {:induction false} ChunkNumbering(id: int, rest: seq<byte>, buffer: seq<byte>, count: int, total: int,
                                          crc: Checksum)
    ensures NumberedFrom(id, count, ChunkLoop(id, rest, buffer, count, total, crc))
    decreases |rest|
  {
    var n := ReadCount(|rest|, |buffer|);
    if n > 0 {
      var filled := rest[..n] + buffer[n..];
      ChunkNumbering(id, rest[n..], filled, count + 1, total + n, Crc32Update(crc, filled));
      var c, later := ChunkLoopUnfold(id, rest, buffer, count, total, crc);
      var chunks := [c] + later.chunks;
      assert forall k :: 1 <= k < |chunks| ==> chunks[k] == later.chunks[k - 1];
    }
  }

  /** Every chunk carries a whole buffer and reads between 1 and `size` bytes; only the last can be short. */
  predicate SizedChunks(size: int, chunks: seq<ChunkedMsg>) {
    && (forall k :: 0 <= k < |chunks| ==>
          chunks[k].Chunk? && |chunks[k].bytes| == size && 1 <= chunks[k].readByteCount <= size)
    && (forall k :: 0 <= k < |chunks| - 1 ==> chunks[k].readByteCount == size)
  }

  lemma {:induction false} ChunkSizes(id: int, rest: seq<byte>, buffer: seq<byte>, count: int, total: int,
                                      crc: Checksum)
    ensures SizedChunks(|buffer|, ChunkLoop(id, rest, buffer, count, total, crc).chunks)
    decreases |rest|
  {
    var n := ReadCount(|rest|, |buffer|);
    if n > 0 {
      var filled := rest[..n] + buffer[n..];
      ChunkSizes(id, rest[n..], filled, count + 1, total + n, Crc32Update(crc, filled));
      var c, later := ChunkLoopUnfold(id, rest, buffer, count, total, crc);
      var chunks := [c] + later.chunks;
      if n < |buffer| {
        // a short read takes everything that was left, so nothing follows it
        assert ReadCount(|rest[n..]|, |filled|) == -1;
        assert later.chunks == [];
      }
      assert forall k :: 1 <= k < |chunks| ==> chunks[k] == later.chunks[k - 1];
    }
  }

  /** The byte counter ends at the number of bytes there were to read, and so does the sum of the chunks' counts. */
  lemma {:induction false} ChunkByteCount(id: int, rest: seq<byte>, buffer: seq<byte>, count: int, total: int,
                                          crc: Checksum)
    requires |buffer| > 0
    ensures var run := ChunkLoop(id, rest, buffer, count, total, crc);
            run.totalByteCount == total + |rest| && SumRead(run.chunks) == |rest|
    decreases |rest|
  {
    var n := ReadCount(|rest|, |buffer|);
    if n > 0 {
      var filled := rest[..n] + buffer[n..];
      ChunkByteCount(id, rest[n..], filled, count + 1, total + n, Crc32Update(crc, filled));
      var c, later := ChunkLoopUnfold(id, rest, buffer, count, total, crc);
      assert ([c] + later.chunks)[1..] == later.chunks;
    }
  }

  /** Chunk by chunk, the payloads are consecutive non-empty slices of `rest` that reach its end. */
  predicate Covers(rest: seq<byte>, ms: seq<ChunkedMsg>)
    decreases |ms|
  {
    if ms == [] then rest == []
    else
      && ms[0].Chunk?
      && var n := ms[0].readByteCount;
         0 < n <= |rest| && Payload(ms[0]) == rest[..n] && Covers(rest[n..], ms[1..])
  }

  lemma {:induction false} ChunkCovers(id: int, rest: seq<byte>, buffer: seq<byte>, count: int, total: int,
                                       crc: Checksum)
    requires |buffer| > 0
    ensures Covers(rest, ChunkLoop(id, rest, buffer, count, total, crc).chunks)
    decreases |rest|
  {
    var n := ReadCount(|rest|, |buffer|);
    if n > 0 {
      var filled := rest[..n] + buffer[n..];
      ChunkCovers(id, rest[n..], filled, count + 1, total + n, Crc32Update(crc, filled));
      var c, later := ChunkLoopUnfold(id, rest, buffer, count, total, crc);
      assert ([c] + later.chunks)[1..] == later.chunks;
      assert Payload(c) == rest[..n];
    }
  }

  /** Consecutive slices reaching the end reassemble to the whole. */
  lemma {:induction false} CoversReassemble(rest: seq<byte>, ms: seq<ChunkedMsg>)
    requires Covers(rest, ms)
    ensures Reassemble(ms) == rest
    decreases |ms|
  {
    if ms != [] {
      var n := ms[0].readByteCount;
      CoversReassemble(rest[n..], ms[1..]);
      assert rest == rest[..n] + rest[n..];
    }
  }

  /** The chunks' payloads, concatenated, are exactly the bytes there were to read. */
  lemma ChunkReassembly(id: int, rest: seq<byte>, buffer: seq<byte>, count: int, total: int, crc: Checksum)
    requires |buffer| > 0
    ensures Reassemble(ChunkLoop(id, rest, buffer, count, total, crc).chunks) == rest
  {
    ChunkCovers(id, rest, buffer, count, total, crc);
    CoversReassemble(rest, ChunkLoop(id, rest, buffer, count, total, crc).chunks);
  }

  /** The final checksum is the starting one after absorbing every chunk's whole buffer, in order. */
  lemma {:induction false} ChunkChecksumTotal(id: int, rest: seq<byte>, buffer: seq<byte>, count: int, total: int,
                                              crc: Checksum)
    ensures var run := ChunkLoop(id, rest, buffer, count, total, crc);
            run.checksum == Absorb(crc, run.chunks)
    decreases |rest|
  {
    var n := ReadCount(|rest|, |buffer|);
    if n > 0 {
      var filled := rest[..n] + buffer[n..];
      ChunkChecksumTotal(id, rest[n..], filled, count + 1, total + n, Crc32Update(crc, filled));
      var c, later := ChunkLoopUnfold(id, rest, buffer, count, total, crc);
      assert ([c] + later.chunks)[1..] == later.chunks;
    }
  }

  /** `next` carries the checksum of `prev` updated with `next`'s whole buffer. */
  predicate ChecksumChain(prev: ChunkedMsg, next: ChunkedMsg) {
    prev.Chunk? && next.Chunk? && next.checksum == Crc32Update(prev.checksum, next.bytes)
  }

  /**
   * Each chunk carries the checksum as it stood after absorbing that chunk's
   * whole buffer, and the final checksum is the last chunk's.
   */
  predicate ChecksumsChained(crc: Checksum, run: ChunkRun) {
    && (|run.chunks| == 0 ==> run.checksum == crc)
    && (|run.chunks| > 0 ==>
          && run.chunks[0].Chunk? && run.chunks[0].checksum == Crc32Update(crc, run.chunks[0].bytes)
          && run.chunks[|run.chunks| - 1].Chunk? && run.checksum == run.chunks[|run.chunks| - 1].checksum)
    && (forall k :: 0 < k < |run.chunks| ==> ChecksumChain(run.chunks[k - 1], run.chunks[k]))
  }

  lemma {:induction false} ChunkChecksum(id: int, rest: seq<byte>, buffer: seq<byte>, count: int, total: int,
                                         crc: Checksum)
    ensures ChecksumsChained(crc, ChunkLoop(id, rest, buffer, count, total, crc))
    decreases |rest|
  {
    var n := ReadCount(|rest|, |buffer|);
    if n > 0 {
      var filled := rest[..n] + buffer[n..];
      ChunkChecksum(id, rest[n..], filled, count + 1, total + n, Crc32Update(crc, filled));
      var c, later := ChunkLoopUnfold(id, rest, buffer, count, total, crc);
      var chunks := [c] + later.chunks;
      forall k | 0 < k < |chunks|
        ensures ChecksumChain(chunks[k - 1], chunks[k])
      {
        if k == 1 {
          assert chunks[0] == c && chunks[1] == later.chunks[0];
        } else {
          assert chunks[k - 1] == later.chunks[k - 2] && chunks[k] == later.chunks[k - 1];
        }
      }
      if |later.chunks| > 0 {
        assert chunks[|chunks| - 1] == later.chunks[|later.chunks| - 1];
      }
    }
  }

  /** `next` repeats the buffer `prev` past its own `readByteCount` bytes. */
  predicate RepeatsTail(prev: seq<byte>, next: ChunkedMsg) {
    && next.Chunk?
    && 0 <= next.readByteCount <= |next.bytes| == |prev|
    && next.bytes[next.readByteCount..] == prev[next.readByteCount..]
  }

  /** `next` repeats the buffer that chunk `prev` carried. */
  predicate StaleAfter(prev: ChunkedMsg, next: ChunkedMsg) {
    prev.Chunk? && RepeatsTail(prev.bytes, next)
  }

  /**
   * The reused buffer is only partly overwritten: past its `readByteCount`
   * bytes a chunk repeats the previous chunk's buffer (the initial buffer for
   * the first chunk). Only the last chunk can be short, so only it carries
   * such stale bytes.
   */
  predicate StaleTails(buffer: seq<byte>, chunks: seq<ChunkedMsg>) {
    && (|chunks| > 0 ==> RepeatsTail(buffer, chunks[0]))
    && (forall k :: 0 < k < |chunks| ==> StaleAfter(chunks[k - 1], chunks[k]))
  }

  lemma {:induction false} ChunkStaleTail(id: int, rest: seq<byte>, buffer: seq<byte>, count: int, total: int,
                                          crc: Checksum)
    ensures StaleTails(buffer, ChunkLoop(id, rest, buffer, count, total, crc).chunks)
    decreases |rest|
  {
    var n := ReadCount(|rest|, |buffer|);
    if n > 0 {
      var filled := rest[..n] + buffer[n..];
      ChunkStaleTail(id, rest[n..], filled, count + 1, total + n, Crc32Update(crc, filled));
      var c, later := ChunkLoopUnfold(id, rest, buffer, count, total, crc);
      var chunks := [c] + later.chunks;
      assert c.bytes[n..] == buffer[n..];
      forall k | 0 < k < |chunks|
        ensures StaleAfter(chunks[k - 1], chunks[k])
      {
        if k == 1 {
          assert chunks[0] == c && chunks[1] == later.chunks[0];
        } else {
          assert chunks[k - 1] == later.chunks[k - 2] && chunks[k] == later.chunks[k - 1];
        }
      }
    }
  }

  /**
   * The number of chunks is the number of bytes to read divided by the buffer
   * size, rounded up: they hold all of it, and one chunk fewer would not.
   */
  lemma {:induction false} ChunkCount(id: int, rest: seq<byte>, buffer: seq<byte>, count: int, total: int,
                                      crc: Checksum)
    requires |buffer| > 0
    ensures var c := |ChunkLoop(id, rest, buffer, count, total, crc).chunks|;
            (c - 1) * |buffer| < |rest| <= c * |buffer| && (c == 0 <==> rest == [])
    decreases |rest|
  {
    var n := ReadCount(|rest|, |buffer|);
    if n > 0 {
      var filled := rest[..n] + buffer[n..];
      ChunkCount(id, rest[n..], filled, count + 1, total + n, Crc32Update(crc, filled));
      var c, later := ChunkLoopUnfold(id, rest, buffer, count, total, crc);
      CeilStep(|rest|, n, |buffer|, |later.chunks|);
    }
  }

  /** One more chunk of `n` bytes, full unless it is the last, keeps the rounded-up count exact. */
  lemma CeilStep(rem: int, n: int, b: int, c: int)
    requires 0 < n <= b && n <= rem && (n < b ==> rem == n)
    requires (c - 1) * b < rem - n <= c * b && (c == 0 <==> rem - n == 0)
    ensures c * b < rem <= (c + 1) * b
  {
    assert (c + 1) * b == c * b + b;
    if c == 0 {
      assert c * b == 0;
    } else {
      assert (c - 1) * b == c * b - b;
    }
  }

  // ---------------------------------------------------------------------------
  // Properties of one result's chunked messages

  /**
   * A chunked result goes as a header, then chunks numbered 1..n, then a
   * summary whose chunk count is n and whose byte count is the zipped size;
   * the chunk payloads reassemble to the zipped content, and the summary
   * checksum has absorbed every chunk's whole buffer.
   */
  lemma ChunkedMessagesShape(r: ScrapeResults, size: nat)
    requires size > 0
    ensures var ms := ChunkedMessagesFor(r, size);
            var n := |ms| - 2;
            var chunks := ms[1..n + 1];
            && |ms| >= 2 && ms[0] == Header(r)
            && (n - 1) * size < |r.contentAsZipped| <= n * size
            && NumberedFrom(r.scrapeId, 0, ChunkRun(chunks, n, |r.contentAsZipped|, ms[n + 1].checksum))
            && SizedChunks(size, chunks)
            && SumRead(chunks) == |r.contentAsZipped|
            && Reassemble(chunks) == r.contentAsZipped
            && ms[n + 1] == Summary(r.scrapeId, n, |r.contentAsZipped|, Absorb(Crc32Initial, chunks))
  {
    var z := r.contentAsZipped;
    var run := ChunksOf(r.scrapeId, z, size);
    var ms := ChunkedMessagesFor(r, size);
    assert ms[1..|run.chunks| + 1] == run.chunks;
    ChunkNumbering(r.scrapeId, z, Zeros(size), 0, 0, Crc32Initial);
    ChunkSizes(r.scrapeId, z, Zeros(size), 0, 0, Crc32Initial);
    ChunkByteCount(r.scrapeId, z, Zeros(size), 0, 0, Crc32Initial);
    ChunkReassembly(r.scrapeId, z, Zeros(size), 0, 0, Crc32Initial);
    ChunkChecksumTotal(r.scrapeId, z, Zeros(size), 0, 0, Crc32Initial);
    ChunkCount(r.scrapeId, z, Zeros(size), 0, 0, Crc32Initial);
  }

  /** With a zero chunk size every zipped result is sent chunked, as a header and an empty summary. */
  lemma ZeroSizeSendsNoChunks(r: ScrapeResults)
    requires r.zipped
    ensures GoesChunked(r, 0)
    ensures ChunkedMessagesFor(r, 0) == [Header(r), Summary(r.scrapeId, 0, 0, Crc32Initial)]
  {
  }

  // ---------------------------------------------------------------------------
  // Routing

  lemma {:induction false} HeadersAppend(a: seq<ChunkedMsg>, b: seq<ChunkedMsg>)
    ensures Headers(a + b) == Headers(a) + Headers(b)
    decreases |a|
  {
    if a == [] {
      assert a + b == b;
    } else {
      assert (a + b)[1..] == a[1..] + b;
      HeadersAppend(a[1..], b);
    }
  }

  lemma {:induction false} NoHeaders(ms: seq<ChunkedMsg>)
    requires forall k :: 0 <= k < |ms| ==> ms[k].Chunk?
    ensures Headers(ms) == 0
    decreases |ms|
  {
    if ms != [] {
      NoHeaders(ms[1..]);
    }
  }

  /** A chunked result puts exactly one header on the chunked stream. */
  lemma OneHeaderPerResult(r: ScrapeResults, size: nat)
    ensures Headers(ChunkedMessagesFor(r, size)) == 1
  {
    var run := ChunksOf(r.scrapeId, r.contentAsZipped, size);
    ChunkNumbering(r.scrapeId, r.contentAsZipped, Zeros(size), 0, 0, Crc32Initial);
    NoHeaders(run.chunks);
    var summary := Summary(r.scrapeId, run.totalChunkCount, run.totalByteCount, run.checksum);
    HeadersAppend([Header(r)], run.chunks);
    HeadersAppend([Header(r)] + run.chunks, [summary]);
  }

  /** Each result is delivered exactly once: one non-chunked message, or one header on the chunked stream. */
  lemma {:induction false} EachResultOnce(rs: seq<ScrapeResults>, size: nat)
    ensures |NonChunkedOf(rs, size)| + Headers(ChunkedOf(rs, size)) == |rs|
    decreases |rs|
  {
    if rs != [] {
      var init := rs[..|rs| - 1];
      var last := rs[|rs| - 1];
      EachResultOnce(init, size);
      if GoesChunked(last, size) {
        HeadersAppend(ChunkedOf(init, size), ChunkedMessagesFor(last, size));
        OneHeaderPerResult(last, size);
      } else {
        HeadersAppend(ChunkedOf(init, size), []);
      }
    }
  }

  /**
   * A non-zipped result always goes non-chunked; a zipped one goes non-chunked
   * exactly when it is shorter than the chunk size.
   */
  lemma RouteOne(r: ScrapeResults, size: nat)
    ensures NonChunkedOf([r], size) == (if GoesChunked(r, size) then [] else [ScrapeResponseMsg(r)])
    ensures ChunkedOf([r], size) == (if GoesChunked(r, size) then ChunkedMessagesFor(r, size) else [])
    ensures !r.zipped ==> NonChunkedOf([r], size) == [ScrapeResponseMsg(r)] && ChunkedOf([r], size) == []
    ensures r.zipped ==> (NonChunkedOf([r], size) == [ScrapeResponseMsg(r)] <==> |r.contentAsZipped| < size)
  {
    assert [r][..0] == [];
  }
}
