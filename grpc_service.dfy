/**
 * The Kotlin agent service (`io.prometheus.agent.AgentGrpcService`): the proxy
 * address parsed once at construction, the channel rebuilt by
 * `resetGrpcStubs`, the validated register calls, the heartbeat, and the
 * coroutine that routes scrape results onto the non-chunked and chunked
 * output channels.
 *
 * In this file the agent id is a string that is empty when unassigned. The
 * agent fields the service reads and writes (`agentId`, the last-message
 * timestamp, the scrape backlog, the initial-connection latch) are fields of
 * the service here.
 */
module GrpcService {
  import opened Wrappers
  import opened Text
  import opened HostPort
  import opened Chunking
  import AgentRegistry

  type Reply = AgentRegistry.Reply

  // ---------------------------------------------------------------------------
  // The proxy address

  /** Removes at most one scheme prefix; the HTTP prefix is tried first. */
  function StripScheme(h: string, httpPrefix: string, httpsPrefix: string): (r: string)
    ensures |r| <= |h| && r == h[|h| - |r|..]
    ensures |h| - |r| == (if httpPrefix <= h then |httpPrefix| else if httpsPrefix <= h then |httpsPrefix| else 0)
  {
    if httpPrefix <= h then h[|httpPrefix|..]
    else if httpsPrefix <= h then h[|httpsPrefix|..]
    else h
  }

  /**
   * The `init` block's parse of the proxy hostname option: the scheme is
   * stripped, then a colon-free host gets port 50051, and a host with a colon
   * parses exactly when its second field is an integer.
   */
  function ParseProxyHostname(h: string, httpPrefix: string, httpsPrefix: string): (r: Result<Endpoint, HostPortError>)
    ensures var t := StripScheme(h, httpPrefix, httpsPrefix);
            ':' !in t ==> r == Success(Endpoint(t, DEFAULT_PORT))
    ensures var t := StripScheme(h, httpPrefix, httpsPrefix);
            ':' in t ==> (r.Success? <==> ParseInt(PortField(t)).Some?)
    ensures var t := StripScheme(h, httpPrefix, httpsPrefix);
            ':' in t && r.Success? ==>
              r.value.hostname == FirstField(t, ':') && Some(r.value.port) == ParseInt(PortField(t))
  {
    SplitHostPort(StripScheme(h, httpPrefix, httpsPrefix))
  }

  /**
   * A hostname with no colon, an optional scheme and a 32-bit port parses back
   * to that host and port, provided the scheme is the one the parser strips.
   */
  lemma ParseProxyHostnameRoundTrip(scheme: string, host: string, port: int, httpPrefix: string, httpsPrefix: string)
    requires ':' !in host && INT_MIN <= port <= INT_MAX
    requires var s := scheme + (host + ":" + IntToString(port));
             || scheme == httpPrefix
             || (scheme == httpsPrefix && !(httpPrefix <= s))
             || (scheme == [] && !(httpPrefix <= s) && !(httpsPrefix <= s))
    ensures ParseProxyHostname(scheme + (host + ":" + IntToString(port)), httpPrefix, httpsPrefix)
            == Success(Endpoint(host, port))
  {
    var rest := host + ":" + IntToString(port);
    var s := scheme + rest;
    assert s[|scheme|..] == rest;
    assert scheme <= s;
    assert StripScheme(s, httpPrefix, httpsPrefix) == rest;
    SplitHostPortRoundTrip(host, port);
  }

  /** With the usual prefixes, only one scheme is ever removed. */
  lemma StripSchemeOnce(h: string)
    ensures StripScheme("http://" + ("http://" + h), "http://", "https://") == "http://" + h
    ensures StripScheme("https://" + ("http://" + h), "http://", "https://") == "http://" + h
    ensures StripScheme("https://" + h, "http://", "https://") == h
  {
    var s := "https://" + h;
    assert s[4] == 's';
    assert !("http://" <= s);
    assert s[8..] == h;
  }

  // ---------------------------------------------------------------------------
  // Requests

  /** What can leave a register call or the heartbeat: the `require` failures, an invalid reply, a transport error. */
  datatype ServiceError = EmptyAgentId | EmptyPath | RequestFailure(message: string) | StatusError

  /** The `require`s on a path request, checked in the order the request builder checks them. */
  function ValidatePathRequest(agentId: string, path: string): (r: Option<ServiceError>)
    ensures r.None? <==> agentId != "" && path != ""
    ensures r == Some(EmptyAgentId) <==> agentId == ""
    ensures r == Some(EmptyPath) <==> agentId != "" && path == ""
  {
    if agentId == "" then Some(EmptyAgentId)
    else if path == "" then Some(EmptyPath)
    else None
  }

  /** The proxy's reply to `connectAgent`, which carries an agent id when the transport filter is disabled. */
  datatype GrpcConnectReply = AgentConnected(agentId: string) | AgentConnectFailed

  // ---------------------------------------------------------------------------
  // Channels and the input stream

  /** An unlimited coroutine channel: what was sent, and whether it is closed. */
  class OutChannel<T> {
    var sent: seq<T>
    var closed: bool

    constructor ()
      ensures sent == [] && !closed
    {
      sent := [];
      closed := false;
    }

    method Send(x: T)
      requires !closed
      modifies this
      ensures sent == old(sent) + [x] && !closed
    {
      sent := sent + [x];
    }

    method Close()
      modifies this
      ensures closed && sent == old(sent)
    {
      closed := true;
    }
  }

  /** `java.io.ByteArrayInputStream` over a fixed byte sequence. */
  class ByteArrayInputStream {
    const data: seq<byte>
    var pos: nat

    constructor (data: seq<byte>)
      ensures this.data == data && pos == 0
    {
      this.data := data;
      pos := 0;
    }

    /** `read(b)`: copies as many bytes as fit to the front of `b`; the rest of `b` is untouched. */
    method Read(b: array<byte>) returns (n: int)
      requires pos <= |data|
      modifies this, b
      ensures n == ReadCount(|data| - old(pos), b.Length)
      ensures pos == if n > 0 then old(pos) + n else old(pos)
      ensures n > 0 ==> b[..] == data[old(pos)..][..n] + old(b[..])[n..] && data[pos..] == data[old(pos)..][n..]
      ensures n <= 0 ==> b[..] == old(b[..])
    {
      n := ReadCount(|data| - pos, b.Length);
      if n > 0 {
        var i := 0;
        while i < n
          invariant 0 <= i <= n
          invariant pos == old(pos) && pos + n <= |data|
          invariant forall j :: 0 <= j < i ==> b[j] == data[pos + j]
          invariant forall j :: i <= j < b.Length ==> b[j] == old(b[j])
        {
          b[i] := data[pos + i];
          i := i + 1;
        }
        assert b[..] == data[pos..][..n] + old(b[..])[n..];
        assert data[pos + n..] == data[pos..][n..];
        pos := pos + n;
      }
    }
  }

  /** The whole run is the chunks already sent followed by the run still to come. */
  predicate Continues(whole: ChunkRun, sent: seq<ChunkedMsg>, run: ChunkRun) {
    whole == Prepend(sent, run)
  }

  /** A run with chunks already sent in front of it. */
  function Prepend(sent: seq<ChunkedMsg>, run: ChunkRun): ChunkRun {
    ChunkRun(sent + run.chunks, run.totalChunkCount, run.totalByteCount, run.checksum)
  }

  /**
   * A positive read of `n` bytes, which leaves `filled` in the buffer and
   * `next` unread, moves one chunk from the run still to come to the chunks
   * already sent.
   */
  lemma PrependStep(id: int, rest: seq<byte>, buffer: seq<byte>, count: int, total: int, crc: Checksum,
                    sent: seq<ChunkedMsg>, n: int, filled: seq<byte>, next: seq<byte>)
    requires n == ReadCount(|rest|, |buffer|) && n > 0
    requires filled == rest[..n] + buffer[n..] && next == rest[n..]
    ensures Prepend(sent, ChunkLoop(id, rest, buffer, count, total, crc))
            == Prepend(sent + [Chunk(id, count + 1, n, Crc32Update(crc, filled), filled)],
                       ChunkLoop(id, next, filled, count + 1, total + n, Crc32Update(crc, filled)))
  {
    var c, later := ChunkLoopUnfold(id, rest, buffer, count, total, crc);
    assert sent + ([c] + later.chunks) == (sent + [c]) + later.chunks;
  }

  /** Once the read comes back empty, the chunks already sent are the whole run. */
  lemma PrependStop(id: int, rest: seq<byte>, buffer: seq<byte>, count: int, total: int,
                    crc: Checksum, sent: seq<ChunkedMsg>)
    requires ReadCount(|rest|, |buffer|) <= 0
    ensures Prepend(sent, ChunkLoop(id, rest, buffer, count, total, crc)) == ChunkRun(sent, count, total, crc)
  {
    assert sent + [] == sent;
  }

  // ---------------------------------------------------------------------------
  // The service

  class AgentGrpcService {
    var grpcStarted: bool
    var channels: nat              // channels built so far; the current one is number channels - 1
    var shutDownChannels: set<nat>
    var agentId: string
    var lastMsgSent: int
    var latchReleased: bool
    var backlog: int               // scrapeRequestBacklogSize
    const hostName: string
    const port: int
    const chunkContentSize: nat

    /** Once started, there is one current channel and every earlier one has been shut down. */
    ghost predicate Valid()
      reads this
    {
      && (grpcStarted <==> channels > 0)
      && (forall i :: 0 <= i < channels - 1 ==> i in shutDownChannels)
      && (forall i :: i in shutDownChannels ==> 0 <= i < channels)
    }

    /** The `init` block after a successful host parse: its last act builds the first channel. */
    constructor (endpoint: Endpoint, chunkContentSize: nat)
      ensures Valid()
      ensures hostName == endpoint.hostname && port == endpoint.port && this.chunkContentSize == chunkContentSize
      ensures grpcStarted && channels == 1 && shutDownChannels == {}
      ensures agentId == "" && lastMsgSent == 0 && !latchReleased && backlog == 0
    {
      hostName := endpoint.hostname;
      port := endpoint.port;
      this.chunkContentSize := chunkContentSize;
      grpcStarted := false;
      channels := 0;
      shutDownChannels := {};
      agentId := "";
      lastMsgSent := 0;
      latchReleased := false;
      backlog := 0;
      new;
      ResetGrpcStubs();
    }

    /** Shuts the current channel down, if one was ever built. */
    method ShutDown()
      requires Valid()
      modifies this`shutDownChannels
      ensures Valid()
      ensures shutDownChannels == if grpcStarted then old(shutDownChannels) + {channels - 1} else old(shutDownChannels)
    {
      if grpcStarted {
        shutDownChannels := shutDownChannels + {channels - 1};
      }
    }

    /** The first call only raises the started flag; every later one shuts the previous channel down first. */
    method ResetGrpcStubs()
      requires Valid()
      modifies this`grpcStarted, this`channels, this`shutDownChannels
      ensures Valid()
      ensures grpcStarted && channels == old(channels) + 1
      ensures shutDownChannels == if old(grpcStarted) then old(shutDownChannels) + {old(channels) - 1} else old(shutDownChannels)
      ensures channels - 1 !in shutDownChannels
    {
      if grpcStarted {
        ShutDown();
      } else {
        grpcStarted := true;
      }
      channels := channels + 1;
    }

    method MarkMsgSent(now: int)
      modifies this`lastMsgSent
      ensures lastMsgSent == now
    {
      lastMsgSent := now;
    }

    /** `connectAgent`: true on success, false on any failure, never an exception. */
    method ConnectAgent(transportFilterDisabled: bool, reply: GrpcConnectReply) returns (ok: bool)
      modifies this`agentId
      ensures ok <==> reply.AgentConnected?
      ensures agentId == if ok && transportFilterDisabled then reply.agentId else old(agentId)
    {
      match reply
      case AgentConnectFailed =>
        ok := false;
      case AgentConnected(id) =>
        if transportFilterDisabled {
          agentId := id;
        }
        ok := true;
    }

    /** `registerAgent`: the latch is released only on a valid reply. */
    method RegisterAgent(reply: Reply, now: int) returns (r: Result<(), ServiceError>)
      modifies this`lastMsgSent, this`latchReleased
      ensures r.Success? <==> agentId != "" && reply.Ok? && reply.valid
      ensures agentId == "" ==> r == Failure(EmptyAgentId)
      ensures agentId != "" && reply.Transport? ==> r == Failure(StatusError)
      ensures agentId != "" && reply.Ok? && !reply.valid ==> r == Failure(RequestFailure("registerAgent() - " + reply.reason))
      ensures lastMsgSent == if agentId != "" && reply.Ok? then now else old(lastMsgSent)
      ensures latchReleased == (old(latchReleased) || r.Success?)
    {
      if agentId == "" {
        return Failure(EmptyAgentId);
      }
      match reply
      case Transport =>
        r := Failure(StatusError);
      case Ok(valid, reason, _) =>
        MarkMsgSent(now);
        if !valid {
          return Failure(RequestFailure("registerAgent() - " + reason));
        }
        latchReleased := true;
        r := Success(());
    }

    /** `registerPathOnProxy`: the proxy's path id on a valid reply. */
    method RegisterPathOnProxy(path: string, reply: Reply, now: int) returns (r: Result<int, ServiceError>)
      modifies this`lastMsgSent
      ensures r.Success? <==> ValidatePathRequest(agentId, path).None? && reply.Ok? && reply.valid
      ensures r.Success? ==> r.value == reply.pathId
      ensures ValidatePathRequest(agentId, path).Some? ==> r == Failure(ValidatePathRequest(agentId, path).value)
      ensures ValidatePathRequest(agentId, path).None? && reply.Transport? ==> r == Failure(StatusError)
      ensures ValidatePathRequest(agentId, path).None? && reply.Ok? && !reply.valid ==>
                r == Failure(RequestFailure("registerPathOnProxy() - " + reply.reason))
      ensures lastMsgSent == if ValidatePathRequest(agentId, path).None? && reply.Ok? then now else old(lastMsgSent)
    {
      var invalid := ValidatePathRequest(agentId, path);
      if invalid.Some? {
        return Failure(invalid.value);
      }
      match reply
      case Transport =>
        r := Failure(StatusError);
      case Ok(valid, reason, pathId) =>
        MarkMsgSent(now);
        if !valid {
          return Failure(RequestFailure("registerPathOnProxy() - " + reason));
        }
        r := Success(pathId);
    }

    /** `unregisterPathOnProxy`: the same checks as registration, with its own message. */
    method UnregisterPathOnProxy(path: string, reply: Reply, now: int) returns (r: Result<(), ServiceError>)
      modifies this`lastMsgSent
      ensures r.Success? <==> ValidatePathRequest(agentId, path).None? && reply.Ok? && reply.valid
      ensures ValidatePathRequest(agentId, path).Some? ==> r == Failure(ValidatePathRequest(agentId, path).value)
      ensures ValidatePathRequest(agentId, path).None? && reply.Transport? ==> r == Failure(StatusError)
      ensures ValidatePathRequest(agentId, path).None? && reply.Ok? && !reply.valid ==>
                r == Failure(RequestFailure("unregisterPathOnProxy() - " + reply.reason))
      ensures lastMsgSent == if ValidatePathRequest(agentId, path).None? && reply.Ok? then now else old(lastMsgSent)
    {
      var invalid := ValidatePathRequest(agentId, path);
      if invalid.Some? {
        return Failure(invalid.value);
      }
      match reply
      case Transport =>
        r := Failure(StatusError);
      case Ok(valid, reason, _) =>
        MarkMsgSent(now);
        if !valid {
          return Failure(RequestFailure("unregisterPathOnProxy() - " + reason));
        }
        r := Success(());
    }

    /**
     * `sendHeartBeat`: nothing without an agent id; any reply refreshes the
     * timestamp; an invalid reply or a transport error is only logged.
     */
    method SendHeartBeat(reply: Reply, now: int)
      modifies this`lastMsgSent
      ensures lastMsgSent == if agentId != "" && reply.Ok? then now else old(lastMsgSent)
    {
      if agentId != "" && reply.Ok? {
        MarkMsgSent(now);
      }
    }

    /** One chunked result: the header, the chunks, the summary. */
    method SendChunked(r: ScrapeResults, chunked: OutChannel<ChunkedMsg>)
      requires !chunked.closed
      modifies chunked
      ensures !chunked.closed
      ensures chunked.sent == old(chunked.sent) + ChunkedMessagesFor(r, chunkContentSize)
    {
      chunked.Send(Header(r));
      var totalChunkCount, totalByteCount, checksum := SendChunks(r.scrapeId, r.contentAsZipped, chunked);
      chunked.Send(Summary(r.scrapeId, totalChunkCount, totalByteCount, checksum));
    }

    /**
     * The read loop: a fresh stream over the zipped bytes and one reused
     * buffer of the chunk size; each positive read sends one chunk carrying the
     * whole buffer and the checksum after absorbing it.
     */
    method SendChunks(scrapeId: int, zipped: seq<byte>, chunked: OutChannel<ChunkedMsg>)
      returns (totalChunkCount: int, totalByteCount: int, checksum: Checksum)
      requires !chunked.closed
      modifies chunked
      ensures !chunked.closed
      ensures var run := ChunksOf(scrapeId, zipped, chunkContentSize);
              && chunked.sent == old(chunked.sent) + run.chunks
              && totalChunkCount == run.totalChunkCount && totalByteCount == run.totalByteCount
              && checksum == run.checksum
    {
      totalByteCount := 0;
      totalChunkCount := 0;
      checksum := Crc32Initial;
      var bais := new ByteArrayInputStream(zipped);
      var buffer := new byte[chunkContentSize](_ => 0);
      assert buffer[..] == Zeros(chunkContentSize);
      assert zipped[0..] == zipped;
      ghost var target := ChunksOf(scrapeId, zipped, chunkContentSize);
      ghost var emitted: seq<ChunkedMsg> := [];
      ghost var rest := zipped;           // what the stream has still to deliver
      ghost var contents := buffer[..];   // what the buffer holds

      while true
        invariant bais.data == zipped && bais.pos <= |zipped| && buffer.Length == chunkContentSize
        invariant fresh(bais) && fresh(buffer)
        invariant !chunked.closed
        invariant chunked.sent == old(chunked.sent) + emitted
        invariant rest == zipped[bais.pos..] && contents == buffer[..]
        invariant Continues(target, emitted, ChunkLoop(scrapeId, rest, contents, totalChunkCount, totalByteCount, checksum))
        decreases |rest|
      {
        var readByteCount := bais.Read(buffer);
        if readByteCount <= 0 {
          PrependStop(scrapeId, rest, contents, totalChunkCount, totalByteCount, checksum, emitted);
          break;
        }
        ghost var next, filled := zipped[bais.pos..], buffer[..];
        assert Continues(target, emitted + [Chunk(scrapeId, totalChunkCount + 1, readByteCount,
                                                  Crc32Update(checksum, filled), filled)],
                         ChunkLoop(scrapeId, next, filled, totalChunkCount + 1, totalByteCount + readByteCount,
                                   Crc32Update(checksum, filled))) by {
          PrependStep(scrapeId, rest, contents, totalChunkCount, totalByteCount, checksum, emitted,
                      readByteCount, filled, next);
        }
        rest, contents := next, filled;
        totalChunkCount := totalChunkCount + 1;
        totalByteCount := totalByteCount + readByteCount;
        checksum := Crc32Update(checksum, buffer[..]);
        var chunk := Chunk(scrapeId, totalChunkCount, readByteCount, checksum, buffer[..]);
        chunked.Send(chunk);
        emitted := emitted + [chunk];
      }
    }

    /**
     * `processScrapeResults`: every result goes to exactly one destination,
     * then the timestamp is refreshed and the backlog decremented; both output
     * channels are closed at the end.
     */
    method ProcessScrapeResults(results: seq<ScrapeResults>, now: int,
                                nonChunked: OutChannel<NonChunkedMsg>, chunked: OutChannel<ChunkedMsg>)
      requires !nonChunked.closed && !chunked.closed
      modifies nonChunked, chunked, this`lastMsgSent, this`backlog
      ensures nonChunked.sent == old(nonChunked.sent) + NonChunkedOf(results, chunkContentSize)
      ensures chunked.sent == old(chunked.sent) + ChunkedOf(results, chunkContentSize)
      ensures nonChunked.closed && chunked.closed
      ensures backlog == old(backlog) - |results|
      ensures lastMsgSent == if results == [] then old(lastMsgSent) else now
    {
      for i := 0 to |results|
        invariant !nonChunked.closed && !chunked.closed
        invariant nonChunked.sent == old(nonChunked.sent) + NonChunkedOf(results[..i], chunkContentSize)
        invariant chunked.sent == old(chunked.sent) + ChunkedOf(results[..i], chunkContentSize)
        invariant backlog == old(backlog) - i
        invariant lastMsgSent == if i == 0 then old(lastMsgSent) else now
      {
        var r := results[i];
        assert results[..i + 1][..i] == results[..i];
        if !r.zipped {
          nonChunked.Send(ScrapeResponseMsg(r));
        } else if |r.contentAsZipped| < chunkContentSize {
          nonChunked.Send(ScrapeResponseMsg(r));
        } else {
          SendChunked(r, chunked);
        }
        MarkMsgSent(now);
        backlog := backlog - 1;
      }
      assert results[..|results|] == results;
      nonChunked.Close();
      chunked.Close();
    }
  }

  /** Building the service fails exactly when the proxy hostname does not parse. */
  method NewAgentGrpcService(proxyHostname: string, httpPrefix: string, httpsPrefix: string, chunkContentSize: nat)
    returns (r: Result<AgentGrpcService, HostPortError>)
    ensures r.Success? <==> ParseProxyHostname(proxyHostname, httpPrefix, httpsPrefix).Success?
    ensures r.Failure? ==> r.error == ParseProxyHostname(proxyHostname, httpPrefix, httpsPrefix).error
    ensures r.Success? ==>
              && fresh(r.value) && r.value.Valid()
              && Endpoint(r.value.hostName, r.value.port) == ParseProxyHostname(proxyHostname, httpPrefix, httpsPrefix).value
              && r.value.chunkContentSize == chunkContentSize
              && r.value.channels == 1 && r.value.agentId == ""
  {
    var endpoint := ParseProxyHostname(proxyHostname, httpPrefix, httpsPrefix);
    if endpoint.Failure? {
      return Failure(endpoint.error);
    }
    var service := new AgentGrpcService(endpoint.value, chunkContentSize);
    r := Success(service);
  }
}
