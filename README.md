# prometheus-proxy agent, modelled in Dafny

The prometheus-proxy agent sits inside a firewall. It keeps an outbound gRPC connection open to a proxy outside it. Over that connection it registers the paths it serves. It answers the scrape requests the proxy forwards by fetching the configured target URLs and sending the responses back.

This project models two generations of that agent:

* The Java agent `com.sudothought.Agent` (`src/main/java/com/sudothought/Agent.java`):
  * its proxy-address parse;
  * the connection attempt and its retry loop: reset, connect, `registerAgent`, `registerPaths`;
  * the path registry (`registerPath`, `unregisterPath` and their proxy calls);
  * `fetchUrl`;
  * the bounded scrape-response queue and the writer loop draining it onto the outbound stream;
  * the heartbeat;
  * `stop`.

  The `Agent` class (`agent.dfy`) keeps the fields the source updates in place. Its registration, handshake and streaming methods are proved against the value-level specification in `agent_registry.dfy`, `agent_handshake.dfy` and `agent_stream.dfy`, and the lemmas are stated over those functions. `MarkMsgSent`, `ResetGrpcStubs`, `Start` and `Stop` state their field updates directly. The retry loop (`RunUntilStopped`) states what the last attempt leaves behind through that specification. It also states the identity, stub-rebuild count and latch over all attempts.
* The Kotlin service `io.prometheus.agent.AgentGrpcService` (`src/main/kotlin/io/prometheus/agent/AgentGrpcService.kt`):
  * its hostname parse, including the scheme prefixes;
  * the channel rebuild in `resetGrpcStubs`;
  * the validated register and unregister calls and the heartbeat;
  * `processScrapeResults`. This routes each scrape result either to the non-chunked stream or, as a header, chunks and a summary, to the chunked stream.

  `grpc_service.dfy` holds the class and its chunk read loop over a real `array` buffer. `chunking.dfy` gives the loop's value-level specification and its properties.

Modules:

| file | module | contents |
|---|---|---|
| wrappers.dfy | Wrappers | `Option` and `Result` in place of null and exceptions |
| text.dfy | Text | `Integer.valueOf` and `%d` on 32-bit integers |
| host_port.dfy | HostPort | the `host[:port]` split (default port 50051) |
| agent_fetch.dfy | AgentFetch | scrape messages and `fetchUrl` |
| agent_registry.dfy | AgentRegistry | register and unregister steps of the path map |
| agent_handshake.dfy | AgentHandshake | one connection attempt up to streaming |
| agent_stream.dfy | AgentStream | the streaming phase as a sequence of events |
| agent.dfy | AgentSession | the `Agent` class |
| chunking.dfy | Chunking | routing and chunking of scrape results |
| grpc_service.dfy | GrpcService | the `AgentGrpcService` class |

Transport replies, clock readings and fetch outcomes are parameters of the operations. The model has no threads. The Java agent's threads run as one sequence of discrete events: writer-loop polls, fetch tasks completing, heartbeat checks and stream callbacks. Once the attempt is marked disconnected, no further event is processed. This stands for the writer loop (`Agent.java:571`) and the heartbeat loop (`Agent.java:321`) both stopping at that flag.

The rows below state their contracts in terms of these reference definitions. Each one is the value-level form of a source span and carries no contract of its own:
- `AgentStream.Step` and `AgentStream.Run`: one event, and a sequence of events, of the streaming phase (`Agent.java:549-589`).
- `AgentHandshake.HandshakeSpec`: the reset and handshake of `connectToProxy` (`Agent.java:251-272`).
- `AgentRegistry.RegisterPathsSpec`: `registerPaths` (`Agent.java:438-452`).
- `Chunking.ChunkLoop`: the chunking loop of `processScrapeResults` (`AgentGrpcService.kt:318-340`).
- `HostPort.Split`: Java's `String.split(":")` before trailing empty fields are dropped.

## Model

| member | source | states |
|---|---|---|
| Text.ParseInt | src/main/java/com/sudothought/Agent.java:174 | `Integer.valueOf`: a success has an optional sign followed by a non-empty digit string, and its value is that of the digits, negated after `-`; a signed digit string parses exactly when its magnitude fits in 32 bits (up to 2147483648 after `-`) |
| Text.ParseIntToString | src/main/java/com/sudothought/Agent.java:174 | parsing the `%d` text of any 32-bit integer gives that integer back |
| Text.IntToStringHasNoColon | src/main/java/com/sudothought/Agent.java:171-175 | a printed port never contains the separator colon |
| HostPort.DropTrailingEmpty | src/main/kotlin/io/prometheus/agent/AgentGrpcService.kt:108 | the result is a prefix of the fields that does not end in an empty field, and every field it drops is empty |
| HostPort.SplitHostPort | src/main/java/com/sudothought/Agent.java:171-179 | without a colon: the whole text with port 50051; with one: success exactly when the second field parses as an integer, and then host = first field and port = its value |
| HostPort.SecondFieldSurvives | src/main/java/com/sudothought/Agent.java:172-174 | `split(":")` yields the host field first and the port field second, and a non-empty port field is never dropped |
| HostPort.SplitHostPortRoundTrip | src/main/java/com/sudothought/Agent.java:171-179 | splitting `host:port` gives back the colon-free host and the 32-bit port |
| AgentFetch.FetchUrl | src/main/java/com/sudothought/Agent.java:362-417 | the response echoes agent and scrape id; it is valid iff the path is registered and the fetch returned 2xx, and then carries code, body and content type verbatim; every invalid response has a reason and no body |
| AgentFetch.FetchUrlUnknownPath | src/main/java/com/sudothought/Agent.java:368-378 | an unregistered path gets 404 "Invalid path: <path>", whatever the fetch would return |
| AgentFetch.FetchUrlUnsuccessful | src/main/java/com/sudothought/Agent.java:385-417 | a non-2xx reply keeps its code, and the reason text "Unsucessful response code <n>" parses back to that code |
| AgentFetch.FetchUrlIOException | src/main/java/com/sudothought/Agent.java:384-417 | an IOException becomes "<name> - <message>", with 404 before a response arrived or else the response's code |
| AgentRegistry.RegisterPathStep | src/main/java/com/sudothought/Agent.java:462-469 | completes iff an id exists and the reply is valid, and then stores the context under the path without its leading slash; otherwise the map is unchanged; an invalid reply raises "registerPath() - <reason>"; any reply stamps the time; stored keys match their contexts' paths |
| AgentRegistry.UnregisterPathStep | src/main/java/com/sudothought/Agent.java:471-480 | completes iff an id exists and the reply is valid, and then removes exactly the slash-stripped key; otherwise the map is unchanged; an invalid reply raises "unregisterPath() - <reason>" |
| AgentRegistry.RegisterThenScrape | src/main/java/com/sudothought/Agent.java:462-469 | after the proxy accepts a path, a 2xx scrape of it returns the fetched body and content type |
| AgentRegistry.UnregisterThenScrape | src/main/java/com/sudothought/Agent.java:471-480 | after a successful unregister, a scrape of that path answers 404 "Invalid path" |
| AgentRegistry.UnregisterIdempotent | src/main/java/com/sudothought/Agent.java:471-480 | unregistering twice succeeds and leaves the same map as unregistering once |
| AgentRegistry.RegisterPathsStopsAtFirstFailure | src/main/java/com/sudothought/Agent.java:453-460 | the first rejected path fails the whole call, and no later reply is looked at |
| AgentRegistry.RegisterPathsAllAccepted | src/main/java/com/sudothought/Agent.java:453-460 | `registerPaths` completes iff every reply is valid, and then every configured path is in the map; the last configuration of a path decides its URL |
| AgentRegistry.RegisterPathsMonotone | src/main/java/com/sudothought/Agent.java:453-469 | registration never removes a key, changes only configured keys and adds nothing else |
| AgentHandshake.RegisterAgentStep | src/main/java/com/sudothought/Agent.java:438-451 | completes iff an id exists and the reply is valid; only then is the initial-connection latch released; an invalid reply raises "registerAgent() - <reason>"; any reply stamps the time |
| AgentHandshake.HandshakeConnectGate | src/main/java/com/sudothought/Agent.java:256-271 | a failed connect leaves the reset state and registers nothing |
| AgentHandshake.HandshakeAgentRejected | src/main/java/com/sudothought/Agent.java:265-271 | a rejected agent registration aborts before any path is registered and keeps the latch as it was |
| AgentHandshake.HandshakeStreaming | src/main/java/com/sudothought/Agent.java:251-273 | streaming starts iff connect gave an id and every registration was accepted; the latch is released iff the agent registration was; the map holds only configured paths, and all of them when streaming |
| AgentHandshake.HandshakeLatchOnly | src/main/java/com/sudothought/Agent.java:251-273 | an attempt's outcome, identity, paths and timestamp do not depend on the latch it starts with; it ends with the connect's identity, and the latch ends released iff it was or the agent was accepted |
| AgentHandshake.RegisterPathsKeysMatch | src/main/java/com/sudothought/Agent.java:453-469 | registration keeps every context stored under its own path |
| AgentStream.Put | src/main/java/com/sudothought/Agent.java:525 | a queue with room gets the response appended at its tail; a full queue is unchanged (the producer blocks) |
| AgentStream.SendHeartBeatStep | src/main/java/com/sudothought/Agent.java:595-612 | queue and outbound stream untouched; any reply stamps the time; the attempt is disconnected iff it already was, or an id exists and the reply is invalid or a transport error |
| AgentStream.RunAppend | src/main/java/com/sudothought/Agent.java:549-589 | processing two event sequences in turn is processing their concatenation |
| AgentStream.DisconnectIsTerminal | src/main/java/com/sudothought/Agent.java:571 | once disconnected, later events change nothing |
| AgentStream.RunKeepsCapacity | src/main/java/com/sudothought/Agent.java:121-122 | the queue never exceeds `scrapeResponseQueueSize` |
| AgentStream.RunIsFifo | src/main/java/com/sudothought/Agent.java:571-584 | what was written stays written, and responses already written or queued are written before anything produced later |
| AgentStream.RunClockMonotone | src/main/java/com/sudothought/Agent.java:591-593 | with a clock that never goes back, the last-message timestamp never decreases |
| AgentStream.PollsDrainQueue | src/main/java/com/sudothought/Agent.java:571-584 | enough writer iterations write every queued response, in queue order |
| AgentStream.HeartbeatRejectionDisconnects | src/main/java/com/sudothought/Agent.java:321-324 | an idle agent with an id sends a heartbeat, and an invalid reply ends the attempt at once |
| AgentStream.HeartbeatNotDue | src/main/java/com/sudothought/Agent.java:322-324 | no heartbeat goes out before the inactivity threshold is exceeded, or without an id |
| AgentSession.Agent.constructor | src/main/java/com/sudothought/Agent.java:108-122 | empty queue of the configured capacity, no id, no paths, nothing sent |
| AgentSession.Agent.MarkMsgSent | src/main/java/com/sudothought/Agent.java:591-593 | the timestamp becomes the clock reading |
| AgentSession.Agent.ResetGrpcStubs | src/main/java/com/sudothought/Agent.java:335-355 | one more channel-and-stub rebuild |
| AgentSession.Agent.Start | src/main/java/com/sudothought/Agent.java:207-224 | primes the limiter once and builds the first stubs |
| AgentSession.Agent.Stop | src/main/java/com/sudothought/Agent.java:280-302 | the agent is stopped, and only the first call reports doing the shutdown |
| AgentSession.Agent.RegisterAgent | src/main/java/com/sudothought/Agent.java:438-451 | outcome, timestamp and latch are those of `RegisterAgentStep` |
| AgentSession.Agent.RegisterPathOnProxy | src/main/java/com/sudothought/Agent.java:491-502 | the path id iff an id exists and the reply is valid; otherwise the registration step's failure; the timestamp is stamped on any reply |
| AgentSession.Agent.RegisterPath | src/main/java/com/sudothought/Agent.java:462-469 | new map, outcome and timestamp are those of `RegisterPathStep` |
| AgentSession.Agent.UnregisterPathOnProxy | src/main/java/com/sudothought/Agent.java:504-514 | succeeds iff an id exists and the reply is valid; otherwise the unregistration step's failure |
| AgentSession.Agent.UnregisterPath | src/main/java/com/sudothought/Agent.java:471-480 | new map, outcome and timestamp are those of `UnregisterPathStep` |
| AgentSession.Agent.RegisterPaths | src/main/java/com/sudothought/Agent.java:453-460 | the loop over the configured paths ends in the state `RegisterPathsSpec` gives |
| AgentSession.Agent.Put | src/main/java/com/sudothought/Agent.java:525 | the response is admitted iff the queue has room, and the queue becomes `AgentStream.Put` of the old one |
| AgentSession.Agent.FetchAndPut | src/main/java/com/sudothought/Agent.java:520-531 | the queue receives the `fetchUrl` response for the request, if it has room |
| AgentSession.Agent.PollOnce | src/main/java/com/sudothought/Agent.java:574-578 | writes the head of the queue, if any, and stamps the time: one `Poll` step |
| AgentSession.Agent.SendHeartBeat | src/main/java/com/sudothought/Agent.java:595-612 | the stream state becomes `SendHeartBeatStep` of the old one |
| AgentSession.Agent.CheckHeartBeat | src/main/java/com/sudothought/Agent.java:321-324 | sends a heartbeat only when enabled and idle longer than the threshold |
| AgentSession.Agent.HandleEvent | src/main/java/com/sudothought/Agent.java:516-589 | each event's effect is one `Step` |
| AgentSession.Agent.WriteResponsesToProxyUntilDisconnected | src/main/java/com/sudothought/Agent.java:549-589 | the stream state becomes `Run` of the events; the outbound stream is completed once disconnected |
| AgentSession.Agent.ConnectToProxy | src/main/java/com/sudothought/Agent.java:251-273 | stubs are rebuilt iff the last attempt had an id; id, paths and latch are those of `HandshakeSpec`; nothing of the previous attempt survives; when streaming, the stream state is `Run` from an empty queue |
| AgentSession.Agent.Attempt | src/main/java/com/sudothought/Agent.java:229-246 | one retry iteration: the state of `connectToProxy` for its script, the stubs rebuilt iff the agent held an identity, the latch released iff it was or the agent was accepted, stopped iff `stop()` was called; a streaming attempt that returned is disconnected with its outbound stream completed, and only an attempt that returned makes the `finally` block's limiter acquire; one whose events never disconnect is still streaming, with the stream open and no acquire |
| AgentSession.Agent.RunUntilStopped | src/main/java/com/sudothought/Agent.java:226-248 | every attempt but the last has returned, so a new attempt starts only after the previous stream disconnected; attempts run until stopped, with one limiter acquire for each attempt that returned, and the loop ends right after the attempt during which `stop` was called; if the last attempt streamed and returned, the agent is disconnected with the outbound stream completed; the final identity, paths and stream state are those the last attempt's handshake and events give; the stubs are rebuilt once per attempt that began with an identity; the latch is released iff it was before or some attempt's agent registration was accepted; an agent already stopped, or given no attempts, runs none and keeps its stop flag, paths, stream state and completion flag |
| Chunking.ReadCount | src/main/kotlin/io/prometheus/agent/AgentGrpcService.kt:331 | `ByteArrayInputStream.read`: -1 exactly at end of stream, never more than the buffer or what is left, positive iff both are, and a short read takes all that is left |
| Chunking.ChunkNumbering | src/main/kotlin/io/prometheus/agent/AgentGrpcService.kt:332-336 | chunks carry the scrape id and are numbered consecutively from the counter, which ends at the number of chunks |
| Chunking.ChunkSizes | src/main/kotlin/io/prometheus/agent/AgentGrpcService.kt:328-336 | every chunk carries the whole buffer and reads 1..size bytes; only the last may be short |
| Chunking.ChunkByteCount | src/main/kotlin/io/prometheus/agent/AgentGrpcService.kt:333 | the byte counter ends at the number of bytes to read, and so does the sum of the chunks' read counts |
| Chunking.ChunkCovers | src/main/kotlin/io/prometheus/agent/AgentGrpcService.kt:327-341 | the chunks' payloads are consecutive non-empty slices of the input that reach its end |
| Chunking.CoversReassemble | src/main/kotlin/io/prometheus/agent/AgentGrpcService.kt:327-341 | consecutive covering slices concatenate to the whole input |
| Chunking.ChunkReassembly | src/main/kotlin/io/prometheus/agent/AgentGrpcService.kt:327-341 | concatenating the chunks' payloads gives back exactly the zipped bytes |
| Chunking.ChunkChecksumTotal | src/main/kotlin/io/prometheus/agent/AgentGrpcService.kt:334 | the final checksum has absorbed every chunk's whole buffer, in order |
| Chunking.ChunkChecksum | src/main/kotlin/io/prometheus/agent/AgentGrpcService.kt:334-336 | each chunk carries the checksum after its own buffer, chained from the previous chunk's; the final checksum is the last chunk's |
| Chunking.ChunkStaleTail | src/main/kotlin/io/prometheus/agent/AgentGrpcService.kt:328-336 | past its read count, a chunk repeats the previous chunk's buffer (the zeroed buffer for the first) |
| Chunking.ChunkCount | src/main/kotlin/io/prometheus/agent/AgentGrpcService.kt:331-332 | the chunk count is the zipped size divided by the chunk size, rounded up, and zero only for empty input |
| Chunking.ChunkedMessagesShape | src/main/kotlin/io/prometheus/agent/AgentGrpcService.kt:318-348 | header, then n chunks numbered 1..n, then a summary with count n, byte count = zipped size and checksum = all chunk buffers absorbed; the payloads reassemble to the zipped content |
| Chunking.ZeroSizeSendsNoChunks | src/main/kotlin/io/prometheus/agent/AgentGrpcService.kt:313-348 | with chunk size 0 every zipped result goes chunked, as a header and an empty summary |
| Chunking.OneHeaderPerResult | src/main/kotlin/io/prometheus/agent/AgentGrpcService.kt:318-322 | a chunked result puts exactly one header on the chunked stream |
| Chunking.EachResultOnce | src/main/kotlin/io/prometheus/agent/AgentGrpcService.kt:300-317 | every result is delivered exactly once: one non-chunked message or one chunked header |
| Chunking.RouteOne | src/main/kotlin/io/prometheus/agent/AgentGrpcService.kt:303-317 | a non-zipped result always goes non-chunked; a zipped one goes non-chunked iff it is shorter than the chunk size |
| GrpcService.StripScheme | src/main/kotlin/io/prometheus/agent/AgentGrpcService.kt:97-105 | the result is a suffix of the input shortened by exactly the matching prefix, with the HTTP prefix tried first |
| GrpcService.ParseProxyHostname | src/main/kotlin/io/prometheus/agent/AgentGrpcService.kt:96-114 | after the scheme is stripped: a colon-free hostname always parses, with port 50051; a hostname with a colon parses exactly when its second field is an integer, and then the host is the first field and the port that integer |
| GrpcService.ParseProxyHostnameRoundTrip | src/main/kotlin/io/prometheus/agent/AgentGrpcService.kt:96-114 | `[scheme]host:port` parses back to host and port |
| GrpcService.StripSchemeOnce | src/main/kotlin/io/prometheus/agent/AgentGrpcService.kt:97-105 | only one scheme prefix is removed |
| GrpcService.ValidatePathRequest | src/main/kotlin/io/prometheus/agent/AgentGrpcService.kt:224-226 | a path request passes iff id and path are non-empty; the agent id is checked first |
| GrpcService.ByteArrayInputStream.Read | src/main/kotlin/io/prometheus/agent/AgentGrpcService.kt:331 | returns `ReadCount`; a positive read overwrites only the front of the buffer with the next bytes and advances the stream by that much |
| GrpcService.AgentGrpcService.constructor | src/main/kotlin/io/prometheus/agent/AgentGrpcService.kt:96-131 | the parsed endpoint, with the first channel built and none shut down |
| GrpcService.AgentGrpcService.ShutDown | src/main/kotlin/io/prometheus/agent/AgentGrpcService.kt:134-140 | shuts the current channel down only if one was ever built |
| GrpcService.AgentGrpcService.ResetGrpcStubs | src/main/kotlin/io/prometheus/agent/AgentGrpcService.kt:142-170 | builds a new channel; later calls shut the previous one down first; the current channel is never shut down |
| GrpcService.AgentGrpcService.MarkMsgSent | src/main/kotlin/io/prometheus/agent/AgentGrpcService.kt:202 | the timestamp becomes the clock reading |
| GrpcService.AgentGrpcService.ConnectAgent | src/main/kotlin/io/prometheus/agent/AgentGrpcService.kt:173-188 | true iff connected, never an exception; the agent id is taken from the reply only with the transport filter disabled |
| GrpcService.AgentGrpcService.RegisterAgent | src/main/kotlin/io/prometheus/agent/AgentGrpcService.kt:190-207 | an empty id fails first; a valid reply succeeds and releases the latch; an invalid reply raises "registerAgent() - <reason>"; any reply stamps the time |
| GrpcService.AgentGrpcService.RegisterPathOnProxy | src/main/kotlin/io/prometheus/agent/AgentGrpcService.kt:222-234 | the validation failure, the transport error, "registerPathOnProxy() - <reason>", or the path id of a valid reply |
| GrpcService.AgentGrpcService.UnregisterPathOnProxy | src/main/kotlin/io/prometheus/agent/AgentGrpcService.kt:236-250 | the same checks, with "unregisterPathOnProxy() - <reason>" |
| GrpcService.AgentGrpcService.SendHeartBeat | src/main/kotlin/io/prometheus/agent/AgentGrpcService.kt:252-273 | nothing without an id; any reply stamps the time; failures are only logged |
| GrpcService.AgentGrpcService.SendChunked | src/main/kotlin/io/prometheus/agent/AgentGrpcService.kt:318-348 | sends exactly `ChunkedMessagesFor` of the result |
| GrpcService.AgentGrpcService.SendChunks | src/main/kotlin/io/prometheus/agent/AgentGrpcService.kt:324-341 | the read loop over a reused array sends exactly the chunks of `ChunksOf` and ends with its counters and checksum |
| GrpcService.AgentGrpcService.ProcessScrapeResults | src/main/kotlin/io/prometheus/agent/AgentGrpcService.kt:293-358 | the two streams receive exactly `NonChunkedOf` and `ChunkedOf` of the results, in order; the backlog drops by one per result; both channels end closed |
| GrpcService.NewAgentGrpcService | src/main/kotlin/io/prometheus/agent/AgentGrpcService.kt:96-131 | construction fails exactly when the hostname does not parse, and otherwise holds the parsed endpoint and one channel |

## Left out

- `pathMapSize` (Java and Kotlin): a read-only RPC that returns the proxy's count and stamps the time. It is not modelled.
- Text.ParseInt: accepts only ASCII digits. `Integer.valueOf` also accepts other Unicode decimal digits.
- AgentFetch.FetchUrl: a successful response without a Content-Type header makes the source throw a NullPointerException inside the fetch task. This is not modelled; the content type is always a string.
- The Kotlin chunk size is a `nat`. A negative `chunkContentSizeKbs`, which makes `ByteArray` throw, is not modelled.
- The client interceptors are not modelled. In the Java agent, AgentClientInterceptor copies the agent id from the connect reply's headers; here that id is a field of the connect reply. The Kotlin interceptor's copy, when the transport filter is enabled, is also not modelled.
- Left out as I/O or foreign code:
  - metrics;
  - Zipkin tracing;
  - TLS context construction;
  - the gRPC channel itself (the model counts rebuilds and shutdowns instead);
  - logging;
  - the shutdown hook.
- Executors, coroutines, interleaving and blocking are not modelled:
  - `poll` with a timeout;
  - the latch wait in `awaitInitialConnection`;
  - `waitUntilShutdown`;
  - `InterruptedException`.

  The Java agent's threads run as one sequence of events. A `put` on a full queue leaves the queue as it was, standing in for a producer that is still blocked.
- RateLimiter timing: acquisitions are counted, not timed.
- AgentSession.Agent.RunUntilStopped: the attempts are given as scripts, and only the last may stand for an attempt still streaming. The writer loop blocks until the disconnect, so no later attempt can follow a stream that is still open.
- AgentSession.Agent.constructor: requires a capacity of at least 1, because `ArrayBlockingQueue` throws for a smaller size.
- One clock reading (`now`) is used for a whole handshake and for a whole Kotlin result batch. The source reads the clock at each message.
- Fetch tasks from an earlier attempt that finish after the reset are not modelled.
- The Kotlin `readRequestsFromProxy` is not modelled: it launches fetches and increments the backlog. Only the decrement in `processScrapeResults` is modelled.
- The agent fields the Kotlin service reads and writes are fields of the service class: agent id, timestamp, latch and backlog.
- CRC32 is kept uninterpreted. A checksum is the history of buffers absorbed. The properties state which bytes were absorbed and in what order, not the 32-bit value.
- `close()` delegates to `stop()`, and is not modelled separately.
