/**
 * The streaming phase of one attempt of the Java agent, with its threads
 * reduced to one sequence of discrete events: a writer-loop poll of the
 * response queue, a fetch task completing and putting its response
 * (`readRequestsFromProxy` then `fetchUrl`), a heartbeat-loop check, and a
 * stream callback reporting completion or an error. Processing stops once the
 * attempt is marked disconnected.
 */
module AgentStream {
  import opened Wrappers
  import opened AgentFetch
  import opened AgentRegistry

  /** What the streaming phase reads but does not change. */
  datatype StreamEnv = StreamEnv(
    paths: map<string, PathContext>,
    agentId: Option<string>,
    capacity: nat,             // scrapeResponseQueueSize
    heartbeatEnabled: bool,
    maxInactivitySecs: int)

  datatype StreamState = StreamState(
    queue: seq<ScrapeResponse>,      // the bounded response queue, head first
    outbound: seq<ScrapeResponse>,   // what was written on the outbound stream
    lastMsgSent: int,
    disconnected: bool)

  datatype StreamEvent =
    | Poll(now: int)                                  // one writer-loop iteration
    | Scrape(request: ScrapeRequest, fetch: FetchOutcome)  // a fetch task finishes and puts its response
    | HeartbeatCheck(now: int, reply: Reply)          // one heartbeat-loop iteration; `reply` answers a probe if one is sent
    | StreamClosed                                    // onError/onCompleted of either stream

  /** `ArrayBlockingQueue.put`: appends when there is room; on a full queue the producer is still blocked. */
  function Put(queue: seq<ScrapeResponse>, capacity: nat, r: ScrapeResponse): (q: seq<ScrapeResponse>)
    ensures |queue| < capacity ==> q == queue + [r]
    ensures |queue| >= capacity ==> q == queue
  {
    if |queue| < capacity then queue + [r] else queue
  }

  /** The heartbeat fires only after more than `maxInactivitySecs` seconds without an outbound message. */
  predicate HeartbeatDue(now: int, lastMsgSent: int, maxInactivitySecs: int) {
    now - lastMsgSent > maxInactivitySecs * 1000
  }

  /**
   * `sendHeartBeat`: skipped without an agent id; any reply refreshes the
   * timestamp; an invalid reply or a transport error marks the attempt
   * disconnected.
   */
  function SendHeartBeatStep(agentId: Option<string>, reply: Reply, now: int, st: StreamState): (r: StreamState)
    ensures r.queue == st.queue && r.outbound == st.outbound
    ensures r.lastMsgSent == if agentId.Some? && reply.Ok? then now else st.lastMsgSent
    ensures r.disconnected <==> st.disconnected || (agentId.Some? && !(reply.Ok? && reply.valid))
  {
    if agentId.None? then st
    else
      match reply
      case Transport => st.(disconnected := true)
      case Ok(valid, _, _) => st.(lastMsgSent := now, disconnected := st.disconnected || !valid)
  }

  /** The effect of one event. */
  function Step(env: StreamEnv, st: StreamState, ev: StreamEvent): StreamState {
    match ev
    case Poll(now) =>
      if st.queue == [] then st
      else st.(queue := st.queue[1..], outbound := st.outbound + [st.queue[0]], lastMsgSent := now)
    case Scrape(req, fetch) =>
      st.(queue := Put(st.queue, env.capacity, FetchUrl(req, env.paths, fetch)))
    case HeartbeatCheck(now, reply) =>
      if env.heartbeatEnabled && HeartbeatDue(now, st.lastMsgSent, env.maxInactivitySecs)
      then SendHeartBeatStep(env.agentId, reply, now, st)
      else st
    case StreamClosed =>
      st.(disconnected := true)
  }

  /** The events in order, until the attempt is disconnected. */
  function Run(env: StreamEnv, st: StreamState, evs: seq<StreamEvent>): StreamState
    decreases |evs|
  {
    if evs == [] || st.disconnected then st else Run(env, Step(env, st, evs[0]), evs[1..])
  }

  /** The clock readings of the timed events never go below `t` and never go back. */
  predicate ClockFrom(t: int, evs: seq<StreamEvent>)
    decreases |evs|
  {
    if evs == [] then true
    else
      match evs[0]
      case Poll(n) => t <= n && ClockFrom(n, evs[1..])
      case HeartbeatCheck(n, _) => t <= n && ClockFrom(n, evs[1..])
      case _ => ClockFrom(t, evs[1..])
  }

  /** Writer-loop iterations at the given clock readings. */
  function Polls(times: seq<int>): (evs: seq<StreamEvent>)
    ensures |evs| == |times|
  {
    if times == [] then [] else [Poll(times[0])] + Polls(times[1..])
  }

  // ---------------------------------------------------------------------------
  // Properties of the streaming phase

  /** Running two event sequences one after the other is running their concatenation. */
  lemma {:induction false} RunAppend(env: StreamEnv, st: StreamState, evs1: seq<StreamEvent>, evs2: seq<StreamEvent>)
    ensures Run(env, st, evs1 + evs2) == Run(env, Run(env, st, evs1), evs2)
    decreases |evs1|
  {
    if evs1 == [] {
      assert evs1 + evs2 == evs2;
    } else if !st.disconnected {
      assert (evs1 + evs2)[1..] == evs1[1..] + evs2;
      RunAppend(env, Step(env, st, evs1[0]), evs1[1..], evs2);
    }
  }

  /** Disconnection is terminal: once a prefix of the events disconnects, the rest changes nothing. */
  lemma DisconnectIsTerminal(env: StreamEnv, st: StreamState, evs1: seq<StreamEvent>, evs2: seq<StreamEvent>)
    requires Run(env, st, evs1).disconnected
    ensures Run(env, st, evs1 + evs2) == Run(env, st, evs1)
  {
    RunAppend(env, st, evs1, evs2);
  }

  /** The queue never holds more than `scrapeResponseQueueSize` responses. */
  lemma {:induction false} RunKeepsCapacity(env: StreamEnv, st: StreamState, evs: seq<StreamEvent>)
    requires |st.queue| <= env.capacity
    ensures |Run(env, st, evs).queue| <= env.capacity
    decreases |evs|
  {
    if evs != [] && !st.disconnected {
      RunKeepsCapacity(env, Step(env, st, evs[0]), evs[1..]);
    }
  }

  /**
   * FIFO and nothing lost: what was written stays written, and everything
   * already written or queued is written, in that order, before anything
   * produced later.
   */
  lemma {:induction false} RunIsFifo(env: StreamEnv, st: StreamState, evs: seq<StreamEvent>)
    ensures st.outbound <= Run(env, st, evs).outbound
    ensures st.outbound + st.queue <= Run(env, st, evs).outbound + Run(env, st, evs).queue
    decreases |evs|
  {
    if evs != [] && !st.disconnected {
      var st' := Step(env, st, evs[0]);
      if evs[0].Poll? && st.queue != [] {
        assert st'.outbound + st'.queue == st.outbound + st.queue;
      }
      RunIsFifo(env, st', evs[1..]);
    }
  }

  /** With a clock that never goes back, the last-activity timestamp never decreases. */
  lemma {:induction false} RunClockMonotone(env: StreamEnv, st: StreamState, evs: seq<StreamEvent>, t: int)
    requires ClockFrom(t, evs) && st.lastMsgSent <= t
    ensures Run(env, st, evs).lastMsgSent >= st.lastMsgSent
    decreases |evs|
  {
    if evs != [] && !st.disconnected {
      var st' := Step(env, st, evs[0]);
      match evs[0]
      case Poll(n) => RunClockMonotone(env, st', evs[1..], n);
      case HeartbeatCheck(n, _) => RunClockMonotone(env, st', evs[1..], n);
      case _ => RunClockMonotone(env, st', evs[1..], t);
    }
  }

  /** Once enough writer iterations run, every queued response is written, in queue order. */
  lemma {:induction false} PollsDrainQueue(env: StreamEnv, st: StreamState, times: seq<int>)
    requires !st.disconnected && |times| >= |st.queue|
    ensures Run(env, st, Polls(times)).queue == []
    ensures Run(env, st, Polls(times)).outbound == st.outbound + st.queue
    decreases |times|
  {
    if times != [] {
      var st' := Step(env, st, Poll(times[0]));
      assert Polls(times)[1..] == Polls(times[1..]);
      if st.queue != [] {
        assert st.outbound + st.queue == st'.outbound + st'.queue;
      }
      PollsDrainQueue(env, st', times[1..]);
    }
  }

  /**
   * An idle agent with an identity sends a heartbeat; an invalid reply ends the
   * attempt at once and nothing after it is processed.
   */
  lemma HeartbeatRejectionDisconnects(env: StreamEnv, st: StreamState, now: int, reason: string, pathId: int,
                                      rest: seq<StreamEvent>)
    requires env.heartbeatEnabled && env.agentId.Some? && !st.disconnected
    requires HeartbeatDue(now, st.lastMsgSent, env.maxInactivitySecs)
    ensures Run(env, st, [HeartbeatCheck(now, Ok(false, reason, pathId))] + rest)
         == st.(lastMsgSent := now, disconnected := true)
  {
    var evs := [HeartbeatCheck(now, Ok(false, reason, pathId))] + rest;
    assert evs[1..] == rest;
  }

  /** No heartbeat is sent before the inactivity threshold is exceeded, nor without an agent id. */
  lemma HeartbeatNotDue(env: StreamEnv, st: StreamState, now: int, reply: Reply)
    requires !env.heartbeatEnabled || env.agentId.None? || !HeartbeatDue(now, st.lastMsgSent, env.maxInactivitySecs)
    ensures Step(env, st, HeartbeatCheck(now, reply)) == st
  {
  }
}
