/**
 * The Java agent (`com.sudothought.Agent`) as an object whose fields the
 * session updates in place: the agent id, the path map, the bounded response
 * queue, the last-message timestamp, the per-attempt disconnected flag, the
 * outbound stream, and the once-only latch and stop flags. Transport and
 * clock readings are method parameters; the stub rebuilds and rate-limiter
 * acquisitions are counted.
 */
module AgentSession {
  import opened Wrappers
  import opened AgentFetch
  import opened AgentRegistry
  import opened AgentHandshake
  import opened AgentStream

  /** Everything one iteration of the retry loop receives from the outside. */
  datatype AttemptScript = AttemptScript(
    connect: ConnectReply,
    agentReply: Reply,
    pathReplies: seq<Reply>,
    now: int,
    events: seq<StreamEvent>,
    stopRequested: bool)   // `stop()` is called while this attempt runs

  /** The identity the agent holds after the attempts `ss`, starting from `first`. */
  function IdBefore(first: Option<string>, ss: seq<AttemptScript>): Option<string> {
    if ss == [] then first else IdAfter(ss[|ss| - 1].connect)
  }

  /** How many of the attempts `ss` began with an identity, and so rebuilt the stubs. */
  function StubResets(first: Option<string>, ss: seq<AttemptScript>): nat
    decreases |ss|
  {
    if ss == [] then 0
    else StubResets(first, ss[..|ss| - 1]) + (if IdBefore(first, ss[..|ss| - 1]).Some? then 1 else 0)
  }

  /** One more attempt: the identity is the one it connected with, and it rebuilt the stubs iff it began with one. */
  lemma PrefixStep(first: Option<string>, ss: seq<AttemptScript>, k: nat)
    requires k < |ss|
    ensures IdBefore(first, ss[..k + 1]) == IdAfter(ss[k].connect)
    ensures StubResets(first, ss[..k + 1]) == StubResets(first, ss[..k]) + (if IdBefore(first, ss[..k]).Some? then 1 else 0)
  {
    assert ss[..k + 1][..k] == ss[..k];
  }

  class Agent {
    var agentId: Option<string>
    var paths: map<string, PathContext>
    var queue: seq<ScrapeResponse>
    var lastMsgSent: int
    var disconnected: bool
    var outbound: seq<ScrapeResponse>
    var outboundCompleted: bool
    var latchReleased: bool      // initialConnectionLatch counted down
    var stopped: bool
    var stubResets: nat          // times the channel and stubs were rebuilt
    var limiterAcquires: nat     // reconnectLimiter.acquire() calls
    const capacity: nat          // scrapeResponseQueueSize
    const pathConfigs: seq<PathConfig>
    const heartbeatEnabled: bool
    const maxInactivitySecs: int

    ghost predicate Valid()
      reads this
    {
      0 < capacity && |queue| <= capacity && KeysMatch(paths)
    }

    /** What the streaming phase reads. */
    function Env(): StreamEnv
      reads this`paths, this`agentId
    {
      StreamEnv(paths, agentId, capacity, heartbeatEnabled, maxInactivitySecs)
    }

    /** What the streaming phase changes. */
    function Stream(): StreamState
      reads this`queue, this`outbound, this`lastMsgSent, this`disconnected
    {
      StreamState(queue, outbound, lastMsgSent, disconnected)
    }

    /**
     * The state an attempt run from script `s` leaves behind: the identity and
     * paths of its handshake, and either the reset stream state or the stream
     * state after its events. (The latch is stated separately.)
     */
    ghost predicate LeftBy(s: AttemptScript)
      reads this`agentId, this`paths, this`queue, this`outbound, this`lastMsgSent, this`disconnected,
            this`outboundCompleted, this`latchReleased
      requires |s.pathReplies| == |pathConfigs|
    {
      var h := HandshakeSpec(s.connect, s.agentReply, pathConfigs, s.pathReplies, s.now, latchReleased);
      && agentId == h.agentId && paths == h.paths
      && (h.outcome != Streaming ==>
            lastMsgSent == h.lastMsgSent && queue == [] && outbound == [] && !disconnected && !outboundCompleted)
      && (h.outcome == Streaming ==>
            Stream() == Run(Env(), StreamState([], [], h.lastMsgSent, false), s.events)
            && outboundCompleted == disconnected)
    }

    /** The handshake of script `s` reaches streaming (the starting latch does not matter). */
    ghost predicate Streams(s: AttemptScript)
      requires |s.pathReplies| == |pathConfigs|
    {
      HandshakeSpec(s.connect, s.agentReply, pathConfigs, s.pathReplies, s.now, false).outcome == Streaming
    }

    /**
     * Script `s` streams and its events never disconnect: the writer loop is
     * still running when the script ends, so the attempt has not returned.
     */
    ghost predicate StillStreaming(s: AttemptScript)
      requires |s.pathReplies| == |pathConfigs|
    {
      var h := HandshakeSpec(s.connect, s.agentReply, pathConfigs, s.pathReplies, s.now, false);
      && h.outcome == Streaming
      && !Run(StreamEnv(h.paths, h.agentId, capacity, heartbeatEnabled, maxInactivitySecs),
              StreamState([], [], h.lastMsgSent, false), s.events).disconnected
    }

    /** `new ArrayBlockingQueue<>(queueSize)` refuses a size below 1. */
    constructor (capacity: nat, pathConfigs: seq<PathConfig>, heartbeatEnabled: bool, maxInactivitySecs: int)
      requires capacity > 0
      ensures Valid()
      ensures agentId == None && paths == map[] && queue == [] && lastMsgSent == 0
      ensures !disconnected && outbound == [] && !outboundCompleted
      ensures !latchReleased && !stopped && stubResets == 0 && limiterAcquires == 0
      ensures this.capacity == capacity && this.pathConfigs == pathConfigs
      ensures this.heartbeatEnabled == heartbeatEnabled && this.maxInactivitySecs == maxInactivitySecs
    {
      this.capacity := capacity;
      this.pathConfigs := pathConfigs;
      this.heartbeatEnabled := heartbeatEnabled;
      this.maxInactivitySecs := maxInactivitySecs;
      agentId := None;
      paths := map[];
      queue := [];
      lastMsgSent := 0;
      disconnected := false;
      outbound := [];
      outboundCompleted := false;
      latchReleased := false;
      stopped := false;
      stubResets := 0;
      limiterAcquires := 0;
    }

    method MarkMsgSent(now: int)
      modifies this`lastMsgSent
      ensures lastMsgSent == now
    {
      lastMsgSent := now;
    }

    /** A new channel and new stubs; the channel itself is not part of this model. */
    method ResetGrpcStubs()
      modifies this`stubResets
      ensures stubResets == old(stubResets) + 1
    {
      stubResets := stubResets + 1;
    }

    /** `start()`: prime the rate limiter and build the first stubs, before the retry loop runs. */
    method Start()
      modifies this`limiterAcquires, this`stubResets
      ensures limiterAcquires == old(limiterAcquires) + 1 && stubResets == old(stubResets) + 1
    {
      limiterAcquires := limiterAcquires + 1;
      ResetGrpcStubs();
    }

    /** `stop()`: only the first call does the shutdown. */
    method Stop() returns (first: bool)
      modifies this`stopped
      ensures stopped && first == !old(stopped)
    {
      first := !stopped;
      stopped := true;
    }

    method RegisterAgent(reply: Reply, now: int) returns (o: Outcome)
      modifies this`lastMsgSent, this`latchReleased
      ensures var s := RegisterAgentStep(agentId, reply, old(lastMsgSent), now, old(latchReleased));
              o == s.outcome && lastMsgSent == s.lastMsgSent && latchReleased == s.latchReleased
    {
      if agentId.None? {
        return Failed(NullAgentId);
      }
      match reply
      case Transport =>
        o := Failed(StatusError);
      case Ok(valid, reason, _) =>
        MarkMsgSent(now);
        if !valid {
          return Failed(RequestFailure("registerAgent() - " + reason));
        }
        latchReleased := true;
        o := Done;
    }

    /** `registerPathOnProxy`: the path id on a valid reply. */
    method RegisterPathOnProxy(path: string, reply: Reply, now: int) returns (r: Result<int, Failure>)
      modifies this`lastMsgSent
      ensures r.Success? <==> agentId.Some? && reply.Ok? && reply.valid
      ensures r.Success? ==> r.value == reply.pathId
      ensures r.Failure? ==> RegisterPathStep(paths, agentId, path, "", reply, old(lastMsgSent), now).outcome == Failed(r.error)
      ensures lastMsgSent == if agentId.Some? && reply.Ok? then now else old(lastMsgSent)
    {
      if agentId.None? {
        return Failure(NullAgentId);
      }
      match reply
      case Transport =>
        r := Failure(StatusError);
      case Ok(valid, reason, pathId) =>
        MarkMsgSent(now);
        if !valid {
          return Failure(RequestFailure("registerPath() - " + reason));
        }
        r := Success(pathId);
    }

    method RegisterPath(pathVal: string, url: string, reply: Reply, now: int) returns (o: Outcome)
      requires Valid()
      modifies this`paths, this`lastMsgSent
      ensures Valid()
      ensures var s := RegisterPathStep(old(paths), agentId, pathVal, url, reply, old(lastMsgSent), now);
              o == s.outcome && paths == s.paths && lastMsgSent == s.lastMsgSent
    {
      var path := StripSlash(pathVal);
      var pathId := RegisterPathOnProxy(path, reply, now);
      if pathId.Failure? {
        return Failed(pathId.error);
      }
      paths := paths[path := PathContext(pathId.value, path, url)];
      o := Done;
    }

    method UnregisterPathOnProxy(path: string, reply: Reply, now: int) returns (o: Outcome)
      modifies this`lastMsgSent
      ensures o.Done? <==> agentId.Some? && reply.Ok? && reply.valid
      ensures o == UnregisterPathStep(paths, agentId, path, reply, old(lastMsgSent), now).outcome
      ensures lastMsgSent == if agentId.Some? && reply.Ok? then now else old(lastMsgSent)
    {
      if agentId.None? {
        return Failed(NullAgentId);
      }
      match reply
      case Transport =>
        o := Failed(StatusError);
      case Ok(valid, reason, _) =>
        MarkMsgSent(now);
        if !valid {
          return Failed(RequestFailure("unregisterPath() - " + reason));
        }
        o := Done;
    }

    method UnregisterPath(pathVal: string, reply: Reply, now: int) returns (o: Outcome)
      requires Valid()
      modifies this`paths, this`lastMsgSent
      ensures Valid()
      ensures var s := UnregisterPathStep(old(paths), agentId, pathVal, reply, old(lastMsgSent), now);
              o == s.outcome && paths == s.paths && lastMsgSent == s.lastMsgSent
    {
      var path := StripSlash(pathVal);
      o := UnregisterPathOnProxy(path, reply, now);
      if o.Failed? {
        return;
      }
      // removing an absent key leaves the map unchanged
      paths := paths - {path};
    }

    /** `registerPaths`: the configured paths in order, one reply each, up to the first failure. */
    method RegisterPaths(replies: seq<Reply>, now: int) returns (o: Outcome)
      requires Valid() && |replies| == |pathConfigs|
      modifies this`paths, this`lastMsgSent
      ensures Valid()
      ensures var s := RegisterPathsSpec(old(paths), agentId, pathConfigs, replies, old(lastMsgSent), now);
              o == s.outcome && paths == s.paths && lastMsgSent == s.lastMsgSent
    {
      ghost var spec := RegisterPathsSpec(paths, agentId, pathConfigs, replies, lastMsgSent, now);
      o := Done;
      var i := 0;
      while i < |pathConfigs|
        invariant 0 <= i <= |pathConfigs|
        invariant Valid()
        invariant spec == RegisterPathsSpec(paths, agentId, pathConfigs[i..], replies[i..], lastMsgSent, now)
        invariant o == Done
      {
        o := RegisterPath(pathConfigs[i].path, pathConfigs[i].url, replies[i], now);
        if o.Failed? {
          return;
        }
        i := i + 1;
      }
      assert pathConfigs[i..] == [];
    }

    /** A fetch task's response goes into the queue if there is room; otherwise its producer is still blocked. */
    method Put(r: ScrapeResponse) returns (admitted: bool)
      requires Valid()
      modifies this`queue
      ensures Valid()
      ensures admitted == (|old(queue)| < capacity)
      ensures queue == AgentStream.Put(old(queue), capacity, r)
    {
      admitted := |queue| < capacity;
      if admitted {
        queue := queue + [r];
      }
    }

    /** The task `readRequestsFromProxy` submits for an inbound request: `fetchUrl`, then put. */
    method FetchAndPut(req: ScrapeRequest, fetch: FetchOutcome) returns (admitted: bool)
      requires Valid()
      modifies this`queue
      ensures Valid()
      ensures admitted == (|old(queue)| < capacity)
      ensures queue == AgentStream.Put(old(queue), capacity, FetchUrl(req, paths, fetch))
    {
      var response := FetchUrl(req, paths, fetch);
      admitted := Put(response);
    }

    /** One writer-loop iteration: a non-empty poll is written and refreshes the timestamp. */
    method PollOnce(now: int) returns (sent: Option<ScrapeResponse>)
      requires Valid()
      modifies this`queue, this`outbound, this`lastMsgSent
      ensures Valid()
      ensures sent == if old(queue) == [] then None else Some(old(queue)[0])
      ensures Stream() == Step(Env(), old(Stream()), Poll(now))
    {
      if queue == [] {
        return None;
      }
      var response := queue[0];
      queue := queue[1..];
      outbound := outbound + [response];
      MarkMsgSent(now);
      sent := Some(response);
    }

    method SendHeartBeat(reply: Reply, now: int)
      modifies this`lastMsgSent, this`disconnected
      ensures Stream() == SendHeartBeatStep(agentId, reply, now, old(Stream()))
    {
      if agentId.None? {
        return;
      }
      match reply
      case Transport =>
        disconnected := true;
      case Ok(valid, _, _) =>
        MarkMsgSent(now);
        if !valid {
          disconnected := true;
        }
    }

    /** One heartbeat-loop iteration. */
    method CheckHeartBeat(now: int, reply: Reply)
      modifies this`lastMsgSent, this`disconnected
      ensures Stream() == Step(Env(), old(Stream()), HeartbeatCheck(now, reply))
    {
      if heartbeatEnabled && now - lastMsgSent > maxInactivitySecs * 1000 {
        SendHeartBeat(reply, now);
      }
    }

    method HandleEvent(ev: StreamEvent)
      requires Valid()
      modifies this`queue, this`outbound, this`lastMsgSent, this`disconnected
      ensures Valid()
      ensures Stream() == Step(Env(), old(Stream()), ev)
    {
      match ev
      case Poll(now) =>
        var _ := PollOnce(now);
      case Scrape(req, fetch) =>
        var _ := FetchAndPut(req, fetch);
      case HeartbeatCheck(now, reply) =>
        CheckHeartBeat(now, reply);
      case StreamClosed =>
        disconnected := true;
    }

    /**
     * `writeResponsesToProxyUntilDisconnected`: the events in order while the
     * attempt is connected; the outbound stream is completed once the loop
     * sees the disconnected flag.
     */
    method WriteResponsesToProxyUntilDisconnected(events: seq<StreamEvent>)
      requires Valid()
      modifies this`queue, this`outbound, this`lastMsgSent, this`disconnected, this`outboundCompleted
      ensures Valid()
      ensures Stream() == Run(Env(), old(Stream()), events)
      ensures outboundCompleted == (old(outboundCompleted) || disconnected)
    {
      ghost var spec := Run(Env(), Stream(), events);
      var i := 0;
      while i < |events| && !disconnected
        invariant 0 <= i <= |events|
        invariant Valid()
        invariant outboundCompleted == old(outboundCompleted)
        invariant spec == Run(Env(), Stream(), events[i..])
      {
        HandleEvent(events[i]);
        i := i + 1;
      }
      if disconnected {
        outboundCompleted := true;
      }
    }

    /**
     * `connectToProxy`: rebuild the stubs if the previous attempt had an
     * identity, reset the per-attempt state, then connect, register the agent
     * and the paths, and stream until disconnected.
     */
    method ConnectToProxy(connect: ConnectReply, agentReply: Reply, pathReplies: seq<Reply>, now: int,
                          events: seq<StreamEvent>) returns (outcome: AttemptOutcome)
      requires Valid() && |pathReplies| == |pathConfigs|
      modifies this`agentId, this`paths, this`queue, this`lastMsgSent, this`disconnected, this`outbound,
               this`outboundCompleted, this`latchReleased, this`stubResets
      ensures Valid()
      ensures stubResets == old(stubResets) + (if old(agentId).Some? then 1 else 0)
      ensures var h := HandshakeSpec(connect, agentReply, pathConfigs, pathReplies, now, old(latchReleased));
              && outcome == h.outcome && agentId == h.agentId && paths == h.paths
              && latchReleased == h.latchReleased
              && (outcome != Streaming ==>
                    lastMsgSent == h.lastMsgSent && queue == [] && outbound == [] && !disconnected && !outboundCompleted)
              && (outcome == Streaming ==>
                    Stream() == Run(Env(), StreamState([], [], h.lastMsgSent, false), events)
                    && outboundCompleted == disconnected)
    {
      if agentId.Some? {
        ResetGrpcStubs();
      }
      agentId := None;
      paths := map[];
      queue := [];
      lastMsgSent := 0;
      disconnected := false;
      outbound := [];
      outboundCompleted := false;

      if connect.ConnectFailed? {
        return NotConnected;
      }
      agentId := connect.headerAgentId;
      var o := RegisterAgent(agentReply, now);
      if o.Failed? {
        return Aborted(o.failure);
      }
      o := RegisterPaths(pathReplies, now);
      if o.Failed? {
        return Aborted(o.failure);
      }
      WriteResponsesToProxyUntilDisconnected(events);
      outcome := Streaming;
    }

    /**
     * One iteration of the retry loop of `start()`: the attempt, a `stop()`
     * if one is requested while it runs, and the rate-limiter acquisition of
     * the `finally` block, whatever the attempt's outcome. A streaming attempt
     * returns only once disconnected; if its events never disconnect it is
     * still running at the end of the script and has not reached the
     * `finally` block.
     */
    method Attempt(s: AttemptScript)
      requires Valid() && |s.pathReplies| == |pathConfigs|
      modifies this
      ensures Valid()
      ensures LeftBy(s)
      ensures agentId == IdAfter(s.connect)
      ensures stubResets == old(stubResets) + (if old(agentId).Some? then 1 else 0)
      ensures latchReleased <==> old(latchReleased) || AgentAccepted(s.connect, s.agentReply)
      ensures stopped <==> old(stopped) || s.stopRequested
      ensures Streams(s) && !StillStreaming(s) ==> disconnected && outboundCompleted
      ensures StillStreaming(s) ==> !disconnected && !outboundCompleted
      ensures limiterAcquires == old(limiterAcquires) + (if StillStreaming(s) then 0 else 1)
    {
      ghost var latch := latchReleased;
      var outcome := ConnectToProxy(s.connect, s.agentReply, s.pathReplies, s.now, s.events);
      HandshakeLatchOnly(s.connect, s.agentReply, pathConfigs, s.pathReplies, s.now, latch, latchReleased);
      HandshakeLatchOnly(s.connect, s.agentReply, pathConfigs, s.pathReplies, s.now, latch, false);
      if s.stopRequested {
        var _ := Stop();
      }
      if outcome != Streaming || disconnected {
        limiterAcquires := limiterAcquires + 1;
      }
    }

    /**
     * After the first `ran` attempts of `scripts`, starting from identity `id0`,
     * `stubs0` stub rebuilds, latch `latch0` and `acq0` limiter acquisitions,
     * with the agent not stopped beforehand.
     */
    ghost predicate Progress(scripts: seq<AttemptScript>, ran: nat, id0: Option<string>, stubs0: nat,
                             latch0: bool, acq0: nat)
      reads this
      requires ran <= |scripts|
      requires forall i :: 0 <= i < |scripts| ==> |scripts[i].pathReplies| == |pathConfigs|
    {
      && Valid()
      && limiterAcquires == acq0 + ran - (if ran > 0 && StillStreaming(scripts[ran - 1]) then 1 else 0)
      && (ran > 0 && Streams(scripts[ran - 1]) && !StillStreaming(scripts[ran - 1]) ==>
            disconnected && outboundCompleted)
      && (ran > 0 ==> (stopped <==> scripts[ran - 1].stopRequested))
      && (forall i :: 0 <= i < ran - 1 ==> !scripts[i].stopRequested)
      && (ran > 0 ==> LeftBy(scripts[ran - 1]))
      && agentId == IdBefore(id0, scripts[..ran])
      && stubResets == stubs0 + StubResets(id0, scripts[..ran])
      && (latchReleased <==>
            latch0 || exists i :: 0 <= i < ran && AgentAccepted(scripts[i].connect, scripts[i].agentReply))
    }

    /** What `Progress` says, clause by clause, once the loop has ended. */
    lemma ProgressMeans(scripts: seq<AttemptScript>, ran: nat, id0: Option<string>, stubs0: nat,
                        latch0: bool, acq0: nat)
      requires ran <= |scripts|
      requires forall i :: 0 <= i < |scripts| ==> |scripts[i].pathReplies| == |pathConfigs|
      requires Progress(scripts, ran, id0, stubs0, latch0, acq0)
      ensures Valid()
      ensures limiterAcquires == acq0 + ran - (if ran > 0 && StillStreaming(scripts[ran - 1]) then 1 else 0)
      ensures ran > 0 && Streams(scripts[ran - 1]) && !StillStreaming(scripts[ran - 1]) ==>
                disconnected && outboundCompleted
      ensures ran > 0 ==> (stopped <==> scripts[ran - 1].stopRequested)
      ensures forall i :: 0 <= i < ran - 1 ==> !scripts[i].stopRequested
      ensures ran > 0 ==> LeftBy(scripts[ran - 1])
      ensures agentId == IdBefore(id0, scripts[..ran])
      ensures stubResets == stubs0 + StubResets(id0, scripts[..ran])
      ensures latchReleased <==>
                latch0 || exists i :: 0 <= i < ran && AgentAccepted(scripts[i].connect, scripts[i].agentReply)
    {
    }

    /** One turn of the retry loop: the agent is not stopped, so attempt `ran` runs. */
    method RetryStep(scripts: seq<AttemptScript>, ran: nat, ghost id0: Option<string>, ghost stubs0: nat,
                     ghost latch0: bool, ghost acq0: nat)
      requires ran < |scripts| && !stopped
      requires forall i :: 0 <= i < |scripts| ==> |scripts[i].pathReplies| == |pathConfigs|
      requires forall i {:trigger StillStreaming(scripts[i])} :: 0 <= i < |scripts| - 1 ==> !StillStreaming(scripts[i])
      requires Progress(scripts, ran, id0, stubs0, latch0, acq0)
      modifies this
      ensures Progress(scripts, ran + 1, id0, stubs0, latch0, acq0)
    {
      PrefixStep(id0, scripts, ran);
      Attempt(scripts[ran]);
    }

    /** The `while (isRunning())` loop itself, entered with the agent not stopped and attempts to run. */
    method RetryLoop(scripts: seq<AttemptScript>, ghost id0: Option<string>, ghost stubs0: nat,
                     ghost latch0: bool, ghost acq0: nat) returns (ran: nat)
      requires scripts != [] && !stopped
      requires forall i :: 0 <= i < |scripts| ==> |scripts[i].pathReplies| == |pathConfigs|
      requires forall i {:trigger StillStreaming(scripts[i])} :: 0 <= i < |scripts| - 1 ==> !StillStreaming(scripts[i])
      requires Progress(scripts, 0, id0, stubs0, latch0, acq0)
      modifies this
      ensures 0 < ran <= |scripts|
      ensures ran < |scripts| ==> stopped
      ensures Progress(scripts, ran, id0, stubs0, latch0, acq0)
    {
      ran := 0;
      while !stopped && ran < |scripts|
        invariant 0 <= ran <= |scripts|
        invariant ran == 0 ==> !stopped
        invariant Progress(scripts, ran, id0, stubs0, latch0, acq0)
      {
        RetryStep(scripts, ran, id0, stubs0, latch0, acq0);
        ran := ran + 1;
      }
    }

    /**
     * The retry loop of `start()`: attempts run until the agent is stopped.
     * Each one leaves the state its own script determines, rebuilds the stubs
     * when it starts with an identity, and acquires the rate limiter once it
     * has returned; the latch, once released, stays released. Every attempt
     * but the last has returned, since the next one starts only after the
     * previous stream disconnected; the last may still be streaming.
     */
    method RunUntilStopped(scripts: seq<AttemptScript>) returns (ran: nat)
      requires Valid()
      requires forall i :: 0 <= i < |scripts| ==> |scripts[i].pathReplies| == |pathConfigs|
      requires forall i {:trigger StillStreaming(scripts[i])} :: 0 <= i < |scripts| - 1 ==> !StillStreaming(scripts[i])
      modifies this
      ensures Valid()
      ensures ran <= |scripts|
      ensures limiterAcquires ==
                old(limiterAcquires) + ran - (if ran > 0 && StillStreaming(scripts[ran - 1]) then 1 else 0)
      ensures ran > 0 && Streams(scripts[ran - 1]) && !StillStreaming(scripts[ran - 1]) ==>
                disconnected && outboundCompleted
      ensures old(stopped) ==> ran == 0
      ensures ran < |scripts| ==> stopped
      ensures ran > 0 ==> (stopped <==> old(stopped) || scripts[ran - 1].stopRequested)
      ensures forall i :: 0 <= i < ran - 1 ==> !scripts[i].stopRequested
      ensures ran > 0 ==> LeftBy(scripts[ran - 1])
      ensures agentId == IdBefore(old(agentId), scripts[..ran])
      ensures stubResets == old(stubResets) + StubResets(old(agentId), scripts[..ran])
      ensures latchReleased <==>
                old(latchReleased) || exists i :: 0 <= i < ran && AgentAccepted(scripts[i].connect, scripts[i].agentReply)
      ensures ran == 0 ==>
                && stopped == old(stopped) && paths == old(paths) && Stream() == old(Stream())
                && outboundCompleted == old(outboundCompleted)
    {
      ran := 0;
      if stopped || scripts == [] {
        return;
      }
      ran := RetryLoop(scripts, agentId, stubResets, latchReleased, limiterAcquires);
      ProgressMeans(scripts, ran, old(agentId), old(stubResets), old(latchReleased), old(limiterAcquires));
    }
  }
}
