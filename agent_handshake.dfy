/**
 * One connection attempt of the Java agent up to streaming (`connectToProxy`):
 * reset, connect, `registerAgent`, `registerPaths`. The result is computed from
 * the replies alone: nothing of the previous attempt's identity, paths or
 * timestamp is an argument, so none of it can survive the reset.
 */
module AgentHandshake {
  import opened Wrappers
  import opened AgentFetch
  import opened AgentRegistry

  /**
   * The connect RPC's result. On success, the identity that the client
   * interceptor copies from the reply headers (AgentClientInterceptor is not
   * part of this model), if the headers carried one.
   */
  datatype ConnectReply = Connected(headerAgentId: Option<string>) | ConnectFailed

  /** How an attempt's handshake ended. */
  datatype AttemptOutcome = NotConnected | Aborted(failure: Failure) | Streaming

  datatype AgentStep = AgentStep(outcome: Outcome, lastMsgSent: int, latchReleased: bool)

  /**
   * `registerAgent`: any reply marks a message as sent; an invalid reply raises
   * "registerAgent() - <reason>"; only a valid reply releases the
   * initial-connection latch.
   */
  function RegisterAgentStep(agentId: Option<string>, reply: Reply, lastMsgSent: int, now: int, latch: bool): (r: AgentStep)
    ensures r.outcome.Done? <==> agentId.Some? && reply.Ok? && reply.valid
    ensures r.latchReleased == (latch || r.outcome.Done?)
    ensures agentId.Some? && reply.Ok? && !reply.valid ==>
              r.outcome == Failed(RequestFailure("registerAgent() - " + reply.reason))
    ensures r.lastMsgSent == if agentId.Some? && reply.Ok? then now else lastMsgSent
  {
    if agentId.None? then AgentStep(Failed(NullAgentId), lastMsgSent, latch)
    else
      match reply
      case Transport => AgentStep(Failed(StatusError), lastMsgSent, latch)
      case Ok(valid, reason, _) =>
        if valid then AgentStep(Done, now, true)
        else AgentStep(Failed(RequestFailure("registerAgent() - " + reason)), now, latch)
  }

  datatype Handshake = Handshake(
    outcome: AttemptOutcome,
    agentId: Option<string>,
    paths: map<string, PathContext>,
    lastMsgSent: int,
    latchReleased: bool)

  /**
   * The state after the reset and handshake of one attempt: connect gates
   * everything, then the agent registers, then the configured paths register in
   * order. `latch` is whether the initial-connection latch was already released.
   */
  function HandshakeSpec(connect: ConnectReply, agentReply: Reply, configs: seq<PathConfig>, pathReplies: seq<Reply>,
                         now: int, latch: bool): Handshake
    requires |pathReplies| == |configs|
  {
    match connect
    case ConnectFailed => Handshake(NotConnected, None, map[], 0, latch)
    case Connected(id) =>
      var a := RegisterAgentStep(id, agentReply, 0, now, latch);
      if a.outcome.Failed? then Handshake(Aborted(a.outcome.failure), id, map[], a.lastMsgSent, a.latchReleased)
      else
        var p := RegisterPathsSpec(map[], id, configs, pathReplies, a.lastMsgSent, now);
        Handshake(if p.outcome.Failed? then Aborted(p.outcome.failure) else Streaming,
                  id, p.paths, p.lastMsgSent, a.latchReleased)
  }

  /** The connect gave an identity and the proxy accepted the agent registration. */
  predicate AgentAccepted(connect: ConnectReply, agentReply: Reply) {
    connect.Connected? && connect.headerAgentId.Some? && agentReply.Ok? && agentReply.valid
  }

  /** The identity an attempt ends with: the one the connect carried, none if it failed. */
  function IdAfter(connect: ConnectReply): Option<string> {
    if connect.Connected? then connect.headerAgentId else None
  }

  /**
   * The latch an attempt starts with affects only the latch it ends with,
   * which is released if it was already or if the agent was accepted.
   */
  lemma HandshakeLatchOnly(connect: ConnectReply, agentReply: Reply, configs: seq<PathConfig>, pathReplies: seq<Reply>,
                           now: int, l1: bool, l2: bool)
    requires |pathReplies| == |configs|
    ensures var h1 := HandshakeSpec(connect, agentReply, configs, pathReplies, now, l1);
            var h2 := HandshakeSpec(connect, agentReply, configs, pathReplies, now, l2);
            && h1.outcome == h2.outcome && h1.agentId == h2.agentId && h1.paths == h2.paths
            && h1.lastMsgSent == h2.lastMsgSent
            && h1.agentId == IdAfter(connect)
            && (h1.latchReleased <==> l1 || AgentAccepted(connect, agentReply))
  {
  }

  /** A failed connect ends the attempt with everything reset and no registration. */
  lemma HandshakeConnectGate(agentReply: Reply, configs: seq<PathConfig>, pathReplies: seq<Reply>, now: int, latch: bool)
    requires |pathReplies| == |configs|
    ensures HandshakeSpec(ConnectFailed, agentReply, configs, pathReplies, now, latch)
         == Handshake(NotConnected, None, map[], 0, latch)
  {
  }

  /**
   * A rejected agent registration aborts before any path is registered and
   * leaves the latch as it was.
   */
  lemma HandshakeAgentRejected(id: string, reason: string, pathId: int, configs: seq<PathConfig>,
                               pathReplies: seq<Reply>, now: int, latch: bool)
    requires |pathReplies| == |configs|
    ensures HandshakeSpec(Connected(Some(id)), Ok(false, reason, pathId), configs, pathReplies, now, latch)
         == Handshake(Aborted(RequestFailure("registerAgent() - " + reason)), Some(id), map[], now, latch)
  {
  }

  /**
   * The attempt reaches streaming exactly when the connect succeeded with an
   * identity and every registration was accepted; the latch is released exactly
   * when the agent registration was; the map only ever holds configured paths,
   * and holds all of them when streaming.
   */
  lemma HandshakeStreaming(connect: ConnectReply, agentReply: Reply, configs: seq<PathConfig>, pathReplies: seq<Reply>,
                           now: int, latch: bool)
    requires |pathReplies| == |configs|
    ensures var h := HandshakeSpec(connect, agentReply, configs, pathReplies, now, latch);
            && (h.outcome == Streaming <==>
                  connect.Connected? && connect.headerAgentId.Some? && agentReply.Ok? && agentReply.valid
                  && AllAccepted(pathReplies))
            && (h.latchReleased <==>
                  latch || (connect.Connected? && connect.headerAgentId.Some? && agentReply.Ok? && agentReply.valid))
            && h.paths.Keys <= ConfigKeys(configs)
            && (h.outcome == Streaming ==> h.paths.Keys == ConfigKeys(configs))
            && KeysMatch(h.paths)
  {
    if connect.Connected? {
      var id := connect.headerAgentId;
      var a := RegisterAgentStep(id, agentReply, 0, now, latch);
      if a.outcome.Done? {
        RegisterPathsMonotone(map[], id, configs, pathReplies, a.lastMsgSent, now);
        RegisterPathsAllAccepted(map[], id.value, configs, pathReplies, a.lastMsgSent, now);
        RegisterPathsKeysMatch(map[], id, configs, pathReplies, a.lastMsgSent, now);
      }
    }
  }

  /** `registerPaths` keeps every entry stored under its own path. */
  lemma {:induction false} RegisterPathsKeysMatch(paths: map<string, PathContext>, agentId: Option<string>,
                                                    configs: seq<PathConfig>, replies: seq<Reply>, last: int, now: int)
    requires |replies| == |configs| && KeysMatch(paths)
    ensures KeysMatch(RegisterPathsSpec(paths, agentId, configs, replies, last, now).paths)
    decreases |configs|
  {
    if configs != [] {
      var step := RegisterPathStep(paths, agentId, configs[0].path, configs[0].url, replies[0], last, now);
      if step.outcome.Done? {
        RegisterPathsKeysMatch(step.paths, agentId, configs[1..], replies[1..], step.lastMsgSent, now);
      }
    }
  }
}
