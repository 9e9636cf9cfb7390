/**
 * The Java agent's path registry: `registerPath`/`unregisterPath` with their
 * proxy calls `registerPathOnProxy`/`unregisterPathOnProxy`, and `registerPaths`
 * over the configured paths. Each step is a value-level transition of the map
 * and of the last-message timestamp; the proxy's reply is an input.
 */
module AgentRegistry {
  import opened Wrappers
  import opened AgentFetch

  /** One configured path: `{name, path, url}`. */
  datatype PathConfig = PathConfig(name: string, path: string, url: string)

  /** A blocking RPC's result: a reply (with `pathId` used by registerPath only) or a gRPC StatusRuntimeException. */
  datatype Reply = Ok(valid: bool, reason: string, pathId: int) | Transport

  /** The exceptions that leave a registration step. */
  datatype Failure =
    | RequestFailure(message: string)   // RequestFailureException on an invalid reply
    | StatusError                       // StatusRuntimeException from the transport
    | NullAgentId                       // the protobuf builder refuses a null agent id

  datatype Outcome = Done | Failed(failure: Failure)

  datatype PathStep = PathStep(outcome: Outcome, paths: map<string, PathContext>, lastMsgSent: int)

  /** Removes exactly one leading `/`. */
  function StripSlash(p: string): string {
    if |p| > 0 && p[0] == '/' then p[1..] else p
  }

  /** Every entry is stored under its own path. */
  ghost predicate KeysMatch(paths: map<string, PathContext>) {
    forall k :: k in paths ==> paths[k].path == k
  }

  /**
   * `registerPath(pathVal, url)`: strip one leading slash, ask the proxy, and
   * store the context only once the proxy accepted the path. Any reply (valid
   * or not) marks a message as sent at `now`; an invalid reply raises
   * "registerPath() - <reason>" and leaves the map as it was.
   */
  function RegisterPathStep(paths: map<string, PathContext>, agentId: Option<string>, pathVal: string, url: string,
                            reply: Reply, lastMsgSent: int, now: int): (r: PathStep)
    ensures r.outcome.Done? <==> agentId.Some? && reply.Ok? && reply.valid
    ensures r.outcome.Done? ==>
              r.paths == paths[StripSlash(pathVal) := PathContext(reply.pathId, StripSlash(pathVal), url)]
    ensures !r.outcome.Done? ==> r.paths == paths
    ensures agentId.Some? && reply.Ok? && !reply.valid ==>
              r.outcome == Failed(RequestFailure("registerPath() - " + reply.reason))
    ensures r.lastMsgSent == if agentId.Some? && reply.Ok? then now else lastMsgSent
    ensures KeysMatch(paths) ==> KeysMatch(r.paths)
  {
    var path := StripSlash(pathVal);
    if agentId.None? then PathStep(Failed(NullAgentId), paths, lastMsgSent)
    else
      match reply
      case Transport => PathStep(Failed(StatusError), paths, lastMsgSent)
      case Ok(valid, reason, pathId) =>
        if !valid then PathStep(Failed(RequestFailure("registerPath() - " + reason)), paths, now)
        else PathStep(Done, paths[path := PathContext(pathId, path, url)], now)
  }

  /**
   * `unregisterPath(pathVal)`: strip one leading slash, ask the proxy, and only
   * on a valid reply remove the key; removing an absent key is not an error.
   */
  function UnregisterPathStep(paths: map<string, PathContext>, agentId: Option<string>, pathVal: string,
                              reply: Reply, lastMsgSent: int, now: int): (r: PathStep)
    ensures r.outcome.Done? <==> agentId.Some? && reply.Ok? && reply.valid
    ensures r.outcome.Done? ==> r.paths == paths - {StripSlash(pathVal)}
    ensures !r.outcome.Done? ==> r.paths == paths
    ensures agentId.Some? && reply.Ok? && !reply.valid ==>
              r.outcome == Failed(RequestFailure("unregisterPath() - " + reply.reason))
    ensures r.lastMsgSent == if agentId.Some? && reply.Ok? then now else lastMsgSent
    ensures KeysMatch(paths) ==> KeysMatch(r.paths)
  {
    var path := StripSlash(pathVal);
    if agentId.None? then PathStep(Failed(NullAgentId), paths, lastMsgSent)
    else
      match reply
      case Transport => PathStep(Failed(StatusError), paths, lastMsgSent)
      case Ok(valid, reason, _) =>
        if !valid then PathStep(Failed(RequestFailure("unregisterPath() - " + reason)), paths, now)
        else PathStep(Done, paths - {path}, now)
  }

  /**
   * `registerPaths`: register the configured paths in order, one proxy reply
   * each, stopping at the first failure.
   */
  function RegisterPathsSpec(paths: map<string, PathContext>, agentId: Option<string>, configs: seq<PathConfig>,
                             replies: seq<Reply>, lastMsgSent: int, now: int): PathStep
    requires |replies| == |configs|
    decreases |configs|
  {
    if configs == [] then PathStep(Done, paths, lastMsgSent)
    else
      var step := RegisterPathStep(paths, agentId, configs[0].path, configs[0].url, replies[0], lastMsgSent, now);
      if step.outcome.Failed? then step
      else RegisterPathsSpec(step.paths, agentId, configs[1..], replies[1..], step.lastMsgSent, now)
  }

  /** The keys the configured paths are stored under. */
  function ConfigKeys(configs: seq<PathConfig>): set<string> {
    set i | 0 <= i < |configs| :: StripSlash(configs[i].path)
  }

  /** Every reply in the list is a valid proxy reply. */
  predicate AllAccepted(replies: seq<Reply>) {
    forall i :: 0 <= i < |replies| ==> replies[i].Ok? && replies[i].valid
  }

  // ---------------------------------------------------------------------------
  // Properties of the registry steps

  /**
   * After the proxy accepts a path, a scrape request for it (without its slash)
   * is served from the new context: a 2xx fetch gives a valid response with the
   * body and content type verbatim.
   */
  lemma RegisterThenScrape(paths: map<string, PathContext>, id: string, pathVal: string, url: string,
                           pathId: int, last: int, now: int, req: ScrapeRequest, code: int, body: string, ctype: string)
    requires req.path == StripSlash(pathVal) && 200 <= code < 300
    ensures var step := RegisterPathStep(paths, Some(id), pathVal, url, Ok(true, "", pathId), last, now);
            && step.paths[req.path].url == url
            && FetchUrl(req, step.paths, Response(code, body, ctype))
               == ScrapeResponse(req.agentId, req.scrapeId, true, code, "", body, ctype)
  {
  }

  /** After a successful unregister, a request for that path gets the 404 "Invalid path" answer. */
  lemma UnregisterThenScrape(paths: map<string, PathContext>, id: string, pathVal: string, reason: string,
                             last: int, now: int, req: ScrapeRequest, fetch: FetchOutcome)
    requires req.path == StripSlash(pathVal)
    ensures var step := UnregisterPathStep(paths, Some(id), pathVal, Ok(true, reason, 0), last, now);
            && step.outcome == Done
            && FetchUrl(req, step.paths, fetch).statusCode == 404
            && FetchUrl(req, step.paths, fetch).reason == "Invalid path: " + req.path
  {
  }

  /** Unregistering twice leaves the same map as unregistering once, and the second time is no error. */
  lemma UnregisterIdempotent(paths: map<string, PathContext>, id: string, pathVal: string,
                             r1: string, r2: string, last: int, t1: int, t2: int)
    ensures var once := UnregisterPathStep(paths, Some(id), pathVal, Ok(true, r1, 0), last, t1);
            var twice := UnregisterPathStep(once.paths, Some(id), pathVal, Ok(true, r2, 0), once.lastMsgSent, t2);
            twice.outcome == Done && twice.paths == once.paths
  {
  }

  /** Once a registration fails, the replies to the paths after it are never looked at. */
  lemma {:induction false} RegisterPathsStopsAtFirstFailure(paths: map<string, PathContext>, agentId: Option<string>,
                                                              configs: seq<PathConfig>, replies: seq<Reply>,
                                                              last: int, now: int, k: nat)
    requires |replies| == |configs| && k < |configs|
    requires AllAccepted(replies[..k]) && !(replies[k].Ok? && replies[k].valid)
    ensures RegisterPathsSpec(paths, agentId, configs, replies, last, now)
         == RegisterPathsSpec(paths, agentId, configs[..k + 1], replies[..k + 1], last, now)
    ensures RegisterPathsSpec(paths, agentId, configs, replies, last, now).outcome.Failed?
    decreases k
  {
    var step := RegisterPathStep(paths, agentId, configs[0].path, configs[0].url, replies[0], last, now);
    assert configs[..k + 1][0] == configs[0] && replies[..k + 1][0] == replies[0];
    if k > 0 {
      assert replies[..k][0] == replies[0];
      if step.outcome.Done? {
        assert configs[..k + 1][1..] == configs[1..][..k];
        assert replies[..k + 1][1..] == replies[1..][..k];
        assert replies[1..][..k - 1] == replies[..k][1..];
        RegisterPathsStopsAtFirstFailure(step.paths, agentId, configs[1..], replies[1..], step.lastMsgSent, now, k - 1);
      }
    }
  }

  /**
   * `registerPaths` completes exactly when every reply is valid (given an
   * agent id), and then every configured path is registered, the last
   * configuration of a path deciding its URL.
   */
  lemma {:induction false} RegisterPathsAllAccepted(paths: map<string, PathContext>, id: string,
                                                      configs: seq<PathConfig>, replies: seq<Reply>, last: int, now: int)
    requires |replies| == |configs|
    ensures var r := RegisterPathsSpec(paths, Some(id), configs, replies, last, now);
            && (r.outcome.Done? <==> AllAccepted(replies))
            && (r.outcome.Done? ==> ConfigKeys(configs) <= r.paths.Keys)
            && (r.outcome.Done? ==>
                  forall i :: 0 <= i < |configs| && StripSlash(configs[i].path) !in ConfigKeys(configs[i + 1..]) ==>
                    r.paths[StripSlash(configs[i].path)].url == configs[i].url)
    decreases |configs|
  {
    if configs != [] {
      var step := RegisterPathStep(paths, Some(id), configs[0].path, configs[0].url, replies[0], last, now);
      if step.outcome.Done? {
        RegisterPathsAllAccepted(step.paths, id, configs[1..], replies[1..], step.lastMsgSent, now);
        var r := RegisterPathsSpec(step.paths, Some(id), configs[1..], replies[1..], step.lastMsgSent, now);
        assert AllAccepted(replies) <==> AllAccepted(replies[1..]) by {
          if AllAccepted(replies[1..]) {
            forall i | 0 <= i < |replies| ensures replies[i].Ok? && replies[i].valid {
              if i > 0 { assert replies[i] == replies[1..][i - 1]; }
            }
          }
        }
        if r.outcome.Done? {
          RegisterPathsMonotone(step.paths, Some(id), configs[1..], replies[1..], step.lastMsgSent, now);
          forall i | 0 <= i < |configs| && StripSlash(configs[i].path) !in ConfigKeys(configs[i + 1..])
            ensures r.paths[StripSlash(configs[i].path)].url == configs[i].url
          {
            if i > 0 {
              assert configs[i] == configs[1..][i - 1];
              assert configs[i + 1..] == configs[1..][i..];
            } else {
              assert configs[1..] == configs[i + 1..];
            }
          }
        }
      }
    }
  }

  /** Keys present before `registerPaths` are still present after it, with unchanged contexts unless re-registered. */
  lemma {:induction false} RegisterPathsMonotone(paths: map<string, PathContext>, agentId: Option<string>,
                                                   configs: seq<PathConfig>, replies: seq<Reply>, last: int, now: int)
    requires |replies| == |configs|
    ensures var r := RegisterPathsSpec(paths, agentId, configs, replies, last, now);
            && paths.Keys <= r.paths.Keys
            && (r.outcome.Done? ==> ConfigKeys(configs) <= r.paths.Keys)
            && (forall k :: k in paths && k !in ConfigKeys(configs) ==> r.paths[k] == paths[k])
            && r.paths.Keys <= paths.Keys + ConfigKeys(configs)
    decreases |configs|
  {
    if configs != [] {
      var step := RegisterPathStep(paths, agentId, configs[0].path, configs[0].url, replies[0], last, now);
      if step.outcome.Done? {
        RegisterPathsMonotone(step.paths, agentId, configs[1..], replies[1..], step.lastMsgSent, now);
      }
    }
  }
}
