/**
 * The scrape request/response messages of the Java agent and `fetchUrl`: the
 * classification of (request, path registry, fetch outcome) into the response
 * that is queued for the proxy. The HTTP fetch itself is an input.
 */
module AgentFetch {
  import opened Wrappers
  import opened Text

  /** A registered path: the proxy-assigned id, the key without its leading slash, the target URL. */
  datatype PathContext = PathContext(pathId: int, path: string, url: string)

  datatype ScrapeRequest = ScrapeRequest(agentId: string, scrapeId: int, path: string)

  datatype ScrapeResponse = ScrapeResponse(
    agentId: string,
    scrapeId: int,
    valid: bool,
    statusCode: int,
    reason: string,
    text: string,
    contentType: string)

  /** What fetching the target URL produced. */
  datatype FetchOutcome =
    | Response(code: int, body: string, contentType: string)
      // an IOException before any response arrived
    | FetchError(exceptionName: string, message: string)
      // a response arrived, but reading its body threw an IOException
    | BodyError(code: int, exceptionName: string, message: string)

  /** OkHttp's `Response.isSuccessful()`. */
  predicate IsSuccessful(code: int) {
    200 <= code < 300
  }

  const NOT_FOUND: int := 404

  function InvalidPathReason(path: string): string {
    "Invalid path: " + path
  }

  const UNSUCCESSFUL_PREFIX: string := "Unsucessful response code "

  function UnsuccessfulReason(code: int): string {
    UNSUCCESSFUL_PREFIX + IntToString(code)
  }

  function ExceptionReason(exceptionName: string, message: string): string {
    exceptionName + " - " + message
  }

  /**
   * `fetchUrl`: the response always answers the request it was made for; it is
   * valid exactly when the path is registered and the fetch returned a 2xx
   * response, and then carries body and content type verbatim; every invalid
   * response carries a reason and no body.
   */
  function FetchUrl(req: ScrapeRequest, paths: map<string, PathContext>, fetch: FetchOutcome): (r: ScrapeResponse)
    ensures r.agentId == req.agentId && r.scrapeId == req.scrapeId
    ensures r.valid <==> req.path in paths && fetch.Response? && IsSuccessful(fetch.code)
    ensures r.valid ==> r.reason == "" && r.statusCode == fetch.code && r.text == fetch.body && r.contentType == fetch.contentType
    ensures !r.valid ==> r.text == "" && r.contentType == "" && r.reason != ""
  {
    var invalid := (code: int, reason: string) =>
      ScrapeResponse(req.agentId, req.scrapeId, false, code, reason, "", "");
    if req.path !in paths then
      invalid(NOT_FOUND, InvalidPathReason(req.path))
    else
      match fetch
      case Response(code, body, contentType) =>
        if IsSuccessful(code) then ScrapeResponse(req.agentId, req.scrapeId, true, code, "", body, contentType)
        else invalid(code, UnsuccessfulReason(code))
      case FetchError(name, message) =>
        invalid(NOT_FOUND, ExceptionReason(name, message))
      case BodyError(code, name, message) =>
        // the body is read only for a successful response
        if IsSuccessful(code) then invalid(code, ExceptionReason(name, message))
        else invalid(code, UnsuccessfulReason(code))
  }

  /** A request for an unregistered path gets a 404 "Invalid path" answer whatever the fetch would have produced. */
  lemma FetchUrlUnknownPath(req: ScrapeRequest, paths: map<string, PathContext>, fetch: FetchOutcome)
    requires req.path !in paths
    ensures FetchUrl(req, paths, fetch)
         == ScrapeResponse(req.agentId, req.scrapeId, false, 404, "Invalid path: " + req.path, "", "")
  {
  }

  /**
   * A non-2xx response keeps its status code, and the code can be read back
   * from the reason text.
   */
  lemma FetchUrlUnsuccessful(req: ScrapeRequest, paths: map<string, PathContext>, code: int, body: string, contentType: string)
    requires req.path in paths && !IsSuccessful(code) && INT_MIN <= code <= INT_MAX
    ensures var r := FetchUrl(req, paths, Response(code, body, contentType));
            && !r.valid && r.statusCode == code
            && r.reason[..|UNSUCCESSFUL_PREFIX|] == UNSUCCESSFUL_PREFIX
            && ParseInt(r.reason[|UNSUCCESSFUL_PREFIX|..]) == Some(code)
  {
    var r := FetchUrl(req, paths, Response(code, body, contentType));
    assert r.reason[|UNSUCCESSFUL_PREFIX|..] == IntToString(code);
    ParseIntToString(code);
  }

  /**
   * An IOException is reported as "<exception> - <message>": with status 404
   * when no response arrived, with the response's code when its body could not
   * be read.
   */
  lemma FetchUrlIOException(req: ScrapeRequest, paths: map<string, PathContext>, fetch: FetchOutcome)
    requires req.path in paths
    requires fetch.FetchError? || (fetch.BodyError? && IsSuccessful(fetch.code))
    ensures var r := FetchUrl(req, paths, fetch);
            && !r.valid
            && r.statusCode == (if fetch.FetchError? then 404 else fetch.code)
            && r.reason == fetch.exceptionName + " - " + fetch.message
  {
  }
}
