/**
 * The `host[:port]` split shared by both generations of the agent:
 * `String.split(":")` (Java) or `split(":".toRegex()).dropLastWhile { it.isEmpty() }`
 * (Kotlin), then the first field is the host and `Integer.valueOf` of the second
 * is the port; a host without a colon gets the default port 50051.
 */
module HostPort {
  import opened Wrappers
  import opened Text

  const DEFAULT_PORT: int := 50051

  datatype Endpoint = Endpoint(hostname: string, port: int)

  /** ArrayIndexOutOfBoundsException on `vals[0]`/`vals[1]`, or NumberFormatException from `Integer.valueOf`. */
  datatype HostPortError = IndexOutOfBounds | NumberFormat(text: string)

  /** Index of the first `c` in `s`, or `|s|` when there is none. */
  function IndexOf(s: string, c: char): (i: nat)
    ensures i <= |s|
    ensures i < |s| ==> s[i] == c
    ensures c !in s[..i]
    decreases |s|
  {
    if s == [] then 0
    else if s[0] == c then 0
    else
      var j := IndexOf(s[1..], c);
      assert s[..1 + j] == [s[0]] + s[1..][..j];
      1 + j
  }

  /** The text before the first `c` (all of `s` when there is none). */
  function FirstField(s: string, c: char): string {
    s[..IndexOf(s, c)]
  }

  /** Every field between separators, empty ones included. */
  function Fields(s: string, sep: char): (parts: seq<string>)
    ensures |parts| >= 1 && parts[0] == FirstField(s, sep)
    decreases |s|
  {
    var i := IndexOf(s, sep);
    if i == |s| then [s] else [s[..i]] + Fields(s[i + 1..], sep)
  }

  /** Removes the empty strings at the end, as `String.split` does. */
  function DropTrailingEmpty(parts: seq<string>): (r: seq<string>)
    ensures r <= parts
    ensures r == [] || r[|r| - 1] != ""
    ensures forall k :: |r| <= k < |parts| ==> parts[k] == ""
  {
    if parts == [] || parts[|parts| - 1] != "" then parts
    else DropTrailingEmpty(parts[..|parts| - 1])
  }

  /** `String.split` with a one-character literal pattern. */
  function Split(s: string, sep: char): seq<string> {
    DropTrailingEmpty(Fields(s, sep))
  }

  /** The second `:`-separated field of `s`: the text between the first colon and the next one. */
  function PortField(s: string): string
    requires ':' in s
  {
    FirstField(s[IndexOf(s, ':') + 1..], ':')
  }

  /**
   * The constructor's split of the proxy host: without a colon, the whole text
   * with port 50051; with one, the first field and the integer value of the
   * second. It succeeds exactly when the second field is an integer.
   */
  function SplitHostPort(s: string): (r: Result<Endpoint, HostPortError>)
    ensures ':' !in s ==> r == Success(Endpoint(s, DEFAULT_PORT))
    ensures ':' in s ==> (r.Success? <==> ParseInt(PortField(s)).Some?)
    ensures ':' in s && r.Success? ==>
              r.value.hostname == FirstField(s, ':') && Some(r.value.port) == ParseInt(PortField(s))
  {
    if ':' !in s then Success(Endpoint(s, DEFAULT_PORT))
    else
      var vals := Split(s, ':');
      SecondFieldSurvives(s);
      if |vals| < 2 then Failure(IndexOutOfBounds)
      else
        match ParseInt(vals[1])
        case None => Failure(NumberFormat(vals[1]))
        case Some(p) => Success(Endpoint(vals[0], p))
  }

  /** The split's first two fields are the host and port fields, and the second survives when it is not empty. */
  lemma SecondFieldSurvives(s: string)
    requires ':' in s
    ensures var vals := Split(s, ':');
            && (|vals| >= 1 ==> vals[0] == FirstField(s, ':'))
            && (|vals| >= 2 ==> vals[1] == PortField(s))
            && (PortField(s) != "" ==> |vals| >= 2)
  {
    var i := IndexOf(s, ':');
    var fs := Fields(s, ':');
    assert fs == [s[..i]] + Fields(s[i + 1..], ':');
    assert fs[1] == PortField(s);
  }

  /** A colon right after a colon-free host is the first colon. */
  lemma {:induction false} IndexOfAfter(a: string, c: char, b: string)
    requires c !in a
    ensures IndexOf(a + [c] + b, c) == |a|
    decreases |a|
  {
    if a != [] {
      assert (a + [c] + b)[1..] == a[1..] + [c] + b;
      IndexOfAfter(a[1..], c, b);
    }
  }

  /** Writing a host and a 32-bit port as `host:port` and splitting it gives both back. */
  lemma SplitHostPortRoundTrip(host: string, port: int)
    requires ':' !in host
    requires INT_MIN <= port <= INT_MAX
    ensures SplitHostPort(host + ":" + IntToString(port)) == Success(Endpoint(host, port))
  {
    var t := IntToString(port);
    var s := host + ":" + t;
    IndexOfAfter(host, ':', t);
    assert s[|host|] == ':';
    assert s[..|host|] == host;
    assert s[|host| + 1..] == t;
    IntToStringHasNoColon(port);
    assert PortField(s) == t;
    ParseIntToString(port);
  }
}
