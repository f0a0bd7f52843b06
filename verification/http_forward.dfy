/** The plain HTTP forwarding handler of proxy.ts (the server's request
    listener). URL parsing is abstracted to the three fields the handler
    reads; sockets become events and actions. */
module HttpForward {
  import opened Wrappers
  import opened Octets
  import Decimal

  type Headers = seq<(string, string)>

  /** The fields of `url.parse(req.url)` the handler uses; None is `null`. */
  datatype ParsedUrl = ParsedUrl(hostname: Option<string>, port: Option<Decimal.Digits>, path: Option<string>)

  datatype IncomingRequest = IncomingRequest(verb: string, url: ParsedUrl, headers: Headers)

  /** `parsedUrl.port || 80`: the URL's port text, or the number 80. */
  datatype OutboundPort = PortText(text: string) | PortNumber(n: nat)

  datatype RequestOptions = RequestOptions(
    hostname: string, port: OutboundPort, path: Option<string>, verb: string, headers: Headers)

  const DEFAULT_HTTP_PORT := 80
  const STATUS_OK := 200
  const STATUS_PROXY_ERROR := 500
  const SELF_ID_HEADERS: Headers := [("Content-Type", "text/plain")]
  const SELF_ID_BODY := "Proxy is running. Use this address as your proxy server."
  const PROXY_ERROR_BODY := "Proxy Error"

  datatype Action =
    | WriteHead(status: nat, headers: Headers)
    | EndResponse(body: string)
    | SendRequest(options: RequestOptions)
    /** `req.pipe(proxyReq)`: the client's body streams to the origin. */
    | PipeRequestBody
    /** `proxyRes.pipe(res)`: the origin's body streams to the client. */
    | PipeResponseBody

  /** Answered: the proxy identified itself. AwaitingUpstream: the outbound
      request is in flight. Streaming: the origin's head was passed on.
      Failed: the proxy answered 500 itself. */
  datatype State = Answered | AwaitingUpstream | Streaming | Failed

  /** `res.headersSent`. */
  predicate HeadersSent(s: State) {
    !s.AwaitingUpstream?
  }

  datatype Event =
    /** The outbound response arrived; `statusCode` None when absent. */
    | UpstreamResponse(statusCode: Option<nat>, headers: Headers)
    /** `'error'` on the outbound request. */
    | UpstreamError

  /** The request options for the origin: everything is copied from the
      client's request except the port, which defaults to 80. */
  function OutboundOptions(req: IncomingRequest): (o: RequestOptions)
    requires Truthy(req.url.hostname, "")
    ensures o.hostname == req.url.hostname.value && o.hostname != ""
    ensures o.path == req.url.path && o.verb == req.verb && o.headers == req.headers
    ensures Truthy(req.url.port, "") ==> o.port == PortText(req.url.port.value)
    ensures !Truthy(req.url.port, "") <==> o.port == PortNumber(DEFAULT_HTTP_PORT)
  {
    RequestOptions(
      req.url.hostname.value,
      if Truthy(req.url.port, "") then PortText(req.url.port.value) else PortNumber(DEFAULT_HTTP_PORT),
      req.url.path, req.verb, req.headers)
  }

  /** `proxyRes.statusCode || 500`: the origin's status, or 500 when it is
      absent or zero. */
  function ResponseStatus(statusCode: Option<nat>): (st: nat)
    ensures st != 0
    ensures statusCode.Some? && statusCode.value != 0 ==> st == statusCode.value
    ensures statusCode.None? || statusCode.value == 0 ==> st == STATUS_PROXY_ERROR
  {
    if statusCode.Some? && statusCode.value != 0 then statusCode.value else STATUS_PROXY_ERROR
  }

  /** The URL's port, when truthy, is one a connection can be opened to. */
  predicate PortUsable(u: ParsedUrl) {
    Truthy(u.port, "") ==> Decimal.DecimalValue(u.port.value) <= MAX_PORT
  }

  /** The proxy's own failure answer. */
  const PROXY_ERROR_ANSWER := [WriteHead(STATUS_PROXY_ERROR, []), EndResponse(PROXY_ERROR_BODY)]

  /** A request arrives, as written: a target without a host name is answered
      by the proxy itself; otherwise the request is sent on and its body
      piped. A port above 65535 goes to `http.request` unchecked, whose
      connection throws a RangeError inside the listener (None): nothing
      catches it. */
  function HandleAsWritten(req: IncomingRequest): (r: Option<(State, seq<Action>)>)
    ensures r.None? <==> Truthy(req.url.hostname, "") && !PortUsable(req.url)
    ensures !Truthy(req.url.hostname, "") ==>
              r == Some((Answered, [WriteHead(STATUS_OK, SELF_ID_HEADERS), EndResponse(SELF_ID_BODY)]))
    ensures Truthy(req.url.hostname, "") && PortUsable(req.url) ==>
              r == Some((AwaitingUpstream, [SendRequest(OutboundOptions(req)), PipeRequestBody]))
  {
    if !Truthy(req.url.hostname, "") then
      Some((Answered, [WriteHead(STATUS_OK, SELF_ID_HEADERS), EndResponse(SELF_ID_BODY)]))
    else if !PortUsable(req.url) then None
    else Some((AwaitingUpstream, [SendRequest(OutboundOptions(req)), PipeRequestBody]))
  }

  /** A forward to http://example.com:70000/ reaches the throwing connector. */
  lemma OutOfRangeUrlPortThrows()
    ensures HandleAsWritten(IncomingRequest("GET", ParsedUrl(Some("example.com"), Some("70000"), Some("/")), [])).None?
  {
    assert Decimal.DecimalValue("70000") == 70000 by {
      assert "70000"[..4] == "7000" && "7000"[..3] == "700" && "700"[..2] == "70" && "70"[..1] == "7";
      assert "7"[..0] == "";
    }
  }

  /** A request arrives, with an unusable port answered like any other failed
      forward: 500 "Proxy Error" instead of an uncaught exception. Otherwise
      it does what the code does. */
  function Handle(req: IncomingRequest): (r: (State, seq<Action>))
    ensures !Truthy(req.url.hostname, "") <==> r.0 == Answered
    ensures !Truthy(req.url.hostname, "") ==>
              r.1 == [WriteHead(STATUS_OK, SELF_ID_HEADERS), EndResponse(SELF_ID_BODY)]
    ensures Truthy(req.url.hostname, "") && PortUsable(req.url) ==>
              r == (AwaitingUpstream, [SendRequest(OutboundOptions(req)), PipeRequestBody])
    ensures Truthy(req.url.hostname, "") && !PortUsable(req.url) ==> r == (Failed, PROXY_ERROR_ANSWER)
    ensures HandleAsWritten(req).Some? ==> r == HandleAsWritten(req).value
  {
    match HandleAsWritten(req)
    case Some(answer) => answer
    case None => (Failed, PROXY_ERROR_ANSWER)
  }

  /** An outbound event. Once headers are sent nothing more is written by the
      handler: an error before that is answered with 500 "Proxy Error", an
      error after it is only logged. */
  function OnEvent(s: State, e: Event): (r: (State, seq<Action>))
    ensures HeadersSent(s) ==> r.1 == [] && HeadersSent(r.0)
    ensures !HeadersSent(s) && e.UpstreamError? ==> r == (Failed, PROXY_ERROR_ANSWER)
    ensures !HeadersSent(s) && e.UpstreamResponse? ==>
              r == (Streaming, [WriteHead(ResponseStatus(e.statusCode), e.headers), PipeResponseBody])
  {
    match (s, e)
    case (AwaitingUpstream, UpstreamResponse(code, headers)) =>
      (Streaming, [WriteHead(ResponseStatus(code), headers), PipeResponseBody])
    case (AwaitingUpstream, UpstreamError) => (Failed, PROXY_ERROR_ANSWER)
    case _ => (s, [])
  }

  /** The handler's state and actions after a request and a sequence of
      outbound events. */
  function Run(req: IncomingRequest, evs: seq<Event>): (State, seq<Action>)
    decreases |evs|
  {
    if |evs| == 0 then Handle(req)
    else
      var (s, acts) := Run(req, evs[..|evs| - 1]);
      var (s', more) := OnEvent(s, evs[|evs| - 1]);
      (s', acts + more)
  }

  predicate IsWriteHead(a: Action) {
    a.WriteHead?
  }

  /** A request for another host at a usable port is forwarded first of all,
      and only once, with the options built from the client's request. */
  lemma {:induction false} ForwardsClientRequest(req: IncomingRequest, evs: seq<Event>)
    requires Truthy(req.url.hostname, "") && PortUsable(req.url)
    ensures var acts := Run(req, evs).1;
      && |acts| >= 2 && acts[0] == SendRequest(OutboundOptions(req)) && acts[1] == PipeRequestBody
      && forall i :: 2 <= i < |acts| ==> !acts[i].SendRequest?
    decreases |evs|
  {
    if |evs| > 0 {
      ForwardsClientRequest(req, evs[..|evs| - 1]);
      var (s, acts) := Run(req, evs[..|evs| - 1]);
      var more := OnEvent(s, evs[|evs| - 1]).1;
      assert forall i :: |acts| <= i < |acts + more| ==> (acts + more)[i] in more;
    }
  }

  /** A request for another host at an unusable port is answered with the
      proxy's own 500 and nothing is ever sent. */
  lemma {:induction false} UnusablePortAnswered(req: IncomingRequest, evs: seq<Event>)
    requires Truthy(req.url.hostname, "") && !PortUsable(req.url)
    ensures Run(req, evs) == (Failed, PROXY_ERROR_ANSWER)
    decreases |evs|
  {
    if |evs| > 0 {
      UnusablePortAnswered(req, evs[..|evs| - 1]);
      assert PROXY_ERROR_ANSWER + [] == PROXY_ERROR_ANSWER;
    }
  }

  /** Over every trace: the status line is written at most once, exactly when
      headers count as sent; the proxy's own 500 never accompanies an
      origin response body; and nothing but the self-identification answer
      is written for a request without a host name. */
  lemma {:induction false} TraceInvariants(req: IncomingRequest, evs: seq<Event>)
    ensures var (s, acts) := Run(req, evs);
      && (forall i, j :: 0 <= i < j < |acts| && IsWriteHead(acts[i]) ==> !IsWriteHead(acts[j]))
      && (HeadersSent(s) <==> exists i :: 0 <= i < |acts| && IsWriteHead(acts[i]))
      && (EndResponse(PROXY_ERROR_BODY) in acts ==> PipeResponseBody !in acts)
      && (s == Answered <==> !Truthy(req.url.hostname, ""))
      && (s == Answered ==> acts == [WriteHead(STATUS_OK, SELF_ID_HEADERS), EndResponse(SELF_ID_BODY)])
    decreases |evs|
  {
    if |evs| == 0 {
      var (s, acts) := Handle(req);
      if s != AwaitingUpstream {
        assert IsWriteHead(acts[0]);
      }
    } else {
      var prefix := evs[..|evs| - 1];
      TraceInvariants(req, prefix);
      var (s, acts) := Run(req, prefix);
      var (s', more) := OnEvent(s, evs[|evs| - 1]);
      assert Run(req, evs) == (s', acts + more);
      if HeadersSent(s) {
        assert acts + more == acts;
      } else {
        assert forall a :: a in acts ==> !IsWriteHead(a);
        assert PipeResponseBody !in acts && EndResponse(PROXY_ERROR_BODY) !in acts;
        if HeadersSent(s') {
          assert IsWriteHead((acts + more)[|acts|]);
        }
      }
    }
  }
}
