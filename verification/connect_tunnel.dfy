/** The HTTPS tunnelling handler of proxy.ts (the server's `'connect'`
    listener, section 9.3.6 of RFC 9110): target check, outbound connection,
    the 200 preamble, then a blind relay. */
module ConnectTunnel {
  import opened Wrappers
  import opened Octets
  import Decimal

  /** The fields of `url.parse('//' + req.url, false, true)` the handler reads. */
  datatype ConnectTarget = ConnectTarget(hostname: Option<string>, port: Option<Decimal.Digits>)

  const BAD_REQUEST: AsciiText := "HTTP/1.1 400 Bad Request\r\n\r\n"
  const ESTABLISHED_STATUS_LINE: AsciiText := "HTTP/1.1 200 Connection Established\r\n"
  const PROXY_AGENT_LINE: AsciiText := "Proxy-agent: Node.js-Proxy\r\n"
  const CRLF: AsciiText := "\r\n"
  /** The preamble, written as the three pieces the handler concatenates. */
  const ESTABLISHED: AsciiText := ESTABLISHED_STATUS_LINE + PROXY_AGENT_LINE + CRLF

  /** How the handler starts: refuse the target, or dial (hostname, port). */
  datatype TunnelStart =
    | BadRequest
    | Dial(host: string, port: uint16)
    /** `net.connect` throws a RangeError synchronously inside the event
        listener; nothing catches it. */
    | ThrowsBadPort

  /** `hostname` is truthy. */
  predicate HasHost(t: ConnectTarget) {
    Truthy(t.hostname, "")
  }

  /** `port` is truthy. */
  predicate HasPort(t: ConnectTarget) {
    Truthy(t.port, "")
  }

  /** The start as written: only a missing host name or port is refused, and
      `Number(port)` goes to the connector unchecked. */
  function StartAsWritten(t: ConnectTarget): (r: TunnelStart)
    ensures r.BadRequest? <==> !HasHost(t) || !HasPort(t)
    ensures r.ThrowsBadPort? <==> HasHost(t) && HasPort(t) && Decimal.DecimalValue(t.port.value) > MAX_PORT
  {
    if !HasHost(t) || !HasPort(t) then BadRequest
    else
      var n := Decimal.DecimalValue(t.port.value);
      if n > MAX_PORT then ThrowsBadPort else Dial(t.hostname.value, n)
  }

  /** A CONNECT to port 70000 reaches the connector with an out-of-range port. */
  lemma OutOfRangePortThrows()
    ensures StartAsWritten(ConnectTarget(Some("example.com"), Some("70000"))) == ThrowsBadPort
  {
    assert Decimal.DecimalValue("70000") == 70000 by {
      assert "70000"[..4] == "7000" && "7000"[..3] == "700" && "700"[..2] == "70" && "70"[..1] == "7";
      assert "7"[..0] == "";
    }
  }

  /** The start with an out-of-range port refused like a missing one. */
  function Start(t: ConnectTarget): (r: TunnelStart)
    ensures !r.ThrowsBadPort?
    ensures r.BadRequest? <==> !HasHost(t) || !HasPort(t) || Decimal.DecimalValue(t.port.value) > MAX_PORT
    ensures r.Dial? ==> r.host == t.hostname.value && r.port == Decimal.DecimalValue(t.port.value)
    ensures StartAsWritten(t).Dial? ==> r == StartAsWritten(t)
  {
    match StartAsWritten(t)
    case ThrowsBadPort => BadRequest
    case other => other
  }

  datatype State =
    | Rejected
    /** Dialling; `pending` holds client bytes the paused socket buffered. */
    | Connecting(head: Bytes, pending: Bytes)
    | Established
    | Closed

  datatype Event =
    | ServerConnected
    | ServerError
    | ClientError
    | ClientData(data: Bytes)
    | ServerData(data: Bytes)

  datatype Action =
    | Connect(host: string, port: uint16)
    | WriteClient(data: Bytes)
    /** `clientSocket.end()`, with final bytes when given. */
    | EndClient(final: Option<Bytes>)
    | WriteServer(data: Bytes)
    | EndServer

  /** The request arrives with `head`, the bytes read past its headers. */
  function Open(t: ConnectTarget, head: Bytes): (r: (State, seq<Action>))
    ensures Start(t).BadRequest? <==> r.0 == Rejected
    ensures Start(t).BadRequest? ==> r.1 == [EndClient(Some(TextBytes(BAD_REQUEST)))]
    ensures Start(t).Dial? ==> r == (Connecting(head, []), [Connect(Start(t).host, Start(t).port)])
  {
    match Start(t)
    case Dial(host, port) => (Connecting(head, []), [Connect(host, port)])
    case _ => (Rejected, [EndClient(Some(TextBytes(BAD_REQUEST)))])
  }

  /** One event. The preamble is written only in the connect callback; an
      error on either side ends the other. */
  function Step(s: State, e: Event): (r: (State, seq<Action>))
    ensures s.Connecting? && e.ServerConnected? ==>
              r == (Established,
                    [WriteClient(TextBytes(ESTABLISHED)), WriteServer(s.head)]
                    + (if |s.pending| > 0 then [WriteServer(s.pending)] else []))
    ensures (exists a :: a in r.1 && (a.EndClient? || a.EndServer?)) ==>
              e.ServerError? || e.ClientError?
    ensures (s.Connecting? || s.Established?) && e.ServerError? ==> r == (Closed, [EndClient(None)])
    ensures (s.Connecting? || s.Established?) && e.ClientError? ==> r == (Closed, [EndServer])
    ensures s.Connecting? && e.ClientData? ==> r == (Connecting(s.head, s.pending + e.data), [])
    ensures s.Established? && e.ClientData? ==> r == (Established, [WriteServer(e.data)])
    ensures s.Established? && e.ServerData? ==> r == (Established, [WriteClient(e.data)])
    ensures s.Connecting? && e.ServerData? ==> r == (s, [])
    ensures s.Established? && e.ServerConnected? ==> r == (s, [])
    ensures s.Closed? || s.Rejected? ==> r == (s, [])
    ensures (exists a :: a in r.1 && a.Connect?) ==> false
  {
    match s
    case Connecting(head, pending) =>
      (match e
       case ServerConnected =>
         (Established,
          [WriteClient(TextBytes(ESTABLISHED)), WriteServer(head)]
          + (if |pending| > 0 then [WriteServer(pending)] else []))
       case ServerError => (Closed, [EndClient(None)])
       case ClientError => (Closed, [EndServer])
       case ClientData(b) => (Connecting(head, pending + b), [])
       case ServerData(_) => (s, []))
    case Established =>
      (match e
       case ClientData(b) => (Established, [WriteServer(b)])
       case ServerData(b) => (Established, [WriteClient(b)])
       case ServerError => (Closed, [EndClient(None)])
       case ClientError => (Closed, [EndServer])
       case ServerConnected => (s, []))
    case _ => (s, [])
  }

  function Run(t: ConnectTarget, head: Bytes, evs: seq<Event>): (State, seq<Action>)
    decreases |evs|
  {
    if |evs| == 0 then Open(t, head)
    else
      var (s, acts) := Run(t, head, evs[..|evs| - 1]);
      var (s', more) := Step(s, evs[|evs| - 1]);
      (s', acts + more)
  }

  /** The bytes an action sends to the client. */
  function ToClient(a: Action): Bytes {
    match a
    case WriteClient(data) => data
    case EndClient(Some(data)) => data
    case _ => []
  }

  /** Everything written to the client, in order, final bytes included. */
  function ClientStream(acts: seq<Action>): Bytes
    decreases |acts|
  {
    if |acts| == 0 then []
    else ClientStream(acts[..|acts| - 1]) + ToClient(acts[|acts| - 1])
  }

  /** Everything written to the destination, in order. */
  function ServerStream(acts: seq<Action>): Bytes
    decreases |acts|
  {
    if |acts| == 0 then []
    else
      var last := acts[|acts| - 1];
      ServerStream(acts[..|acts| - 1]) + (if last.WriteServer? then last.data else [])
  }

  /** Everything the client sent, in order. */
  function ClientBytes(evs: seq<Event>): Bytes
    decreases |evs|
  {
    if |evs| == 0 then []
    else
      var last := evs[|evs| - 1];
      ClientBytes(evs[..|evs| - 1]) + (if last.ClientData? then last.data else [])
  }

  lemma {:induction false} ClientStreamAppend(acts: seq<Action>, more: seq<Action>)
    ensures ClientStream(acts + more) == ClientStream(acts) + ClientStream(more)
    decreases |more|
  {
    if |more| == 0 {
      assert acts + more == acts;
    } else {
      var init, last := more[..|more| - 1], more[|more| - 1];
      var p := ToClient(last);
      ClientStreamAppend(acts, init);
      assert (acts + more)[..|acts + more| - 1] == acts + init;
      assert ClientStream(acts + more) == ClientStream(acts + init) + p;
      assert ClientStream(more) == ClientStream(init) + p;
      assert ClientStream(acts) + ClientStream(init) + p == ClientStream(acts) + (ClientStream(init) + p);
    }
  }

  lemma {:induction false} ServerStreamAppend(acts: seq<Action>, more: seq<Action>)
    ensures ServerStream(acts + more) == ServerStream(acts) + ServerStream(more)
    decreases |more|
  {
    if |more| == 0 {
      assert acts + more == acts;
    } else {
      var init, last := more[..|more| - 1], more[|more| - 1];
      var p := if last.WriteServer? then last.data else [];
      ServerStreamAppend(acts, init);
      assert (acts + more)[..|acts + more| - 1] == acts + init;
      assert ServerStream(acts + more) == ServerStream(acts + init) + p;
      assert ServerStream(more) == ServerStream(init) + p;
      assert ServerStream(acts) + ServerStream(init) + p == ServerStream(acts) + (ServerStream(init) + p);
    }
  }

  /** A refused target is answered with exactly the 400 line and nothing else
      ever happens: no outbound connection is attempted. */
  lemma {:induction false} RejectedStaysSilent(t: ConnectTarget, head: Bytes, evs: seq<Event>)
    requires Start(t).BadRequest?
    ensures Run(t, head, evs) == (Rejected, [EndClient(Some(TextBytes(BAD_REQUEST)))])
    decreases |evs|
  {
    if |evs| > 0 {
      RejectedStaysSilent(t, head, evs[..|evs| - 1]);
      var acts := [EndClient(Some(TextBytes(BAD_REQUEST)))];
      assert acts + [] == acts;
    }
  }

  /** The step that connects writes the preamble and nothing else to the
      client; every other step outside Established writes nothing to it. */
  lemma StepClientBytes(s: State, e: Event)
    requires !s.Rejected?
    ensures s.Connecting? && e.ServerConnected? ==> ClientStream(Step(s, e).1) == TextBytes(ESTABLISHED)
    ensures !s.Established? && !(s.Connecting? && e.ServerConnected?) ==> ClientStream(Step(s, e).1) == []
  {
    var more := Step(s, e).1;
    if s.Connecting? && e.ServerConnected? {
      var first := [WriteClient(TextBytes(ESTABLISHED))];
      var tail := [WriteServer(s.head)] + (if |s.pending| > 0 then [WriteServer(s.pending)] else []);
      assert more == first + tail;
      ClientStreamAppend(first, tail);
      assert first[..0] == [];
      if |tail| == 2 {
        assert tail[..1] == [WriteServer(s.head)];
      }
      assert tail[..|tail| - 1][..0] == [];
    } else if !s.Established? {
      NoClientBytes(more);
    }
  }

  lemma {:induction false} NoClientBytes(acts: seq<Action>)
    requires forall a :: a in acts ==> ToClient(a) == []
    ensures ClientStream(acts) == []
    decreases |acts|
  {
    if |acts| > 0 {
      NoClientBytes(acts[..|acts| - 1]);
    }
  }

  /** Running one more event is one more Step after the run so far. */
  lemma RunSnoc(t: ConnectTarget, head: Bytes, evs: seq<Event>, e: Event)
    ensures Run(t, head, evs + [e])
         == (Step(Run(t, head, evs).0, e).0, Run(t, head, evs).1 + Step(Run(t, head, evs).0, e).1)
  {
    assert (evs + [e])[..|evs|] == evs;
  }

  /** Over every trace of an accepted target, exactly one connection attempt
      is made, and it is the first action. */
  lemma {:induction false} SingleConnectAttempt(t: ConnectTarget, head: Bytes, evs: seq<Event>)
    requires Start(t).Dial?
    ensures var (s, acts) := Run(t, head, evs);
      && !s.Rejected?
      && |acts| > 0 && acts[0] == Connect(Start(t).host, Start(t).port)
      && (forall i :: 0 < i < |acts| ==> !acts[i].Connect?)
    decreases |evs|
  {
    if |evs| > 0 {
      var prefix, e := evs[..|evs| - 1], evs[|evs| - 1];
      SingleConnectAttempt(t, head, prefix);
      assert evs == prefix + [e];
      RunSnoc(t, head, prefix, e);
      var (s, acts) := Run(t, head, prefix);
      var more := Step(s, e).1;
      assert forall i :: |acts| <= i < |acts + more| ==> (acts + more)[i] in more;
    }
  }

  /** What the client may have heard in each state: nothing while dialling,
      and the preamble first once the tunnel is up. */
  predicate ClientHeard(s: State, cs: Bytes) {
    && (s.Connecting? ==> cs == [])
    && (s.Established? ==> TextBytes(ESTABLISHED) <= cs)
    && (cs == [] || TextBytes(ESTABLISHED) <= cs)
  }

  lemma PreambleStep(s: State, e: Event, cs: Bytes)
    requires !s.Rejected? && ClientHeard(s, cs)
    ensures ClientHeard(Step(s, e).0, cs + ClientStream(Step(s, e).1))
    ensures Step(s, e).0.Connecting? ==> Step(s, e).0.head == s.head
  {
    StepClientBytes(s, e);
    var after := cs + ClientStream(Step(s, e).1);
    if s.Established? {
      var pre := TextBytes(ESTABLISHED);
      assert after[..|pre|] == cs[..|pre|];
    } else if s.Connecting? && e.ServerConnected? {
      assert after == TextBytes(ESTABLISHED);
    } else {
      assert after == cs;
    }
  }

  /** Over every trace of an accepted target, the client hears nothing until
      the destination connected, and then first of all the exact 200
      preamble. */
  lemma {:induction false} PreambleFirst(t: ConnectTarget, head: Bytes, evs: seq<Event>)
    requires Start(t).Dial?
    ensures var (s, acts) := Run(t, head, evs);
      && ClientHeard(s, ClientStream(acts))
      && (s.Connecting? ==> s.head == head)
      && (ServerConnected !in evs ==> ClientStream(acts) == [] && !s.Established?)
    decreases |evs|
  {
    if |evs| == 0 {
      NoClientBytes(Open(t, head).1);
    } else {
      var prefix, e := evs[..|evs| - 1], evs[|evs| - 1];
      PreambleFirst(t, head, prefix);
      SingleConnectAttempt(t, head, prefix);
      assert evs == prefix + [e];
      assert ServerConnected in evs <==> ServerConnected in prefix || e == ServerConnected;
      RunSnoc(t, head, prefix, e);
      var (s, acts) := Run(t, head, prefix);
      ClientStreamAppend(acts, Step(s, e).1);
      PreambleStep(s, e, ClientStream(acts));
      StepClientBytes(s, e);
    }
  }

  /** A trace in which neither side fails. */
  predicate NoErrors(evs: seq<Event>) {
    forall i :: 0 <= i < |evs| ==> !evs[i].ServerError? && !evs[i].ClientError?
  }

  /** What the destination has received in each state of an error-free
      trace: nothing while dialling (the client's bytes wait in `pending`),
      then `head` followed by every client byte in order. */
  predicate ServerHeard(s: State, head: Bytes, pending: Bytes, ss: Bytes) {
    || (s.Connecting? && s.head == head && s.pending == pending && ss == [])
    || (s.Established? && ss == head + pending)
  }

  lemma StepServerBytes(s: State, e: Event, head: Bytes, sent: Bytes, ss: Bytes)
    requires ServerHeard(s, head, sent, ss)
    requires !e.ServerError? && !e.ClientError?
    ensures ServerHeard(Step(s, e).0, head, sent + (if e.ClientData? then e.data else []),
                        ss + ServerStream(Step(s, e).1))
  {
    var (s', more) := Step(s, e);
    var added := if e.ClientData? then e.data else [];
    if s.Connecting? && e.ServerConnected? {
      var tail := if |s.pending| > 0 then [WriteServer(s.pending)] else [];
      assert more == [WriteClient(TextBytes(ESTABLISHED)), WriteServer(head)] + tail;
      assert [WriteClient(TextBytes(ESTABLISHED)), WriteServer(head)][..1] == [WriteClient(TextBytes(ESTABLISHED))];
      assert [WriteClient(TextBytes(ESTABLISHED))][..0] == [];
      ServerStreamAppend([WriteClient(TextBytes(ESTABLISHED)), WriteServer(head)], tail);
      if |tail| > 0 {
        assert tail[..0] == [];
        assert ServerStream(tail) == s.pending;
      }
      assert ServerStream(more) == head + s.pending;
    } else if s.Established? && e.ClientData? {
      assert [WriteServer(e.data)][..0] == [];
      assert ss + ServerStream(more) == head + (sent + added);
    } else if s.Established? {
      assert more == [] || more == [WriteClient(e.data)];
      if more != [] {
        assert more[..0] == [];
      }
      assert ServerStream(more) == [];
      assert added == [];
      assert sent + added == sent;
      assert ss + [] == ss;
    } else {
      assert more == [];
      assert ss + [] == ss;
    }
  }

  /** Over every error-free trace of an accepted target, the destination
      receives the `head` bytes first and then exactly the bytes the client
      sent, in order, including those sent before the connection was up. */
  lemma {:induction false} HeadThenClientBytes(t: ConnectTarget, head: Bytes, evs: seq<Event>)
    requires Start(t).Dial? && NoErrors(evs)
    ensures var (s, acts) := Run(t, head, evs);
      ServerHeard(s, head, ClientBytes(evs), ServerStream(acts))
    ensures Run(t, head, evs).0.Established? <==> ServerConnected in evs
    decreases |evs|
  {
    if |evs| == 0 {
      assert Open(t, head).1 == [Connect(Start(t).host, Start(t).port)];
      assert Open(t, head).1[..0] == [];
    } else {
      var prefix, e := evs[..|evs| - 1], evs[|evs| - 1];
      assert NoErrors(prefix) by {
        forall i | 0 <= i < |prefix| ensures !prefix[i].ServerError? && !prefix[i].ClientError? {
          assert prefix[i] == evs[i];
        }
      }
      HeadThenClientBytes(t, head, prefix);
      assert evs == prefix + [e];
      assert ServerConnected in evs <==> ServerConnected in prefix || e == ServerConnected;
      RunSnoc(t, head, prefix, e);
      var (s, acts) := Run(t, head, prefix);
      ServerStreamAppend(acts, Step(s, e).1);
      assert !e.ServerError? && !e.ClientError?;
      StepServerBytes(s, e, head, ClientBytes(prefix), ServerStream(acts));
    }
  }

  /** Everything the destination sent once the tunnel was up, in order. */
  function ServerBytes(evs: seq<Event>): Bytes
    decreases |evs|
  {
    if |evs| == 0 then []
    else
      var init, last := evs[..|evs| - 1], evs[|evs| - 1];
      ServerBytes(init) + (if last.ServerData? && ServerConnected in init then last.data else [])
  }

  /** What the client has received in each state of an error-free trace:
      nothing while dialling, then the preamble followed by the bytes the
      destination sent. */
  predicate ClientGot(s: State, sent: Bytes, cs: Bytes) {
    || (s.Connecting? && sent == [] && cs == [])
    || (s.Established? && cs == TextBytes(ESTABLISHED) + sent)
  }

  lemma StepClientGot(s: State, e: Event, sent: Bytes, cs: Bytes)
    requires ClientGot(s, sent, cs)
    requires !e.ServerError? && !e.ClientError?
    ensures ClientGot(Step(s, e).0, sent + (if e.ServerData? && s.Established? then e.data else []),
                      cs + ClientStream(Step(s, e).1))
  {
    var more := Step(s, e).1;
    if s.Connecting? && e.ServerConnected? {
      StepClientBytes(s, e);
      assert sent + [] == sent;
    } else if s.Established? && e.ServerData? {
      assert [WriteClient(e.data)][..0] == [];
      assert ClientStream(more) == e.data;
    } else if s.Established? {
      assert more == [] || more == [WriteServer(e.data)];
      if more != [] {
        assert more[..0] == [];
      }
      assert ClientStream(more) == [];
      assert sent + [] == sent && cs + [] == cs;
    } else {
      assert more == [];
      assert sent + [] == sent && cs + [] == cs;
    }
  }

  /** Over every error-free trace of an accepted target, the client receives
      the 200 preamble and then exactly the bytes the destination sent, in
      order; before the destination connected it receives nothing. */
  lemma {:induction false} PreambleThenServerBytes(t: ConnectTarget, head: Bytes, evs: seq<Event>)
    requires Start(t).Dial? && NoErrors(evs)
    ensures var (s, acts) := Run(t, head, evs);
      ClientGot(s, ServerBytes(evs), ClientStream(acts))
    decreases |evs|
  {
    if |evs| == 0 {
      NoClientBytes(Open(t, head).1);
    } else {
      var prefix, e := evs[..|evs| - 1], evs[|evs| - 1];
      assert NoErrors(prefix) by {
        forall i | 0 <= i < |prefix| ensures !prefix[i].ServerError? && !prefix[i].ClientError? {
          assert prefix[i] == evs[i];
        }
      }
      PreambleThenServerBytes(t, head, prefix);
      HeadThenClientBytes(t, head, prefix);
      assert evs == prefix + [e];
      RunSnoc(t, head, prefix, e);
      var (s, acts) := Run(t, head, prefix);
      ClientStreamAppend(acts, Step(s, e).1);
      assert !e.ServerError? && !e.ClientError?;
      StepClientGot(s, e, ServerBytes(prefix), ClientStream(acts));
    }
  }

  /** A torn-down tunnel stays torn down: no later event writes to either
      side. */
  lemma {:induction false} ClosedIsFinal(t: ConnectTarget, head: Bytes, evs: seq<Event>, later: seq<Event>)
    requires Run(t, head, evs).0.Closed?
    ensures Run(t, head, evs + later) == Run(t, head, evs)
    decreases |later|
  {
    if |later| == 0 {
      assert evs + later == evs;
    } else {
      var init, e := later[..|later| - 1], later[|later| - 1];
      ClosedIsFinal(t, head, evs, init);
      assert evs + later == (evs + init) + [e];
      RunSnoc(t, head, evs + init, e);
      assert Run(t, head, evs).1 + [] == Run(t, head, evs).1;
    }
  }

  /** An error on either side ends the other side, and after the first error
      nothing more is written to the client or the destination: the whole
      trace does what its prefix up to that error did. */
  lemma TeardownIsFinal(t: ConnectTarget, head: Bytes, evs: seq<Event>, i: nat)
    requires Start(t).Dial? && i < |evs| && (evs[i].ServerError? || evs[i].ClientError?)
    ensures Run(t, head, evs[..i + 1]).0.Closed?
    ensures Run(t, head, evs) == Run(t, head, evs[..i + 1])
  {
    SingleConnectAttempt(t, head, evs[..i]);
    assert evs[..i] + [evs[i]] == evs[..i + 1];
    RunSnoc(t, head, evs[..i], evs[i]);
    assert evs[..i + 1] + evs[i + 1..] == evs;
    ClosedIsFinal(t, head, evs[..i + 1], evs[i + 1..]);
  }

  /** On a trace without errors neither side is ever ended: the relay stays
      open in both directions for as long as both sockets do. */
  lemma {:induction false} NoEndWithoutError(t: ConnectTarget, head: Bytes, evs: seq<Event>)
    requires Start(t).Dial? && NoErrors(evs)
    ensures forall a :: a in Run(t, head, evs).1 ==> !a.EndClient? && !a.EndServer?
    decreases |evs|
  {
    if |evs| > 0 {
      var prefix, e := evs[..|evs| - 1], evs[|evs| - 1];
      assert NoErrors(prefix) by {
        forall i | 0 <= i < |prefix| ensures !prefix[i].ServerError? && !prefix[i].ClientError? {
          assert prefix[i] == evs[i];
        }
      }
      NoEndWithoutError(t, head, prefix);
      SingleConnectAttempt(t, head, prefix);
      assert evs == prefix + [e];
      RunSnoc(t, head, prefix, e);
      assert !e.ServerError? && !e.ClientError?;
    }
  }
}
