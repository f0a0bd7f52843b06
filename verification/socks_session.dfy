/** The per-connection SOCKS5 state machine of socks.ts, driven by socket
    events. Each client `'data'` event is taken to carry one whole message
    (greeting, then request); the connector's callback, the two sockets'
    `'error'` events and relayed data are further events. */
module SocksSession {
  import opened Wrappers
  import opened Octets
  import opened Socks

  datatype State =
    | AwaitingGreeting
    | AwaitingRequest
    | Connecting(addr: Address, port: uint16)
    | Relaying
    | Closed

  datatype Event =
    | ClientData(data: Bytes)
    /** The connect callback of the outbound connection. */
    | TargetConnected
    /** `'error'` on the outbound socket; `clientWritable` is the client
        socket's `writable` flag at that moment. */
    | TargetError(clientWritable: bool)
    /** `'error'` on the client socket. */
    | ClientError
    | TargetData(data: Bytes)

  datatype Action =
    | WriteClient(data: Bytes)
    /** `socket.end()`, with the final bytes when given. */
    | EndClient(final: Option<Bytes>)
    | OpenTarget(addr: Address, port: uint16)
    | RelayToTarget(data: Bytes)
    | RelayToClient(data: Bytes)
    | DestroyTarget

  predicate Handshaking(s: State) {
    s.AwaitingGreeting? || s.AwaitingRequest?
  }

  predicate IsRelay(a: Action) {
    a.RelayToTarget? || a.RelayToClient?
  }

  /** Every message the handler itself composes for the client: the
      method-selection answer or the success reply is written, and a failure
      reply (host unreachable, command or address type not supported) ends
      the connection. */
  predicate ComposedAsSpecified(a: Action) {
    && (a.WriteClient? ==> a.data == [SOCKS_VERSION, METHOD_NO_AUTH] || a.data == Reply(REP_SUCCEEDED))
    && (a.EndClient? && a.final.Some? ==>
          || a.final.value == Reply(REP_HOST_UNREACHABLE)
          || a.final.value == Reply(REP_COMMAND_NOT_SUPPORTED)
          || a.final.value == Reply(REP_ADDRESS_TYPE_NOT_SUPPORTED))
  }

  /** The outcome of the outbound connection: success replies X'00' and starts
      relaying; an error replies X'04' only while the client is still
      writable. The error listener stays attached while relaying, so a later
      error on the destination takes the same path. */
  function OnTargetError(clientWritable: bool): (r: (State, seq<Action>))
    ensures r.0 == Closed
    ensures clientWritable <==> r.1 == [EndClient(Some(Reply(REP_HOST_UNREACHABLE)))]
    ensures !clientWritable ==> r.1 == []
  {
    (Closed, if clientWritable then [EndClient(Some(Reply(REP_HOST_UNREACHABLE)))] else [])
  }

  /** One event. Events a state has no listener for change nothing. */
  function Step(s: State, e: Event): (r: (State, seq<Action>))
    // The greeting and the request, answered as the parser decides.
    ensures s.AwaitingGreeting? && e.ClientData? ==>
              r == (if ParseGreeting(e.data).GreetingAccepted?
                    then (AwaitingRequest, [WriteClient(ParseGreeting(e.data).reply)])
                    else (Closed, [EndClient(None)]))
    ensures s.AwaitingRequest? && e.ClientData? && ParseRequest(e.data).CloseNoReply? ==>
              r == (Closed, [EndClient(None)])
    ensures s.AwaitingRequest? && e.ClientData? && ParseRequest(e.data).ReplyAndClose? ==>
              r == (Closed, [EndClient(Some(ParseRequest(e.data).reply))])
    ensures s.AwaitingRequest? && e.ClientData? && ParseRequest(e.data).Connect? ==>
              r == (Connecting(ParseRequest(e.data).addr, ParseRequest(e.data).port),
                    [OpenTarget(ParseRequest(e.data).addr, ParseRequest(e.data).port)])
    ensures Handshaking(s) && !e.ClientData? ==> r == (s, [])
    // The connect result, and the error listeners of both sockets.
    ensures s.Connecting? && e.TargetConnected? ==> r == (Relaying, [WriteClient(Reply(REP_SUCCEEDED))])
    ensures (s.Connecting? || s.Relaying?) && e.TargetError? ==> r == OnTargetError(e.clientWritable)
    ensures (s.Connecting? || s.Relaying?) && e.ClientError? ==> r == (Closed, [DestroyTarget])
    // The relay, both directions, with the bytes unchanged.
    ensures s.Relaying? && e.ClientData? ==> r == (Relaying, [RelayToTarget(e.data)])
    ensures s.Relaying? && e.TargetData? ==> r == (Relaying, [RelayToClient(e.data)])
    // Events the state has no listener for.
    ensures s.Connecting? && (e.ClientData? || e.TargetData?) ==> r == (s, [])
    ensures s.Relaying? && e.TargetConnected? ==> r == (s, [])
    ensures s.Closed? ==> r == (s, [])
    // Consequences over all events.
    ensures forall a :: a in r.1 ==> ComposedAsSpecified(a)
    ensures (exists a :: a in r.1 && IsRelay(a)) ==> s.Relaying? && r.0.Relaying?
    ensures r.0.Relaying? && !s.Relaying? ==> r.1 == [WriteClient(Reply(REP_SUCCEEDED))]
    ensures (exists a :: a in r.1 && a.OpenTarget?) ==> s.AwaitingRequest? && |r.1| == 1
    ensures !Handshaking(s) ==> !Handshaking(r.0)
  {
    match s
    case AwaitingGreeting =>
      if e.ClientData? then
        (match ParseGreeting(e.data)
         case GreetingRejected => (Closed, [EndClient(None)])
         case GreetingAccepted(reply) => (AwaitingRequest, [WriteClient(reply)]))
      else (s, [])
    case AwaitingRequest =>
      if e.ClientData? then
        (match ParseRequest(e.data)
         case CloseNoReply => (Closed, [EndClient(None)])
         case ReplyAndClose(reply) => (Closed, [EndClient(Some(reply))])
         case Connect(addr, port) => (Connecting(addr, port), [OpenTarget(addr, port)]))
      else (s, [])
    case Connecting(_, _) =>
      (match e
       case TargetConnected => (Relaying, [WriteClient(Reply(REP_SUCCEEDED))])
       case TargetError(w) => OnTargetError(w)
       case ClientError => (Closed, [DestroyTarget])
       case _ => (s, []))
    case Relaying =>
      (match e
       case ClientData(b) => (Relaying, [RelayToTarget(b)])
       case TargetData(b) => (Relaying, [RelayToClient(b)])
       case TargetError(w) => OnTargetError(w)
       case ClientError => (Closed, [DestroyTarget])
       case TargetConnected => (s, []))
    case Closed => (s, [])
  }

  /** The state and the actions after a sequence of events from a fresh
      connection. */
  function Run(evs: seq<Event>): (State, seq<Action>)
    decreases |evs|
  {
    if |evs| == 0 then (AwaitingGreeting, [])
    else
      var (s, acts) := Run(evs[..|evs| - 1]);
      var (s', more) := Step(s, evs[|evs| - 1]);
      (s', acts + more)
  }

  /** Over every trace: the handler composes only the specified messages, no
      byte is relayed before the success reply, and at most one outbound
      connection is opened, never before the request has been parsed. */
  lemma {:induction false} TraceInvariants(evs: seq<Event>)
    ensures var (s, acts) := Run(evs);
      && (forall a :: a in acts ==> ComposedAsSpecified(a))
      && (forall i :: 0 <= i < |acts| && IsRelay(acts[i]) ==> WriteClient(Reply(REP_SUCCEEDED)) in acts[..i])
      && (s.Relaying? ==> WriteClient(Reply(REP_SUCCEEDED)) in acts)
      && (Handshaking(s) ==> forall a :: a in acts ==> !a.OpenTarget?)
      && (forall i, j :: 0 <= i < j < |acts| && acts[i].OpenTarget? ==> !acts[j].OpenTarget?)
    decreases |evs|
  {
    if |evs| > 0 {
      var prefix := evs[..|evs| - 1];
      TraceInvariants(prefix);
      var (s, acts) := Run(prefix);
      var (s', more) := Step(s, evs[|evs| - 1]);
      var all := acts + more;
      assert Run(evs) == (s', all);
      assert forall i :: 0 <= i < |acts| ==> all[..i] == acts[..i];
      assert forall i :: |acts| <= i < |all| ==> all[i] in more && acts <= all[..i];
    }
  }

  /** Over every trace, each action has the event that caused it: a dial
      goes to the destination a parsed request named, the host-unreachable
      reply follows a destination error seen while the client was writable,
      and relayed bytes are bytes one side sent. */
  lemma {:induction false} TraceOrigins(evs: seq<Event>)
    ensures var acts := Run(evs).1;
      && (forall i :: 0 <= i < |acts| && acts[i].OpenTarget? ==>
            exists k :: 0 <= k < |evs| && evs[k].ClientData?
                        && ParseRequest(evs[k].data) == Connect(acts[i].addr, acts[i].port))
      && (EndClient(Some(Reply(REP_HOST_UNREACHABLE))) in acts ==> TargetError(true) in evs)
      && (forall i :: 0 <= i < |acts| && acts[i].RelayToTarget? ==> ClientData(acts[i].data) in evs)
      && (forall i :: 0 <= i < |acts| && acts[i].RelayToClient? ==> TargetData(acts[i].data) in evs)
    decreases |evs|
  {
    if |evs| > 0 {
      var prefix, e := evs[..|evs| - 1], evs[|evs| - 1];
      TraceOrigins(prefix);
      var (s, acts) := Run(prefix);
      var (s', more) := Step(s, e);
      var all := acts + more;
      assert Run(evs) == (s', all);
      assert forall k :: 0 <= k < |prefix| ==> evs[k] == prefix[k];
      assert forall x :: x in prefix ==> x in evs;
      assert e in evs;
      forall i | 0 <= i < |all| && all[i].OpenTarget?
        ensures exists k :: 0 <= k < |evs| && evs[k].ClientData?
                            && ParseRequest(evs[k].data) == Connect(all[i].addr, all[i].port)
      {
        if i < |acts| {
          assert all[i] == acts[i] && acts[i].OpenTarget?;
          assert Run(prefix).1 == acts;
          var k :| 0 <= k < |prefix| && prefix[k].ClientData?
                   && ParseRequest(prefix[k].data) == Connect(acts[i].addr, acts[i].port);
          assert evs[k] == prefix[k];
        } else {
          assert all[i] in more;
          assert s.AwaitingRequest? && e.ClientData? && ParseRequest(e.data).Connect?;
          assert more == [OpenTarget(ParseRequest(e.data).addr, ParseRequest(e.data).port)];
          assert evs[|evs| - 1] == e;
        }
      }
      forall i | 0 <= i < |all| && IsRelay(all[i])
        ensures all[i].RelayToTarget? ==> ClientData(all[i].data) in evs
        ensures all[i].RelayToClient? ==> TargetData(all[i].data) in evs
      {
        if i < |acts| {
          assert all[i] == acts[i];
        } else {
          assert all[i] in more;
        }
      }
      if EndClient(Some(Reply(REP_HOST_UNREACHABLE))) in more {
        assert e == TargetError(true);
      }
    }
  }

  /** Running one more event is one more Step after the run so far. */
  lemma RunSnoc(evs: seq<Event>, e: Event)
    ensures Run(evs + [e]) == (Step(Run(evs).0, e).0, Run(evs).1 + Step(Run(evs).0, e).1)
  {
    assert (evs + [e])[..|evs|] == evs;
  }

  const LocalhostGreeting: Bytes := [5, 1, 0]
  const LocalhostRequest: Bytes := [5, 1, 0, 1, 127, 0, 0, 1, 0, 0x50]

  lemma LocalhostRequestParses()
    ensures ParseRequest(LocalhostRequest) == Connect(Ipv4(127, 0, 0, 1), 80)
  {
    assert ReadUInt16BE(LocalhostRequest, 8) == Some(80);
  }

  lemma LocalhostGreetingAccepted()
    ensures Run([ClientData(LocalhostGreeting)]) == (AwaitingRequest, [WriteClient([5, 0])])
  {
    var e1 := ClientData(LocalhostGreeting);
    RunSnoc([], e1);
    assert [] + [e1] == [e1];
    assert Step(AwaitingGreeting, e1) == (AwaitingRequest, [WriteClient([5, 0])]);
    assert [] + [WriteClient([5, 0])] == [WriteClient([5, 0])];
  }

  /** The handshake of a CONNECT to 127.0.0.1:80. */
  lemma LocalhostHandshake()
    ensures Run([ClientData(LocalhostGreeting), ClientData(LocalhostRequest)])
         == (Connecting(Ipv4(127, 0, 0, 1), 80), [WriteClient([5, 0]), OpenTarget(Ipv4(127, 0, 0, 1), 80)])
  {
    var e1, e2 := ClientData(LocalhostGreeting), ClientData(LocalhostRequest);
    var dst := Ipv4(127, 0, 0, 1);
    LocalhostRequestParses();
    LocalhostGreetingAccepted();
    RunSnoc([e1], e2);
    assert [e1] + [e2] == [e1, e2];
    assert Step(AwaitingRequest, e2) == (Connecting(dst, 80), [OpenTarget(dst, 80)]);
    assert [WriteClient([5, 0])] + [OpenTarget(dst, 80)] == [WriteClient([5, 0]), OpenTarget(dst, 80)];
  }

  /** The CONNECT 127.0.0.1:80 example with a reachable destination: the
      success reply follows the handshake, and client bytes are relayed
      afterwards. */
  lemma ConnectLocalhostSucceeds()
    ensures Run([ClientData(LocalhostGreeting), ClientData(LocalhostRequest), TargetConnected, ClientData([7])])
         == (Relaying, [WriteClient([5, 0]), OpenTarget(Ipv4(127, 0, 0, 1), 80),
                        WriteClient([5, 0, 0, 1, 0, 0, 0, 0, 0, 0]), RelayToTarget([7])])
  {
    var e1, e2, e3, e4 := ClientData(LocalhostGreeting), ClientData(LocalhostRequest), TargetConnected, ClientData([7]);
    var dst := Ipv4(127, 0, 0, 1);
    var acts2 := [WriteClient([5, 0]), OpenTarget(dst, 80)];
    var acts3 := acts2 + [WriteClient(Reply(REP_SUCCEEDED))];
    LocalhostHandshake();
    RunSnoc([e1, e2], e3);
    assert [e1, e2] + [e3] == [e1, e2, e3];
    assert Run([e1, e2, e3]) == (Relaying, acts3);
    RunSnoc([e1, e2, e3], e4);
    assert [e1, e2, e3] + [e4] == [e1, e2, e3, e4];
    assert Run([e1, e2, e3, e4]) == (Relaying, acts3 + [RelayToTarget([7])]);
    assert Reply(REP_SUCCEEDED) == [5, 0, 0, 1, 0, 0, 0, 0, 0, 0];
    assert acts3 + [RelayToTarget([7])] == [WriteClient([5, 0]), OpenTarget(dst, 80),
      WriteClient([5, 0, 0, 1, 0, 0, 0, 0, 0, 0]), RelayToTarget([7])];
  }

  /** The same request when the destination is unreachable and the client
      is still writable: host unreachable, and nothing is relayed. */
  lemma ConnectLocalhostUnreachable()
    ensures Run([ClientData(LocalhostGreeting), ClientData(LocalhostRequest), TargetError(true), ClientData([7])])
         == (Closed, [WriteClient([5, 0]), OpenTarget(Ipv4(127, 0, 0, 1), 80),
                      EndClient(Some([5, 4, 0, 1, 0, 0, 0, 0, 0, 0]))])
  {
    var e1, e2, e3, e4 := ClientData(LocalhostGreeting), ClientData(LocalhostRequest), TargetError(true), ClientData([7]);
    var dst := Ipv4(127, 0, 0, 1);
    var acts2 := [WriteClient([5, 0]), OpenTarget(dst, 80)];
    var acts3 := acts2 + [EndClient(Some(Reply(REP_HOST_UNREACHABLE)))];
    LocalhostHandshake();
    RunSnoc([e1, e2], e3);
    assert [e1, e2] + [e3] == [e1, e2, e3];
    assert Run([e1, e2, e3]) == (Closed, acts3);
    RunSnoc([e1, e2, e3], e4);
    assert [e1, e2, e3] + [e4] == [e1, e2, e3, e4];
    assert acts3 + [] == acts3;
    assert Reply(REP_HOST_UNREACHABLE) == [5, 4, 0, 1, 0, 0, 0, 0, 0, 0];
    assert acts3 == [WriteClient([5, 0]), OpenTarget(dst, 80), EndClient(Some([5, 4, 0, 1, 0, 0, 0, 0, 0, 0]))];
  }
}
