/** The SOCKS5 handshake of socks.ts as pure functions on whole messages: the
    method-selection greeting (section 3 of RFC 1928), the CONNECT request
    (sections 4 and 5) and the fixed replies (section 6). */
module Socks {
  import opened Wrappers
  import opened Octets
  import Decimal

  const SOCKS_VERSION: uint8 := 0x05
  const METHOD_NO_AUTH: uint8 := 0x00
  const CMD_CONNECT: uint8 := 0x01
  const RESERVED: uint8 := 0x00
  const ATYP_IPV4: uint8 := 0x01
  const ATYP_DOMAIN: uint8 := 0x03
  const ATYP_IPV6: uint8 := 0x04

  const REP_SUCCEEDED: uint8 := 0x00
  const REP_HOST_UNREACHABLE: uint8 := 0x04
  const REP_COMMAND_NOT_SUPPORTED: uint8 := 0x07
  const REP_ADDRESS_TYPE_NOT_SUPPORTED: uint8 := 0x08

  /** The shortest request the handler looks at: VER CMD RSV ATYP plus three
      more bytes. */
  const MIN_REQUEST_LENGTH := 7

  /** A destination. A domain name is kept as its raw bytes; socks.ts decodes
      them as UTF-8 before connecting. */
  datatype Address = Ipv4(a: uint8, b: uint8, c: uint8, d: uint8) | DomainName(name: Bytes)

  datatype GreetingResult = GreetingRejected | GreetingAccepted(reply: Bytes)

  /** What the handler does with the request message: close without writing,
      write a final reply and close, or open a connection to the destination. */
  datatype RequestResult =
    | CloseNoReply
    | ReplyAndClose(reply: Bytes)
    | Connect(addr: Address, port: uint16)

  /** A reply as the handler writes it: ten bytes, version 5, reserved 0, an
      IPv4 bound address of 0.0.0.0 and bound port 0. */
  predicate WellFormedReply(r: Bytes) {
    && |r| == 10
    && r[0] == SOCKS_VERSION && r[2] == RESERVED && r[3] == ATYP_IPV4
    && forall i :: 4 <= i < 10 ==> r[i] == 0
  }

  function Reply(rep: uint8): (r: Bytes)
    ensures WellFormedReply(r) && r[1] == rep
  {
    [SOCKS_VERSION, rep, RESERVED, ATYP_IPV4, 0, 0, 0, 0, 0, 0]
  }

  /** A well-formed reply is determined by its REP byte alone. */
  lemma WellFormedReplyIsReply(r: Bytes)
    requires WellFormedReply(r)
    ensures r == Reply(r[1])
  {
    var e := Reply(r[1]);
    assert forall i :: 0 <= i < 10 ==> r[i] == e[i];
  }

  /** The method-selection message. Only the version byte is examined; the
      server always selects "no authentication required". */
  function ParseGreeting(g: Bytes): (r: GreetingResult)
    ensures r.GreetingAccepted? <==> |g| > 0 && g[0] == SOCKS_VERSION
    ensures r.GreetingAccepted? ==> r.reply == [SOCKS_VERSION, METHOD_NO_AUTH]
  {
    if |g| == 0 || g[0] != SOCKS_VERSION then GreetingRejected
    else GreetingAccepted([SOCKS_VERSION, METHOD_NO_AUTH])
  }

  /** Neither NMETHODS nor the offered methods change the answer, even when the
      client never offered "no authentication". */
  lemma GreetingIgnoresMethods(nMethods: uint8, methods: Bytes, nMethods': uint8, methods': Bytes)
    ensures ParseGreeting([SOCKS_VERSION, nMethods] + methods)
         == ParseGreeting([SOCKS_VERSION, nMethods'] + methods')
         == GreetingAccepted([SOCKS_VERSION, METHOD_NO_AUTH])
  {
  }

  /** A destination a SOCKS5 request can carry: a domain name fits its
      one-byte length field. */
  predicate ValidAddress(addr: Address) {
    addr.DomainName? ==> |addr.name| < 256
  }

  /** ATYP followed by DST.ADDR, as a client encodes it. */
  function EncodeAddress(addr: Address): (b: Bytes)
    requires ValidAddress(addr)
  {
    match addr
    case Ipv4(a, b, c, d) => [ATYP_IPV4, a, b, c, d]
    case DomainName(name) => [ATYP_DOMAIN, |name| as uint8] + name
  }

  /** The CONNECT request a client sends for `addr` and `port`. */
  function EncodeConnect(addr: Address, port: uint16): (b: Bytes)
    requires ValidAddress(addr)
  {
    [SOCKS_VERSION, CMD_CONNECT, RESERVED] + EncodeAddress(addr) + EncodeUInt16BE(port)
  }

  /** The request message. The header is checked first, then CMD, then ATYP;
      DST.PORT is read right after the address, and a message too short for it
      is closed silently (socks.ts's readUInt16BE throws and its catch ends
      the socket). Bytes after DST.PORT are ignored. A CONNECT result is exactly
      what the message's prefix encodes. */
  function ParseRequest(q: Bytes): (r: RequestResult)
    ensures |q| < MIN_REQUEST_LENGTH || q[0] != SOCKS_VERSION || q[2] != RESERVED ==> r == CloseNoReply
    ensures r.ReplyAndClose? ==>
              r.reply == Reply(REP_COMMAND_NOT_SUPPORTED) || r.reply == Reply(REP_ADDRESS_TYPE_NOT_SUPPORTED)
    ensures r.Connect? ==> ValidAddress(r.addr) && EncodeConnect(r.addr, r.port) <= q
  {
    if |q| < MIN_REQUEST_LENGTH || q[0] != SOCKS_VERSION || q[2] != RESERVED then CloseNoReply
    else if q[1] != CMD_CONNECT then ReplyAndClose(Reply(REP_COMMAND_NOT_SUPPORTED))
    else if q[3] == ATYP_IPV4 then
      match ReadUInt16BE(q, 8)
      case None => CloseNoReply
      case Some(port) =>
        var addr := Ipv4(q[4], q[5], q[6], q[7]);
        assert EncodeConnect(addr, port) == q[..10];
        Connect(addr, port)
    else if q[3] == ATYP_DOMAIN then
      var len := q[4] as nat;
      match ReadUInt16BE(q, 5 + len)
      case None => CloseNoReply
      case Some(port) =>
        var addr := DomainName(q[5..5 + len]);
        assert EncodeConnect(addr, port) == q[..7 + len];
        Connect(addr, port)
    else if q[3] == ATYP_IPV6 then ReplyAndClose(Reply(REP_ADDRESS_TYPE_NOT_SUPPORTED))
    else CloseNoReply
  }

  /** Round trip: every CONNECT request a client can encode, followed by any
      bytes at all, parses back to its destination and port. Together with
      ParseRequest's own contract, a request yields Connect(addr, port) exactly
      when it begins with EncodeConnect(addr, port). */
  lemma ConnectRoundTrip(addr: Address, port: uint16, rest: Bytes)
    requires ValidAddress(addr)
    ensures ParseRequest(EncodeConnect(addr, port) + rest) == Connect(addr, port)
  {
    var q := EncodeConnect(addr, port) + rest;
    var head := [SOCKS_VERSION, CMD_CONNECT, RESERVED] + EncodeAddress(addr);
    assert q == head + EncodeUInt16BE(port) + rest;
    UInt16RoundTrip(head, port, rest);
    match addr
    case Ipv4(a, b, c, d) =>
      assert q[3] == ATYP_IPV4 && q[4..8] == [a, b, c, d];
    case DomainName(name) =>
      assert q[3] == ATYP_DOMAIN && q[4] as nat == |name|;
      assert q[5..5 + |name|] == name;
  }

  /** CMD is checked before ATYP: an unsupported command is answered with
      X'07' whatever address type and address follow. */
  lemma CommandCheckedBeforeAddressType(q: Bytes)
    requires |q| >= MIN_REQUEST_LENGTH && q[0] == SOCKS_VERSION && q[2] == RESERVED
    requires q[1] != CMD_CONNECT
    ensures ParseRequest(q) == ReplyAndClose(Reply(REP_COMMAND_NOT_SUPPORTED))
  {
  }

  /** An IPv6 destination is refused with X'08' whatever the address bytes are
      and however long the message is. */
  lemma Ipv6Refused(q: Bytes)
    requires |q| >= MIN_REQUEST_LENGTH && q[0] == SOCKS_VERSION && q[2] == RESERVED
    requires q[1] == CMD_CONNECT && q[3] == ATYP_IPV6
    ensures ParseRequest(q) == ReplyAndClose(Reply(REP_ADDRESS_TYPE_NOT_SUPPORTED))
  {
  }

  /** The handler closes without a reply exactly when the header is malformed,
      or a CONNECT names an unknown address type, or the message ends before
      DST.PORT is complete. */
  lemma SilentCloseExactly(q: Bytes)
    ensures ParseRequest(q) == CloseNoReply <==>
      || |q| < MIN_REQUEST_LENGTH || q[0] != SOCKS_VERSION || q[2] != RESERVED
      || (q[1] == CMD_CONNECT && q[3] !in {ATYP_IPV4, ATYP_DOMAIN, ATYP_IPV6})
      || (q[1] == CMD_CONNECT && q[3] == ATYP_IPV4 && |q| < 10)
      || (q[1] == CMD_CONNECT && q[3] == ATYP_DOMAIN && |q| < MIN_REQUEST_LENGTH + q[4] as int)
  {
  }

  /** The host text socks.ts hands to the connector for an IPv4 address:
      the four octets in decimal joined with dots. */
  function Ipv4Text(a: uint8, b: uint8, c: uint8, d: uint8): string {
    Decimal.DecimalText(a as nat) + "." + Decimal.DecimalText(b as nat) + "."
      + Decimal.DecimalText(c as nat) + "." + Decimal.DecimalText(d as nat)
  }

  /** Reads dotted-quad text back into its four octets. */
  function ParseDottedQuad(s: string): Option<(uint8, uint8, uint8, uint8)> {
    var parts := Decimal.SplitOn(s, '.');
    if |parts| == 4 && forall i :: 0 <= i < 4 ==> |parts[i]| > 0 && Decimal.AllDigits(parts[i]) then
      var a, b, c, d := Decimal.DecimalValue(parts[0]), Decimal.DecimalValue(parts[1]),
                        Decimal.DecimalValue(parts[2]), Decimal.DecimalValue(parts[3]);
      if a < 256 && b < 256 && c < 256 && d < 256 then Some((a as uint8, b as uint8, c as uint8, d as uint8))
      else None
    else None
  }

  /** Splitting four dot-free pieces joined with dots gives the pieces back. */
  lemma SplitDotted(w: string, x: string, y: string, z: string)
    requires '.' !in w && '.' !in x && '.' !in y && '.' !in z
    ensures Decimal.SplitOn(w + "." + x + "." + y + "." + z, '.') == [w, x, y, z]
  {
    assert w + "." + x + "." + y + "." + z == w + ['.'] + (x + ['.'] + (y + ['.'] + z));
    Decimal.SplitAtSeparator(w, '.', x + ['.'] + (y + ['.'] + z));
    Decimal.SplitAtSeparator(x, '.', y + ['.'] + z);
    Decimal.SplitAtSeparator(y, '.', z);
    Decimal.SplitNoSeparator(z, '.');
  }

  /** The dotted text names exactly the four octets of the request. */
  lemma Ipv4TextRoundTrip(a: uint8, b: uint8, c: uint8, d: uint8)
    ensures ParseDottedQuad(Ipv4Text(a, b, c, d)) == Some((a, b, c, d))
  {
    var ta, tb, tc, td := Decimal.DecimalText(a as nat), Decimal.DecimalText(b as nat),
                          Decimal.DecimalText(c as nat), Decimal.DecimalText(d as nat);
    Decimal.DigitsHaveNoDot(ta);
    Decimal.DigitsHaveNoDot(tb);
    Decimal.DigitsHaveNoDot(tc);
    Decimal.DigitsHaveNoDot(td);
    SplitDotted(ta, tb, tc, td);
    Decimal.DecimalRoundTrip(a as nat);
    Decimal.DecimalRoundTrip(b as nat);
    Decimal.DecimalRoundTrip(c as nat);
    Decimal.DecimalRoundTrip(d as nat);
  }
}
