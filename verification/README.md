# SOCKS5 / HTTP forward proxy — a Dafny model

This project models the core of a small Node.js forward proxy
(nguyenvanhuy0612/proxy_project) and proves properties of the model. It covers:

- **SOCKS5 handler** (`socks.ts`). Two parts:
  - a pure decoder for the method-selection greeting and the CONNECT request, with the fixed ten-byte replies (RFC 1928, sections 3 to 6);
  - an event-driven session (`SocksSession`) covering the connect callback, the `'error'` events of both sockets and the relay.
- **HTTP forwarding handler** (`proxy.ts`, request listener). Covers:
  - the self-identification answer;
  - the outbound request options;
  - status pass-through with the 500 fallback;
  - the "Proxy Error" answer, given only while headers are unsent.
- **CONNECT tunnel handler** (`proxy.ts`, `'connect'` listener; section 9.3.6 of RFC 9110). Covers:
  - the 400 for a target without host or port;
  - the exact 200 preamble;
  - the `head` bytes that go ahead of the relayed client bytes;
  - error teardown on both sides.
- **Configuration** (`config.ts`). Covers:
  - the config-path choice;
  - the parse-failure fallback;
  - the environment > file > default precedence under JavaScript's `||`.
- **Logger** (`logger.ts`). Covers:
  - the four ordered levels;
  - the LOG_LEVEL threshold;
  - the threshold filter;
  - the console sink for each level;
  - the optional file append.

Sockets become inputs. Each socket event (a whole message, the connect callback, an `'error'`, relayed data) is an `Event`. What the handler does in response is a list of `Action`s. A `Run` function folds a trace of events, and lemmas state properties over every trace.

Foreign calls also become inputs: `url.parse`, `parseInt`, `JSON.parse` and file existence.

Behaviours of the code worth noting, each modelled as the code has it:

- A failed forward is answered with status 500 and the plain body `Proxy Error`; no 502 Bad Gateway is ever produced.
- No protocol dispatcher exists. Nothing routes connections to the SOCKS5 handler by peeking at the first byte.
- The SOCKS5 greeting never fails: `[5,0]` is answered even when the client did not offer "no authentication". The X'FF' path of RFC 1928 is not implemented.
- The SOCKS5 target's `'error'` listener stays attached after the success reply. A destination error during the relay therefore writes the X'04' reply into the relayed stream while the client is writable (`SocksSession.OnTargetError`).
- A numeric LOG_LEVEL (`"0"` to `"3"`) passes the enum's `in` test through TypeScript's reverse mapping. The threshold then becomes a level *name*, and no call ever passes the numeric comparison. The logger falls silent (`Logger.NumericLevelSilences`).
- Client bytes that arrive while a SOCKS5 connection is being opened meet no `'data'` listener and are dropped in the model. On the CONNECT path, the socket handed to the listener is not flowing, so early client bytes are buffered and relayed after `head` (`ConnectTunnel.HeadThenClientBytes`).

Modules:

- `Wrappers`: Option.
- `Octets`: bytes and the big-endian 16-bit field.
- `Decimal`: digit text, `Number` on digits, `split`.
- `Socks` and `SocksSession`.
- `HttpForward`.
- `ConnectTunnel`.
- `Config`.
- `Logger`.

## Model

| member | source | states |
|---|---|---|
| Octets.ReadUInt16BE | socks.ts:61 | DST.PORT is read big-endian at the given offset; it is absent (`readUInt16BE` throws) exactly when fewer than two bytes remain, and the value re-encodes to the two bytes read |
| Octets.UInt16RoundTrip | socks.ts:61 | a port encoded by a client reads back unchanged at its offset, whatever bytes surround it |
| Decimal.DecimalRoundTrip | socks.ts:43 | the decimal text of an octet, as `join('.')` writes it, denotes that octet again |
| Socks.ParseGreeting | socks.ts:5-17 | a greeting is accepted iff it is non-empty and its first byte is 5; the answer is then exactly [5,0] |
| Socks.GreetingIgnoresMethods | socks.ts:14-17 | NMETHODS and the method list never change the answer, even if "no authentication" is not offered |
| Socks.ParseRequest | socks.ts:19-61 | a short request, a wrong version or a non-zero RSV closes silently; the only replies it makes are X'07' and X'08'; a Connect result is exactly what the request's prefix encodes |
| Socks.ConnectRoundTrip | socks.ts:40-61 | every encodable CONNECT request (IPv4 or domain), followed by any bytes, parses to its address and port; with ParseRequest's contract this is an if-and-only-if |
| Socks.CommandCheckedBeforeAddressType | socks.ts:27-34 | a command other than CONNECT gets [5,7,0,1,0,0,0,0,0,0] whatever ATYP and address follow |
| Socks.Ipv6Refused | socks.ts:49-54 | ATYP 4 gets [5,8,0,1,0,0,0,0,0,0] whatever the address bytes and length |
| Socks.SilentCloseExactly | socks.ts:19-92 | the request closes with no reply exactly when the header is bad, ATYP is unknown, or the message ends before DST.PORT (10 bytes for IPv4, 7+L for a domain) |
| Socks.Reply | socks.ts:66-68 | every reply is ten bytes: version 5, the given REP, RSV 0, ATYP 1, bound address and port zero |
| Socks.WellFormedReplyIsReply | socks.ts:65-82 | a well-formed reply is determined by its REP byte |
| Socks.Ipv4TextRoundTrip | socks.ts:42-44 | the dotted text handed to the connector names exactly the four requested octets |
| SocksSession.OnTargetError | socks.ts:75-82 | a destination error closes the session, with X'04' if and only if the client is still writable |
| SocksSession.Step | socks.ts:5-87 | the greeting and the request are answered as the parser decides: [5,0], a silent end, the parser's failure reply, or a dial to exactly the parsed address and port; the connect callback writes the success reply and starts relaying; a destination error takes OnTargetError, a client error destroys the destination; relayed bytes are the event's bytes, unchanged; data arriving while the connection is being opened is dropped; a closed session, including one that refused the greeting or the request, ignores every event |
| SocksSession.TraceInvariants | socks.ts:19-87 | over every trace: the client is only ever sent [5,0], the success reply, or an X'04', X'07' or X'08' reply; no byte is relayed before the success reply; at most one outbound connection, none during the handshake |
| SocksSession.TraceOrigins | socks.ts:19-87 | over every trace: each dial goes to the address and port a received request parses to; the X'04' reply appears only after a destination error while the client was writable; every relayed chunk is one the client or the destination sent |
| SocksSession.ConnectLocalhostSucceeds | socks.ts:63-73 | CONNECT 127.0.0.1:80 answers [5,0], opens the connection, replies success, then relays |
| SocksSession.ConnectLocalhostUnreachable | socks.ts:75-82 | the same request with a failed connection replies [5,4,0,1,0,0,0,0,0,0] and relays nothing |
| HttpForward.OutboundOptions | proxy.ts:22-28 | hostname, path, method and headers are copied unchanged; the port is the URL's when truthy, else 80 |
| HttpForward.ResponseStatus | proxy.ts:32 | the origin's status when present and non-zero, else 500 |
| HttpForward.HandleAsWritten | proxy.ts:13-44 | a URL without a host name gets 200, text/plain and the self-identification body; a URL port above 65535 throws inside the listener; otherwise the request is sent with exactly the options OutboundOptions builds, then its body piped |
| HttpForward.OutOfRangeUrlPortThrows | proxy.ts:24-31 | a forward to http://example.com:70000/ reaches the throwing connector |
| HttpForward.Handle | proxy.ts:13-44 | the corrected handler: agrees with the code whenever the code does not throw, and answers an unusable port with the proxy's own 500 "Proxy Error" |
| HttpForward.UnusablePortAnswered | proxy.ts:36-42 | in the corrected handler a request with an unusable port is answered with 500 "Proxy Error" on every trace and nothing is ever sent |
| HttpForward.ForwardsClientRequest | proxy.ts:22-44 | over every trace of a request for another host at a usable port, the first action sends it with the options built from the client's request, the body is piped next, and no second request is ever sent |
| HttpForward.OnEvent | proxy.ts:31-42 | before headers are sent an error gives 500 "Proxy Error" and a response passes its status and headers on; after they are sent nothing more is written |
| HttpForward.TraceInvariants | proxy.ts:15-42 | over every trace the status line is written at most once, exactly when headers count as sent, the 500 answer never accompanies an origin body, and a self-answered request does nothing more |
| ConnectTunnel.StartAsWritten | proxy.ts:49-57 | 400 iff host or port is missing; a present port above 65535 reaches the connector, which throws |
| ConnectTunnel.OutOfRangePortThrows | proxy.ts:57 | CONNECT example.com:70000 reaches the throwing connector |
| ConnectTunnel.Start | proxy.ts:49-57 | the corrected start never throws: 400 for a missing host or port or one above 65535, otherwise it dials the host at the port's value, as the code does |
| ConnectTunnel.Open | proxy.ts:48-57 | built on the corrected start, so a port above 65535 is refused rather than thrown on: a refused target gets exactly `HTTP/1.1 400 Bad Request\r\n\r\n`; an accepted one starts dialling with `head` kept |
| ConnectTunnel.Step | proxy.ts:57-76 | the connect callback writes exactly the 200 preamble, then `head`, then the client bytes held back while dialling; once established, client bytes go to the destination and destination bytes to the client, unchanged; a destination error ends the client and a client error ends the destination; a refused or torn-down tunnel ignores every event; only an error ends a side; no step dials |
| ConnectTunnel.ClosedIsFinal | proxy.ts:68-76 | once the tunnel is torn down no later event writes to either side |
| ConnectTunnel.TeardownIsFinal | proxy.ts:68-76 | an error on either side closes the tunnel, and the whole trace does what its prefix up to the first error did: nothing is written afterwards |
| ConnectTunnel.NoEndWithoutError | proxy.ts:57-76 | on error-free traces of an accepted target neither the client nor the destination is ever ended |
| ConnectTunnel.RejectedStaysSilent | proxy.ts:51-54 | after a 400 nothing else happens on any trace: no connection is attempted |
| ConnectTunnel.SingleConnectAttempt | proxy.ts:57 | an accepted target is dialled once, as the first action, on every trace |
| ConnectTunnel.PreambleFirst | proxy.ts:57-60 | the client hears nothing before the destination connected, and after that its stream begins with the exact 200 preamble |
| ConnectTunnel.PreambleThenServerBytes | proxy.ts:57-64 | on error-free traces the client receives nothing before the destination connected, then the 200 preamble followed by every byte the destination sent, in order |
| ConnectTunnel.HeadThenClientBytes | proxy.ts:61-65 | on error-free traces the destination receives nothing before connecting, then `head` followed by every client byte in order |
| Config.Or | config.ts:38-41 | `a \|\| b` keeps a truthy left operand and otherwise yields the right one |
| Config.FirstExisting | config.ts:24 | the index found is of an existing path with no existing path before it; none is found only if no path exists |
| Config.ConfigPath | config.ts:20-24 | the path is the first candidate that exists, as `find` returns it; when none exists it is the first candidate |
| Config.LoadUserConfig | config.ts:25-34 | a missing or unparsable file leaves the empty configuration; a parsed value, `null` included, is kept as is |
| Config.BuildConfig | config.ts:37-43 | each field comes from the environment, the file or the default; the port is never 0 and the level never empty |
| Config.ConfigFrom | config.ts:37-43 | an object gives the precedence result; a `null` document throws unless PORT parses to a nonzero number and LOG_LEVEL and LOG_FILE are non-empty, and then every field is the environment's |
| Config.LoadConfig | config.ts:20-43 | with an existing config file that parses to an object the configuration is built from it; with no existing file or a parse failure it is built from the empty configuration; loading throws exactly when an existing file holds `null` and one of the three variables does not short-circuit |
| Config.NullDocumentThrows | config.ts:30-38 | a config file holding `null` with PORT unset makes the module throw at load |
| Config.PortPrecedence | config.ts:38 | a nonzero parseInt(PORT) wins, else a truthy file port, else 8080 |
| Config.UnsetPortFallsThrough | config.ts:38 | an unset or empty PORT falls through to the file port or 8080 |
| Config.LogPrecedence | config.ts:40-41 | the level is a non-empty LOG_LEVEL, else a non-empty file level, else INFO; the file is LOG_FILE, else the file's, else undefined |
| Config.MissingFileUsesEnvOrDefaults | config.ts:25-43 | without a readable, parsable config file every field comes from the environment or the defaults |
| Logger.Rank | logger.ts:4-9 | the levels' numeric values lie in 0..3 |
| Logger.RankInjective | logger.ts:4-9 | distinct levels have distinct values, so the order is total and strict |
| Logger.LevelOrder | logger.ts:4-9 | DEBUG is 0, INFO 1, WARN 2 and ERROR 3, so an ERROR call passes a WARN threshold and a WARN call does not pass an ERROR one |
| Logger.LevelNamed | logger.ts:17-18 | a name maps to the level with that name, and to nothing when no level has it |
| Logger.RankKey | logger.ts:17-18 | a string is a reverse-mapping key exactly when it is the one-digit text of a level's value, "0" to "3", and then it names that level |
| Logger.ToUpper | logger.ts:16 | upper-casing keeps the length and maps each character |
| Logger.ThresholdFromEnv | logger.ts:12-19 | unset or empty LOG_LEVEL gives INFO; a level name in any case gives that level; a digit key "0" to "3" stores that level's name as the threshold; anything else gives INFO |
| Logger.ThresholdIgnoresCase | logger.ts:16-18 | any spelling of LOG_LEVEL selects what its upper-case spelling selects |
| Logger.EmitsUpwardClosed | logger.ts:42 | a call that passes the threshold would pass at every higher level, and only a level threshold lets anything pass |
| Logger.NumericLevelSilences | logger.ts:17-18 | LOG_LEVEL "0" to "3" suppresses calls at every level |
| Logger.SinkFor | logger.ts:46-52 | ERROR goes to console.error, WARN to console.warn, DEBUG and INFO to console.log |
| Logger.NewLogger | logger.ts:15-23 | the threshold comes from LOG_LEVEL; a log file is set iff LOG_FILE is non-empty |
| Logger.Log | logger.ts:41-62 | a suppressed call writes nothing anywhere; an emitted one writes to its console sink, then appends the entry (or reports a failed append) when a file is configured |
| Logger.WrappersUseOwnLevel | logger.ts:65-79 | debug, info, warn and error are filtered by, named after and routed by their own level |
| Logger.DefaultThresholdDropsDebugOnly | logger.ts:12 | with LOG_LEVEL unset only debug calls are dropped |
| Logger.LowerCaseWarn | logger.ts:16-18 | "warn" and "WARN" both select WARN |

## Findings

| source | as written | input that shows it | evidently intended | confidence | as-written member | corrected member |
|---|---|---|---|---|---|---|
| proxy.ts:51-57 | only a missing host or port is refused; `Number(port)` goes to `net.connect` unchecked, and `net.connect` throws a RangeError for a port above 65535 inside the `'connect'` listener, where nothing catches it | `CONNECT example.com:70000` | an unusable target port gets the 400 answer like a missing one | medium, not executed | ConnectTunnel.OutOfRangePortThrows | ConnectTunnel.Start |
| proxy.ts:24-31 | the URL's port text goes to `http.request` unchecked; the connection it opens throws a RangeError for a port above 65535 inside the request listener, where nothing catches it | `GET http://example.com:70000/` through the proxy | the failure is answered like any other failed forward, with 500 `Proxy Error` | medium, not executed | HttpForward.OutOfRangeUrlPortThrows | HttpForward.Handle |

## Left out

- The protocol dispatcher (first-byte peek and routing). No code implements it.
- Real sockets, streams, `pipe` flow control and backpressure. These are I/O and are replaced by events and actions. The end-of-stream propagation that `pipe` performs is not modelled. A closed session ignores later events.
- TCP chunking. Each greeting and each request is one whole `'data'` message. Bytes pipelined after the greeting, or after DST.PORT in the request, are not forwarded. The model ignores them as the code does.
- SocksSession.Step: a client socket `'error'` before the dial is ignored. socks.ts attaches its client `'error'` listener only on the CONNECT path (socks.ts:84). An error while the greeting or request is awaited, or after a refused greeting (socks.ts:10), a silent close (socks.ts:23, :57, :91) or an X'07' or X'08' reply (socks.ts:32, :53), therefore has no listener and is uncaught in the code. The model ignores the event, and the uncaught exception is not modelled.
- `url.parse` internals. They are abstracted to the hostname, port and path fields the handlers read.
- UTF-8 decoding of a SOCKS5 domain name. The name is kept as raw bytes.
- `parseInt`, `JSON.parse`, `fs.existsSync` and `fs.readFileSync`. These are inputs.
- `path.resolve` of the config candidates and of LOG_FILE. These are inputs or are kept as given.
- The process-wide TLS flag, server start-up, and proxy.ts's own PORT parse (proxy.ts:8). These are unrelated to the handlers.
- The logger's `formatMessage`: timestamps, `JSON.stringify` of arguments and error stacks. An entry is modelled as a level name and a message.
- The logger's directory creation for the log file.
- `examples.ts` and the tests. These are client demos and network tests.
- Logger.ToUpper: maps only ASCII letters. `toUpperCase` also maps other characters (for example dotless ı to I, ß to SS), and those mappings are not modelled.
- Config.BuildConfig: a config file's `port` is taken to be an integer or absent. A string or fractional `port` is not modelled. A document that is `null` is modelled by `Config.ConfigFrom`; any other non-object document reads like an object without `port` or `log` and is passed as the empty configuration.
- ConnectTunnel.Open: uses the corrected `ConnectTunnel.Start`, so `Run` and the tunnel trace lemmas describe the handler with the out-of-range-port fix. For a port above 65535 the code as written throws inside the listener (`ConnectTunnel.StartAsWritten`), and a thrown listener has no further trace to model.
- ConnectTunnel.RejectedStaysSilent: after the 400 the handler returns before attaching its client `'error'` listener, so a client socket error at that point is uncaught in the code. The model ignores the event, and the uncaught exception is not modelled.
- HttpForward.Handle: `Run` and the HTTP trace lemmas use the corrected handler. For a URL port above 65535 the code as written throws inside the listener (`HttpForward.HandleAsWritten`), and a thrown listener has no further trace to model.
