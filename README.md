# Socket.IO client and REST agent of the Vostok smoke test

The smoke test `smoke_tests/rest_api_smoke_test.py` drives one agent session
against a contact-centre web service: it logs in over HTTP, opens a Socket.IO 0.9
channel, sets the agent's state twice over that channel and checks each
acknowledgement, then logs out. This project models the protocol core of that
script and proves properties of it:

- **`SocketIOClient`**: the frame decoder (`RECV_PATTERN`, frames of the form
  `type:id:endpoint:data`), the receive loop that discards control frames and stops
  at a deadline, the handshake that negotiates a session id and waits for the connect
  frame, and `send`.
- **`RestAgent`**: `post` and `get` with their status checks and cookie jar, `login`,
  `setState` and `logout`, and the helpers `verify` and `verify2`.

The modules follow the program's structure:

- `Checks` (checks.dfy) holds the error values that replace the script's exceptions,
  plus `Verify` and `Verify2`.
- `Wire` (wire.dfy) holds frame decoding and the string operations applied to payloads.
- `Receiving` (receiving.dfy) holds `Receive`, the function that says what `recv`
  returns and how many frames it reads. `Receive` decodes each queued message and hands the
  frames to `Scan`, the loop itself. The lemmas about `Scan` cover the filtering and the
  deadline.
- `Http` (http.dfy) holds the response and request records and `_checkRequestResult`.
- `Agent` (agent.dfy) holds the pure decisions: URLs, the negotiation id, the
  login/set-state/logout verdicts and the set-state frames.
- `Clients` (clients.dfy) holds the classes `Connection`, `SocketIOClient` and
  `RestAgent`. Their methods are proved against the functions above.

Nothing touches a network. Each HTTP response is a record the caller supplies. A
websocket is a `Connection` object: a queue of frames the server will send, a log of
frames written, and a `closed` flag. The deadline of `recv` is a number of reads
(`ticks`). `Budget` makes it zero when the wait is not positive.

Behaviour of the code that is easy to misread:

- Decoding matches only at the start of the frame. The data field stops at the first
  newline, and anything after that is ignored.
- No frame encoder is used (`SEND_PATTERN` is dead code). The only outgoing frame is the
  literal that `setState` formats.
- The handshake accepts its connect frame after any number of disconnect and heartbeat
  frames. It is not limited to the first frame.
- A bare connect frame `1::` (or heartbeat `2::`) has no third colon, so the pattern
  rejects it and the handshake fails on it with `MalformedFrame`.
- `get` always expects status 200. It ignores its `headers` argument.
- The acknowledgement check always expects the status code `ready-call`, whatever code
  was sent (`Agent.EchoedCodeRejected`).
- When the handshake fails, the websocket it opened is never closed. `Connect` returns
  only the error.
- `logout` with no channel fails with `NoChannel`, because its `finally` clause itself
  raises. That error replaces any error from the HTTP step.

## Model

| member | source | states |
|---|---|---|
| Checks.Verify | smoke_tests/rest_api_smoke_test.py:10-15 | passes exactly when the condition holds, else fails with the given description |
| Checks.MismatchText | smoke_tests/rest_api_smoke_test.py:18 | the failure text starts with the description and ends with the expected value after an opening quote that is never closed |
| Checks.Verify2 | smoke_tests/rest_api_smoke_test.py:17-18 | passes exactly when actual equals expected; the failure message starts with the description |
| Wire.Field | smoke_tests/rest_api_smoke_test.py:58 | one `\d*:` group: when it matches, the digits, the colon and the rest account for the whole input |
| Wire.FieldSplits | smoke_tests/rest_api_smoke_test.py:58 | a `\d*:` group that matches is all digits, then the colon, then the rest of the text |
| Wire.FieldOf | smoke_tests/rest_api_smoke_test.py:58 | conversely, any run of digits followed by a colon matches as exactly that group, whatever follows |
| Wire.UpTo | smoke_tests/rest_api_smoke_test.py:58 | the longest prefix without the separator; the next character, if any, is the separator (`.*`, and `split(':')[0]`) |
| Wire.Decode | smoke_tests/rest_api_smoke_test.py:58 | every frame it accepts has a one-digit code, digit-only id and endpoint, and data without a newline |
| Wire.DecodeSound | smoke_tests/rest_api_smoke_test.py:58 | a decoded message is its frame's layout followed by nothing or by a newline |
| Wire.DecodeLayout | smoke_tests/rest_api_smoke_test.py:58 | every well-formed frame, followed by nothing or by a newline, decodes back to itself; with DecodeSound this is an if-and-only-if |
| Wire.EventFrameDecodes | smoke_tests/rest_api_smoke_test.py:58 | `5:::` followed by any text decodes as an event with empty id and endpoint, data up to the first newline |
| Wire.BareConnectRejected | smoke_tests/rest_api_smoke_test.py:58 | the bare connect frame `1::` is no frame, because the pattern needs a third colon before the data |
| Wire.TwoDigitCodeRejected | smoke_tests/rest_api_smoke_test.py:58 | `10::x` is no frame, because the code is a single digit |
| Wire.StripSpaces | smoke_tests/rest_api_smoke_test.py:94 | the result has no space, and as a multiset it is the input with every space removed and every other character kept as often as it occurs |
| Wire.StripSpacesAppend | smoke_tests/rest_api_smoke_test.py:94 | space removal works piecewise on a concatenation, so the kept characters stay in their order |
| Wire.StripSpacesKeepsSpaceFree | smoke_tests/rest_api_smoke_test.py:94 | text without spaces is returned unchanged |
| Wire.Lower | smoke_tests/rest_api_smoke_test.py:234-235 | same length, no upper-case letter left, upper-case letters mapped to their lower-case letters, all other characters kept |
| Wire.LowerKeepsSpaces | smoke_tests/rest_api_smoke_test.py:234-235 | lower-casing neither adds nor removes spaces |
| Receiving.Budget | smoke_tests/rest_api_smoke_test.py:87-88 | never more reads than the clock allows, and none exactly when the wait is not positive or the clock has run out |
| Receiving.Frames | smoke_tests/rest_api_smoke_test.py:91 | one match result per queued message (with FramesAt: the i-th is the i-th message matched against the pattern) |
| Receiving.FramesAt | smoke_tests/rest_api_smoke_test.py:91 | the frame for each queued message is that message decoded by the pattern |
| Receiving.FramesDrop | smoke_tests/rest_api_smoke_test.py:89-91 | decoding the messages left after some reads gives the frames left after those reads |
| Receiving.Scan | smoke_tests/rest_api_smoke_test.py:87-101 | the `recv` loop over decoded messages: reads at most the budget and at most the queued frames; none on a closed connection; data returned has no space |
| Receiving.Receive | smoke_tests/rest_api_smoke_test.py:80-101 | `recv` on the queued messages: the same bounds as Scan |
| Receiving.ReadsPastMeans | smoke_tests/rest_api_smoke_test.py:93-96 | a pass reads past exactly a control frame other than the wanted one, read from an open connection |
| Receiving.ScanContinues | smoke_tests/rest_api_smoke_test.py:95-96 | after a control frame, the receive goes on as a receive with one read less on the frames after it |
| Receiving.ScanStops | smoke_tests/rest_api_smoke_test.py:89-98 | when the first read does not continue the loop, it alone decides the receive |
| Receiving.ScanAdvance | smoke_tests/rest_api_smoke_test.py:87-96 | the loop invariant survives a read past a control frame |
| Receiving.SkipPrefix | smoke_tests/rest_api_smoke_test.py:93-96 | any run of control frames other than the wanted type is read past, one read each, with no other effect |
| Receiving.ReturnsFirstMatch | smoke_tests/rest_api_smoke_test.py:93-94 | after control frames only, the first frame of the wanted type is returned with spaces removed |
| Receiving.AbortsOnUnsupported | smoke_tests/rest_api_smoke_test.py:97-98 | a frame whose code is neither wanted nor control fails at once, and no frame after it is read |
| Receiving.AbortsOnMalformed | smoke_tests/rest_api_smoke_test.py:91 | a message that is no frame fails at once |
| Receiving.TimesOut | smoke_tests/rest_api_smoke_test.py:87-101 | when the budget runs out on control frames, the result is the timeout error after exactly budget reads |
| Receiving.ReadPastSkipped | smoke_tests/rest_api_smoke_test.py:93-96 | conversely, every frame read before the last one was a control frame other than the wanted type |
| Receiving.SuccessExplained | smoke_tests/rest_api_smoke_test.py:93-94 | a success is the space-free data of the last frame read, and that frame has the wanted type |
| Receiving.UnsupportedExplained | smoke_tests/rest_api_smoke_test.py:97-98 | an unsupported-code failure names the last frame's code, which is neither wanted nor control |
| Receiving.TimeoutExplained | smoke_tests/rest_api_smoke_test.py:87-101 | a timeout used the whole budget and its last read was a control frame |
| Receiving.TimeoutReadsOnlyControl | smoke_tests/rest_api_smoke_test.py:87-101 | a timeout read exactly the budget, all of it control frames |
| Http.UrlEncode | smoke_tests/rest_api_smoke_test.py:153-154 | empty data encodes to empty text; non-empty data to text containing `=` |
| Http.Given | smoke_tests/rest_api_smoke_test.py:156 | an optional jar or header map counts as given exactly when it is present and non-empty, as `cookies or self.cookies` and `headers or self.BASE_HEADER` treat it |
| Http.CheckRequestResult | smoke_tests/rest_api_smoke_test.py:128-140 | passes exactly when the status is among the expected ones, else reports the request and the status |
| Agent.ConfigurationUrl | smoke_tests/rest_api_smoke_test.py:50 | the negotiation address is `http://`, the server, then `/socket.io/1` |
| Agent.NegotiationQuery | smoke_tests/rest_api_smoke_test.py:70 | the negotiation query encodes as `t=` followed by the time stamp |
| Agent.EndpointUrl | smoke_tests/rest_api_smoke_test.py:72 | the websocket address is `ws://`, the server, `/socket.io/1/websocket/` and the session id, in that order and nothing else |
| Agent.NegotiationId | smoke_tests/rest_api_smoke_test.py:71 | the reply text before its first colon, or all of it when there is none |
| Agent.NegotiationIdExample | smoke_tests/rest_api_smoke_test.py:71 | the reply `7F3x9:60:60:` gives the id `7F3x9` |
| Agent.HandshakeVerdict | smoke_tests/rest_api_smoke_test.py:69-73 | passes exactly when the negotiation reply has status 200 and a receive for a connect frame succeeds; otherwise it carries that step's error |
| Agent.HandshakeNeedsConnectFrame | smoke_tests/rest_api_smoke_test.py:73 | a passing handshake saw, within the deadline, a connect frame preceded only by disconnect and heartbeat frames |
| Agent.HandshakeAcceptsConnectFrame | smoke_tests/rest_api_smoke_test.py:73 | conversely, such frames make the handshake pass once negotiation succeeded |
| Agent.LoginForm | smoke_tests/rest_api_smoke_test.py:199 | four fields with distinct names, carrying the user name, password, extension (the station) and connection type |
| Agent.LoginReplyCheck | smoke_tests/rest_api_smoke_test.py:200-204 | passes exactly when the status is 200, the body is a JSON object, firstName is John, lastName is Doe and loginDate parses |
| Agent.LoginVerdict | smoke_tests/rest_api_smoke_test.py:199-209 | login passes exactly when the response passes, the jar holds `userId` and `sessionToken`, and the handshake passes |
| Agent.LoginScenario | smoke_tests/rest_api_smoke_test.py:199-209 | John/Doe with a parsable date and both cookies logs in; the same response with firstName Bob fails its name check |
| Agent.AckVerdict | smoke_tests/rest_api_smoke_test.py:234-236 | passes exactly when the payload lower-cased equals the lower-cased `agent:status:updated` template; the sent status code plays no part |
| Agent.SetCommand | smoke_tests/rest_api_smoke_test.py:232 | the command starts with the `agent:status:set` head and the agent id, ends with the closing brackets, and holds a newline exactly when an argument does |
| Agent.SetStateMessage | smoke_tests/rest_api_smoke_test.py:232 | the frame is `5:::` followed by the command |
| Agent.UpdatedTemplate | smoke_tests/rest_api_smoke_test.py:235 | the template starts with the `agent:status:updated` head and the agent id, ends with the `ready-call` status code, and holds a space exactly when the agent id or status does |
| Agent.SetStateFrameDecodes | smoke_tests/rest_api_smoke_test.py:232 | the frame setState writes decodes as an event with empty id and endpoint whose data is the whole command |
| Agent.SpacesNeverAcknowledged | smoke_tests/rest_api_smoke_test.py:234-236 | when the agent id or the status holds a space, no space-free payload is ever accepted |
| Agent.EchoedCodeRejected | smoke_tests/rest_api_smoke_test.py:235 | an acknowledgement echoing the sent code `break` instead of `ready-call` is rejected |
| Agent.LogoutVerdict | smoke_tests/rest_api_smoke_test.py:218-222 | passes exactly when there is a channel, the status is 200 or 204 and the body is empty; with no channel the error is NoChannel |
| Clients.Connection.constructor | smoke_tests/rest_api_smoke_test.py:72 | a new websocket at the given address: queued frames as given, nothing sent, open |
| Clients.Connection.Send | smoke_tests/rest_api_smoke_test.py:78 | appends the frame to the sent log when open, and fails when closed |
| Clients.Connection.Recv | smoke_tests/rest_api_smoke_test.py:89 | takes the first queued frame; fails with nothing taken when closed or empty |
| Clients.Connection.Close | smoke_tests/rest_api_smoke_test.py:222 | the connection is closed afterwards |
| Clients.SocketIOClient.Connect | smoke_tests/rest_api_smoke_test.py:61-74 | sends the negotiation GET with the agent's jar; succeeds exactly when HandshakeVerdict passes; then the new websocket is at EndpointUrl of the negotiated id and holds the frames after the connect frame |
| Clients.SocketIOClient.Send | smoke_tests/rest_api_smoke_test.py:76-78 | writes the frame on the websocket |
| Clients.SocketIOClient.ReadFrame | smoke_tests/rest_api_smoke_test.py:89-98 | one pass of the loop body: continues exactly when it reads past a control frame other than the wanted one (ReadsPast), otherwise returns what a one-read Scan of the queued frames returns; takes off what it read |
| Clients.SocketIOClient.Recv | smoke_tests/rest_api_smoke_test.py:80-101 | the loop returns what Receive returns and leaves exactly the frames Receive did not read |
| Clients.RestAgent.constructor | smoke_tests/rest_api_smoke_test.py:116-125 | base URL `http://` plus the server; no jar, no user id, no channel |
| Clients.RestAgent.Post | smoke_tests/rest_api_smoke_test.py:142-167 | sends the old jar; the jar and headers become the response's even when the status check then fails; passes exactly when the status is expected |
| Clients.RestAgent.Get | smoke_tests/rest_api_smoke_test.py:169-190 | changes nothing; the URL is `url` or base plus `url`, with `/?` and the query only when there is a query; sends the given jar when non-empty, else the agent's; passes exactly on 200 |
| Clients.RestAgent.Login | smoke_tests/rest_api_smoke_test.py:193-209 | the outcome is LoginVerdict; the jar is the login response's; user_id is set once the response checks pass and the `userId` cookie is present; the channel is set only on success, and then its websocket holds exactly the frames after the connect frame |
| Clients.RestAgent.SetState | smoke_tests/rest_api_smoke_test.py:225-236 | with a user id and an open channel it writes SetStateMessage and judges the next event by AckVerdict; otherwise it fails with the missing attribute and touches no connection, or with ConnectionClosed and nothing changed when the channel was already closed; the closed flag never changes |
| Clients.RestAgent.Logout | smoke_tests/rest_api_smoke_test.py:212-222 | the outcome is LogoutVerdict, and the websocket is closed on every path where there is one |

## Left out

- Logging: `setupLog` and every `_logger` call write files and read the clock. They decide nothing.
- The script entry point: `main`, the option parsing, `print` and the exit codes. This includes the order of steps in `main`. When `login` or `setState` fails there, `logout` is not called and the channel stays open.
- Network calls are not made. Each HTTP response is a caller-supplied `Response`. Each websocket is a `Connection` whose incoming frames are given up front.
- Receiving.Scan: a read from an empty or closed websocket is modelled as the `ConnectionClosed` error. In the source that read blocks with no timeout or raises. Wall-clock overrun of a blocking read cannot be expressed.
- Clients.SocketIOClient.Recv: the clock is the caller-supplied count `ticks` of loop-guard checks that find the deadline not yet passed. `time.time()` itself is not modelled.
- Clients.SocketIOClient.Connect: the cache-busting timestamp is a caller-supplied string `stamp`. Building it from the float clock is not modelled.
- Http.UrlEncode: it does not percent-escape reserved characters. The order of a Python dict is taken to be the order of the pairs given.
- Agent.LoginReplyCheck: whether `strptime` accepts the login date is a caller-supplied predicate `dateParses`. Its format rules (it also accepts one-digit month, day and hour fields) are not modelled.
- Agent.LoginReplyCheck: `.json()` is the record's `json` field, a map of string fields. JSON that is not an object is given as `json == None` and fails with `NotJson`, as a body that is not JSON does; the source raises TypeError at line 201 for it instead. Field values that are not strings cannot be given.
- Wire.Lower: it lower-cases ASCII letters only. Python's Unicode case mapping of non-ASCII characters is not modelled.
- Checks.Error: `UnexpectedStatus` carries the request and the status instead of the formatted message. `UnsupportedCode` keeps only the code of "Code %s is not supported", and `ReceiveTimeout` drops the wait of "No message in timeout %s sec.".
- The unused `SEND_PATTERN` and `AGENT_STATES` are not modelled.
