/** The pure decisions of `SocketIOClient` and `RestAgent`
    (smoke_tests/rest_api_smoke_test.py): the URLs and the negotiation id of the
    handshake, the verdicts of login, set-state and logout, and the frames and
    payloads that set-state writes and expects. The classes in module Clients make
    these decisions against their state. */
module Agent {
  import opened Checks
  import opened Wire
  import opened Http
  import opened Receiving

  /** The default `wait_timeout` of `recv`, used by the handshake and by `setState`. */
  const DefaultWait: int := 5

  // ---------------------------------------------------------------- handshake

  /** `SOCKET_IO_CONFIGURATION % server`: where the negotiation request goes. */
  function ConfigurationUrl(server: string): (url: string)
    ensures |url| == |server| + 19
    ensures "http://" <= url && url[7..|url| - 12] == server
    ensures url[|url| - 12..] == "/socket.io/1"
  {
    var url := "http://" + server + "/socket.io/1";
    assert url[7..|url| - 12] == server;
    url
  }

  /** `SOCKET_IO_END_POINT_URL_MASK % (server, session_id)`: the websocket address. */
  function EndpointUrl(server: string, sessionId: string): (url: string)
    ensures "ws://" <= url
    ensures |url| == |server| + |sessionId| + 28
    ensures url[5..5 + |server|] == server
    ensures url[5 + |server|..|url| - |sessionId|] == "/socket.io/1/websocket/"
    ensures url[|url| - |sessionId|..] == sessionId
  {
    var prefix := "ws://" + server + "/socket.io/1/websocket/";
    assert (prefix + sessionId)[|prefix|..] == sessionId;
    assert (prefix + sessionId)[5..5 + |server|] == server;
    assert (prefix + sessionId)[5 + |server|..|prefix|] == "/socket.io/1/websocket/";
    prefix + sessionId
  }

  /** The query of the negotiation request: one field `t`, the cache-busting stamp. */
  function NegotiationQuery(stamp: string): (query: Form)
    ensures UrlEncode(query) == "t=" + stamp
  {
    [("t", stamp)]
  }

  /** `text.split(':')[0]`: the negotiation reply up to its first colon, or all of it. */
  function NegotiationId(text: string): (id: string)
    ensures ':' !in id && id <= text
    ensures id == text || text[|id|] == ':'
  {
    UpTo(text, ':')
  }

  /** The id in a typical negotiation reply (session id, heartbeat and close timeouts). */
  lemma NegotiationIdExample()
    ensures NegotiationId("7F3x9:60:60:") == "7F3x9"
  {
    UpToStops("7F3x9", ":60:60:", ':');
    assert "7F3x9:60:60:" == "7F3x9" + ":60:60:";
  }

  /** What `SocketIOClient.__init__` concludes once the negotiation reply and the
      connection's first frames are known: the reply must have status 200, then a
      receive for a connect frame must succeed within the default wait. */
  function HandshakeVerdict(server: string, negotiation: Response, frames: seq<string>, ticks: nat): (r: Outcome)
    ensures r.Pass? <==> negotiation.status == 200
                         && Receive(frames, false, Connected, Budget(DefaultWait, ticks)).result.Success?
    ensures negotiation.status != 200 ==> r == Fail(UnexpectedStatus(ConfigurationUrl(server), negotiation.status))
    ensures negotiation.status == 200 && r.Fail? ==>
              Receive(frames, false, Connected, Budget(DefaultWait, ticks)).result == Failure(r.error)
  {
    if negotiation.status != 200 then Fail(UnexpectedStatus(ConfigurationUrl(server), negotiation.status))
    else
      match Receive(frames, false, Connected, Budget(DefaultWait, ticks)).result
      case Success(_) => Pass
      case Failure(e) => Fail(e)
  }

  /** Control frames other than connect: disconnect or heartbeat. */
  predicate IsIdle(msg: string)
  {
    Decode(msg).Some? && Decode(msg).value.code in {Disconnected, Heartbeat}
  }

  /** The handshake passes only when some frame is a connect frame and every frame before it
      is a disconnect or heartbeat frame, all within the reads the deadline allows. */
  lemma HandshakeNeedsConnectFrame(server: string, negotiation: Response, frames: seq<string>, ticks: nat)
    requires HandshakeVerdict(server, negotiation, frames, ticks).Pass?
    ensures exists k :: 0 <= k < |frames| && k < ticks
                        && Decode(frames[k]).Some? && Decode(frames[k]).value.code == Connected
                        && forall i :: 0 <= i < k ==> IsIdle(frames[i])
  {
    var fs := Frames(frames);
    var r := Scan(fs, false, Connected, Budget(DefaultWait, ticks));
    ReadPastSkipped(fs, false, Connected, Budget(DefaultWait, ticks));
    SuccessExplained(fs, false, Connected, Budget(DefaultWait, ticks));
    var k := r.consumed - 1;
    FramesAt(frames, k);
    forall i | 0 <= i < k ensures IsIdle(frames[i]) {
      FramesAt(frames, i);
      assert fs[..k][i] == fs[i];
    }
  }

  /** Conversely, a connect frame after disconnect and heartbeat frames only, within the
      deadline, completes the handshake once negotiation has succeeded. */
  lemma HandshakeAcceptsConnectFrame(server: string, negotiation: Response, pre: seq<string>, msg: string,
                                     rest: seq<string>, ticks: nat)
    requires negotiation.status == 200
    requires forall i :: 0 <= i < |pre| ==> IsIdle(pre[i])
    requires Decode(msg).Some? && Decode(msg).value.code == Connected
    requires |pre| < ticks
    ensures HandshakeVerdict(server, negotiation, pre + [msg] + rest, ticks).Pass?
  {
    var idle := Frames(pre);
    assert AllSkipped(idle, Connected) by {
      forall i | 0 <= i < |idle| ensures Skipped(idle[i], Connected) {
        FramesAt(pre, i);
        assert IsIdle(pre[i]);
      }
    }
    FramesAppend(pre + [msg], rest);
    FramesAppend(pre, [msg]);
    FramesAt([msg], 0);
    assert Frames(pre + [msg] + rest) == idle + [Decode(msg)] + Frames(rest);
    ReturnsFirstMatch(idle, Decode(msg).value, Frames(rest), Connected, Budget(DefaultWait, ticks));
  }

  // -------------------------------------------------------------------- login

  const Firstname: string := "John"
  const Lastname: string := "Doe"

  /** The form `login` posts. */
  function LoginForm(userName: string, password: string, station: string, stationType: string): (form: Form)
    ensures |form| == 4
    ensures forall i, j :: 0 <= i < j < |form| ==> form[i].0 != form[j].0
    ensures ("username", userName) in form && ("password", password) in form
    ensures ("extension", station) in form && ("connectionType", stationType) in form
  {
    [("username", userName), ("password", password), ("extension", station), ("connectionType", stationType)]
  }

  /** What `login` demands of the login response before it looks at cookies: status 200, a
      JSON object whose `firstName` is John and `lastName` is Doe, and a `loginDate` that
      `strptime` accepts with `%Y-%m-%dT%H:%M:%SZ` (`dateParses`). */
  predicate LoginReplyAccepted(reply: Response, dateParses: string -> bool)
  {
    && reply.status == 200
    && reply.json.Some?
    && "firstName" in reply.json.value && reply.json.value["firstName"] == Firstname
    && "lastName" in reply.json.value && reply.json.value["lastName"] == Lastname
    && "loginDate" in reply.json.value && dateParses(reply.json.value["loginDate"])
  }

  /** The checks of the login response, in the order `login` makes them; the first one
      that fails gives the error. */
  function LoginReplyCheck(reply: Response, dateParses: string -> bool): (r: Outcome)
    ensures r.Pass? <==> LoginReplyAccepted(reply, dateParses)
  {
    if reply.status != 200 then Fail(UnexpectedStatus("/login", reply.status))
    else if reply.json.None? then Fail(NotJson)
    else
      var fields := reply.json.value;
      if "firstName" !in fields then Fail(MissingKey("firstName"))
      else if fields["firstName"] != Firstname then
        Verify2(fields["firstName"], Firstname, "Error on checking 'firstName' in Login response.")
      else if "lastName" !in fields then Fail(MissingKey("lastName"))
      else if fields["lastName"] != Lastname then
        Verify2(fields["lastName"], Lastname, "Error on checking 'lastName' in Login response.")
      else if "loginDate" !in fields then Fail(MissingKey("loginDate"))
      else if !dateParses(fields["loginDate"]) then Fail(BadDate(fields["loginDate"]))
      else Pass
  }

  /** The verdict of `login`: the response checks, then the `userId` and `sessionToken`
      cookies, then the handshake. */
  function LoginVerdict(reply: Response, dateParses: string -> bool, server: string,
                        negotiation: Response, frames: seq<string>, ticks: nat): (r: Outcome)
    ensures r.Pass? <==>
              && LoginReplyAccepted(reply, dateParses)
              && "userId" in reply.cookies && "sessionToken" in reply.cookies
              && HandshakeVerdict(server, negotiation, frames, ticks).Pass?
  {
    var check := LoginReplyCheck(reply, dateParses);
    if check.Fail? then check
    else if "userId" !in reply.cookies then Fail(MissingKey("userId"))
    else if "sessionToken" !in reply.cookies then Fail(MissingKey("sessionToken"))
    else HandshakeVerdict(server, negotiation, frames, ticks)
  }

  /** A login response with the expected names, an accepted date and both cookies logs
      in once the handshake passes; the same response naming Bob fails its name check. */
  lemma LoginScenario(dateParses: string -> bool, server: string, negotiation: Response,
                      frames: seq<string>, ticks: nat)
    requires dateParses("2024-01-01T00:00:00Z")
    requires HandshakeVerdict(server, negotiation, frames, ticks).Pass?
    ensures var fields := map["firstName" := "John", "lastName" := "Doe", "loginDate" := "2024-01-01T00:00:00Z"];
            var jar := map["userId" := "42", "sessionToken" := "s3cr3t"];
            && LoginVerdict(Response(200, "", jar, map[], Some(fields)), dateParses, server, negotiation, frames, ticks).Pass?
            && LoginVerdict(Response(200, "", jar, map[], Some(fields["firstName" := "Bob"])), dateParses, server,
                            negotiation, frames, ticks).error.VerificationFailed?
  {
  }

  // ---------------------------------------------------------------- set state

  // Pieces of the JSON text around the arguments `setState` formats in.
  const SetHead: string := "{\"name\":\"agent:status:set\"," + "\"args\":[{\"agentId\":\""
  const UpdatedHead: string := "{\"name\":\"agent:status:updated\"," + "\"args\":{\"agentId\":\""
  const StatusField: string := "\",\"status\":\""
  const CodeField: string := "\",\"statusCode\":\""
  const SetTail: string := "\"}]}"
  const ReadyCallTail: string := "\",\"statusCode\":" + "\"ready-call\"}}"

  /** The fixed pieces of the set-state command hold no newline. */
  lemma SetPiecesOneLine()
    ensures '\n' !in SetHead && '\n' !in StatusField && '\n' !in CodeField && '\n' !in SetTail
  {
  }

  /** The fixed pieces of the acknowledgement hold no space. */
  lemma UpdatedPiecesSpaceFree()
    ensures ' ' !in UpdatedHead && ' ' !in StatusField && ' ' !in ReadyCallTail
  {
  }

  /** The event `setState` sends: JSON naming the agent, the status and the status code. */
  function SetCommand(userId: string, status: string, statusCode: string): (command: string)
    ensures SetHead + userId <= command
    ensures |command| >= |SetTail| && command[|command| - |SetTail|..] == SetTail
    ensures '\n' in command <==> '\n' in userId || '\n' in status || '\n' in statusCode
  {
    SetPiecesOneLine();
    var fields := StatusField + status + CodeField + statusCode;
    var command := SetHead + userId + (fields + SetTail);
    assert command[|command| - |SetTail|..] == SetTail;
    command
  }

  /** The frame `setState` writes: an event with no id and no endpoint. */
  function SetStateMessage(userId: string, status: string, statusCode: string): (msg: string)
    ensures |msg| > 4 && msg[0] == Event && msg[1..4] == ":::"
    ensures msg[4..] == SetCommand(userId, status, statusCode)
  {
    var msg := "5:::" + SetCommand(userId, status, statusCode);
    assert msg[4..] == SetCommand(userId, status, statusCode);
    msg
  }

  /** The acknowledgement `setState` expects; its status code is always `ready-call`. */
  function UpdatedTemplate(userId: string, status: string): (template: string)
    ensures UpdatedHead + userId <= template
    ensures template[|template| - |ReadyCallTail|..] == ReadyCallTail
    ensures ' ' in template <==> ' ' in userId || ' ' in status
  {
    UpdatedPiecesSpaceFree();
    var fields := StatusField + status + ReadyCallTail;
    var template := UpdatedHead + userId + fields;
    assert template[|template| - |ReadyCallTail|..] == ReadyCallTail;
    template
  }

  /** The verdict of `setState` on the received payload: both sides lower-cased and
      compared. The status code that was sent plays no part in it. */
  function AckVerdict(payload: string, userId: string, status: string, statusCode: string): (r: Outcome)
    ensures r.Pass? <==> Lower(payload) == Lower(UpdatedTemplate(userId, status))
    ensures r.Fail? ==> r.error.VerificationFailed?
  {
    Verify2(Lower(payload), Lower(UpdatedTemplate(userId, status)),
            "Error on setting state to '" + status + ":" + statusCode + "'.")
  }

  /** The frame `setState` writes decodes as an event with empty id and endpoint whose
      data is the whole command, as long as no argument holds a newline. */
  lemma SetStateFrameDecodes(userId: string, status: string, statusCode: string)
    requires '\n' !in userId && '\n' !in status && '\n' !in statusCode
    ensures Decode(SetStateMessage(userId, status, statusCode))
         == Some(Frame(Event, "", "", SetCommand(userId, status, statusCode)))
  {
    var command := SetCommand(userId, status, statusCode);
    EventFrameDecodes(command);
    UpToStops(command, [], '\n');
    assert command + [] == command;
  }

  /** Received payloads have no spaces, so an agent id or status holding a space can never
      be acknowledged, whatever the server answers. */
  lemma SpacesNeverAcknowledged(payload: string, userId: string, status: string, statusCode: string)
    requires ' ' !in payload
    requires ' ' in userId || ' ' in status
    ensures AckVerdict(payload, userId, status, statusCode).Fail?
  {
    var t := UpdatedTemplate(userId, status);
    LowerKeepsSpaces(t);
    LowerKeepsSpaces(payload);
  }

  /** The acknowledgement must name `ready-call` whatever code was sent: a server that
      echoes the `break` code `main` sends for the not-ready state is rejected. */
  lemma EchoedCodeRejected(userId: string, status: string)
    ensures AckVerdict(UpdatedHead + userId + StatusField + status + CodeField + "break" + "\"}}",
                       userId, status, "break").Fail?
  {
    var echo := UpdatedHead + userId + StatusField + status + CodeField + "break" + "\"}}";
    var template := UpdatedTemplate(userId, status);
    assert |CodeField + "break" + "\"}}"| != |ReadyCallTail|;
    assert |Lower(echo)| != |Lower(template)|;
  }

  // ------------------------------------------------------------------- logout

  /** The verdict of `logout`: status 200 or 204 and an empty body; when there is no
      channel to close, the `finally` clause raises and that error is what surfaces. */
  function LogoutVerdict(reply: Response, hasChannel: bool): (r: Outcome)
    ensures r.Pass? <==> hasChannel && reply.status in {200, 204} && reply.text == ""
    ensures !hasChannel ==> r == Fail(NoChannel)
  {
    if !hasChannel then Fail(NoChannel)
    else
      var check := CheckRequestResult("/logout", reply, [200, 204]);
      if check.Fail? then check
      else Verify(reply.text == "", "Logout Response should not have Content, but actually: " + reply.text)
  }
}
