/** The two stateful classes of smoke_tests/rest_api_smoke_test.py, `SocketIOClient`
    and `RestAgent`, over a websocket modelled as a queue. The network is replaced by
    what the caller supplies: the HTTP response each call receives, and the frames
    the server will send on a new websocket. Each method's contract ties its result
    and the new state to the functions of modules Receiving and Agent. */
module Clients {
  import opened Checks
  import opened Wire
  import opened Http
  import opened Receiving
  import opened Agent

  /** A websocket connection: the frames the server has yet to deliver, the frames
      written so far, and whether it has been closed. */
  class Connection {
    const url: string
    var incoming: seq<string>
    var sent: seq<string>
    var closed: bool

    /** `websocket.create_connection(url)`, with the frames the server will send. */
    constructor (url: string, incoming: seq<string>)
      ensures this.url == url && this.incoming == incoming && sent == [] && !closed
    {
      this.url := url;
      this.incoming := incoming;
      sent := [];
      closed := false;
    }

    /** Writes one frame; a closed connection refuses. */
    method Send(data: string) returns (r: Outcome)
      modifies this`sent
      ensures r.Pass? <==> !closed
      ensures r.Fail? ==> r.error == ConnectionClosed
      ensures sent == if closed then old(sent) else old(sent) + [data]
    {
      if closed {
        r := Fail(ConnectionClosed);
      } else {
        sent := sent + [data];
        r := Pass;
      }
    }

    /** Reads the next frame; a closed or exhausted connection fails. */
    method Recv() returns (r: Result<string>)
      modifies this`incoming
      ensures r.Success? <==> !closed && old(incoming) != []
      ensures r.Success? ==> r.value == old(incoming)[0] && incoming == old(incoming)[1..]
      ensures r.Failure? ==> r.error == ConnectionClosed && incoming == old(incoming)
    {
      if closed || incoming == [] {
        r := Failure(ConnectionClosed);
      } else {
        r := Success(incoming[0]);
        incoming := incoming[1..];
      }
    }

    method Close()
      modifies this`closed
      ensures closed
    {
      closed := true;
    }
  }

  class SocketIOClient {
    const connection: Connection

    constructor (connection: Connection)
      ensures this.connection == connection
    {
      this.connection := connection;
    }

    /** `SocketIOClient.__init__`: negotiates a session id over HTTP through the agent,
        opens the websocket named by it and waits for the connect frame. Fails with the
        first error; the websocket opened for a failed wait is left open, as in the source. */
    static method Connect(server: string, agent: RestAgent, stamp: string, negotiation: Response,
                          frames: seq<string>, ticks: nat)
      returns (sent: Request, r: Result<SocketIOClient>)
      ensures sent.verb == Verb.Get && sent.cookies == agent.cookies
      ensures sent.url == ConfigurationUrl(server) + "/?" + UrlEncode(NegotiationQuery(stamp))
      ensures r.Success? <==> HandshakeVerdict(server, negotiation, frames, ticks).Pass?
      ensures r.Failure? ==> HandshakeVerdict(server, negotiation, frames, ticks) == Fail(r.error)
      ensures r.Success? ==>
                var c := r.value.connection;
                && fresh(r.value) && fresh(c)
                && c.url == EndpointUrl(server, NegotiationId(negotiation.text))
                && c.incoming == frames[Receive(frames, false, Connected, Budget(DefaultWait, ticks)).consumed..]
                && c.sent == [] && !c.closed
    {
      var reply;
      sent, reply := agent.Get(ConfigurationUrl(server), NegotiationQuery(stamp), None, None, true, negotiation);
      if reply.Failure? {
        r := Failure(reply.error);
        return;
      }
      var sessionId := NegotiationId(reply.value.text);
      var connection := new Connection(EndpointUrl(server, sessionId), frames);
      var client := new SocketIOClient(connection);
      var ack := client.Recv(Connected, DefaultWait, ticks);
      if ack.Failure? {
        r := Failure(ack.error);
      } else {
        r := Success(client);
      }
    }

    /** `send`: writes one frame on the websocket. */
    method Send(data: string) returns (r: Outcome)
      modifies connection`sent
      ensures r.Pass? <==> !connection.closed
      ensures r.Fail? ==> r.error == ConnectionClosed
      ensures connection.sent == if connection.closed then old(connection.sent) else old(connection.sent) + [data]
    {
      r := connection.Send(data);
    }

    /** One pass of the `recv` loop body: one read, then the verdict on it; `None` when
        the frame read is a control frame that the loop reads past. */
    method ReadFrame(msgType: char) returns (r: Option<Result<string>>)
      modifies connection`incoming
      ensures var step := Scan(Frames(old(connection.incoming)), connection.closed, msgType, 1);
              && (r.None? <==> ReadsPast(Frames(old(connection.incoming)), connection.closed, msgType))
              && (r.Some? ==> r.value == step.result)
              && connection.incoming == old(connection.incoming)[step.consumed..]
    {
      ghost var queued := connection.incoming;
      var msg := connection.Recv();
      if msg.Failure? {
        return Some(Failure(msg.error));
      }
      var frame := Decode(msg.value);
      assert Frames(queued)[0] == frame && Frames(queued)[1..] == Frames(queued[1..]);
      if frame.None? {
        return Some(Failure(MalformedFrame));
      }
      var code := frame.value.code;
      if code == msgType {
        return Some(Success(StripSpaces(frame.value.data)));
      } else if !IsControl(code) {
        return Some(Failure(UnsupportedCode(code)));
      }
      return None;
    }

    /** `recv`: reads frames while the deadline allows, as `Receive` describes; the frames
        it reads are gone from the connection. */
    method Recv(msgType: char, waitTimeout: int, ticks: nat) returns (r: Result<string>)
      modifies connection`incoming
      ensures var out := Receive(old(connection.incoming), connection.closed, msgType, Budget(waitTimeout, ticks));
              r == out.result && connection.incoming == old(connection.incoming)[out.consumed..]
    {
      ghost var queued := connection.incoming;
      ghost var closed := connection.closed;
      ghost var frames := Frames(queued);
      ghost var total := Scan(frames, closed, msgType, Budget(waitTimeout, ticks));
      var left: nat := Budget(waitTimeout, ticks);
      ghost var done: nat := 0;
      while left > 0
        invariant done + left == Budget(waitTimeout, ticks) && done <= |queued|
        invariant connection.incoming == queued[done..] && connection.closed == closed
        invariant total == Received(Scan(frames[done..], closed, msgType, left).result,
                                    Scan(frames[done..], closed, msgType, left).consumed + done)
      {
        FramesDrop(queued, done);
        var step := ReadFrame(msgType);
        if step.Some? {
          ScanStops(frames[done..], closed, msgType, left);
          return step.value;
        }
        left := left - 1;
        done := done + 1;
        ScanAdvance(frames, done, closed, msgType, left, total);
      }
      r := Failure(ReceiveTimeout);
    }
  }

  class RestAgent {
    const userName: string
    const password: string
    const station: string
    const stationType: string
    const webuiServer: string
    const baseUrl: string
    /** The jar of the last response to a `post` (`None` before the first one). */
    var cookies: Option<Jar>
    /** The headers of the last response to a `post` (unset before the first one). */
    var headers: Option<Jar>
    /** Unset until `login` has found the `userId` cookie. */
    var userId: Option<string>
    var socketIo: SocketIOClient?

    constructor (userName: string, password: string, station: string, stationType: string, webuiServer: string)
      ensures this.userName == userName && this.password == password
      ensures this.station == station && this.stationType == stationType
      ensures this.webuiServer == webuiServer && baseUrl == "http://" + webuiServer
      ensures cookies == None && headers == None && userId == None && socketIo == null
    {
      this.userName := userName;
      this.password := password;
      this.station := station;
      this.stationType := stationType;
      this.webuiServer := webuiServer;
      baseUrl := "http://" + webuiServer;
      cookies := None;
      headers := None;
      userId := None;
      socketIo := null;
    }

    /** `post`: sends the current jar, then keeps the response's cookies and headers
        whatever its status, and only then checks the status against `expected`. */
    method Post(url: string, data: Form, headers: Option<Jar>, expected: seq<int>, reply: Response)
      returns (sent: Request, r: Result<Response>)
      modifies this`cookies, this`headers
      ensures sent.verb == Verb.Post && sent.url == baseUrl + url && sent.cookies == old(cookies)
      ensures sent.body == if data != [] then Some(UrlEncode(data)) else None
      ensures sent.headers == if Given(headers) then headers.value else BaseHeader
      ensures cookies == Some(reply.cookies) && this.headers == Some(reply.headers)
      ensures r.Success? <==> reply.status in expected
      ensures r.Success? ==> r.value == reply
      ensures r.Failure? ==> r.error == UnexpectedStatus(url, reply.status)
    {
      var body := if data != [] then Some(UrlEncode(data)) else None;
      var h := if Given(headers) then headers.value else BaseHeader;
      sent := Request(Verb.Post, baseUrl + url, body, h, cookies);
      cookies := Some(reply.cookies);
      this.headers := Some(reply.headers);
      var check := CheckRequestResult(url, reply, expected);
      r := if check.Pass? then Success(reply) else Failure(check.error);
    }

    /** `get`: changes nothing; sends `url` itself when `absolutePath`, else appended to the
        base URL, with `/?` and the encoded query only when there is a query; sends the
        given jar when it is non-empty, else the agent's; ignores `headers`; wants 200. */
    method Get(url: string, data: Form, headers: Option<Jar>, cookies: Option<Jar>, absolutePath: bool,
               reply: Response)
      returns (sent: Request, r: Result<Response>)
      ensures sent.verb == Verb.Get && sent.body == None && sent.headers == map[]
      ensures sent.url == (if absolutePath then url else baseUrl + url)
                          + (if data != [] then "/?" + UrlEncode(data) else "")
      ensures sent.cookies == if Given(cookies) then cookies else this.cookies
      ensures r.Success? <==> reply.status == 200
      ensures r.Success? ==> r.value == reply
      ensures r.Failure? ==> r.error == UnexpectedStatus(url, reply.status)
    {
      var callUrl := if absolutePath then url else baseUrl + url;
      if data != [] {
        callUrl := callUrl + "/?" + UrlEncode(data);
      }
      sent := Request(Verb.Get, callUrl, None, map[], if Given(cookies) then cookies else this.cookies);
      var check := CheckRequestResult(url, reply, [200]);
      r := if check.Pass? then Success(reply) else Failure(check.error);
    }

    /** `login`: posts the credentials, checks the response, records the user id and,
        as its very last step, the channel opened by the handshake. */
    method Login(loginReply: Response, dateParses: string -> bool, stamp: string, negotiation: Response,
                 frames: seq<string>, ticks: nat)
      returns (sent: seq<Request>, r: Outcome)
      modifies this`cookies, this`headers, this`userId, this`socketIo
      ensures cookies == Some(loginReply.cookies) && headers == Some(loginReply.headers)
      ensures r == LoginVerdict(loginReply, dateParses, webuiServer, negotiation, frames, ticks)
      ensures |sent| >= 1 && sent[0].url == baseUrl + "/login" && sent[0].cookies == old(cookies)
      ensures sent[0].body == Some(UrlEncode(LoginForm(userName, password, station, stationType)))
      ensures userId == if LoginReplyAccepted(loginReply, dateParses) && "userId" in loginReply.cookies
                        then Some(loginReply.cookies["userId"]) else old(userId)
      ensures r.Fail? ==> socketIo == old(socketIo)
      ensures r.Pass? ==>
                && |sent| == 2 && sent[1].cookies == Some(loginReply.cookies)
                && socketIo != null && fresh(socketIo) && fresh(socketIo.connection)
                && socketIo.connection.url == EndpointUrl(webuiServer, NegotiationId(negotiation.text))
                && socketIo.connection.sent == [] && !socketIo.connection.closed
                && socketIo.connection.incoming
                   == frames[Receive(frames, false, Connected, Budget(DefaultWait, ticks)).consumed..]
    {
      var post, reply := Post("/login", LoginForm(userName, password, station, stationType), None, [200], loginReply);
      sent := [post];
      r := LoginReplyCheck(loginReply, dateParses);
      if r.Fail? {
        return;
      }
      if "userId" !in loginReply.cookies {
        r := Fail(MissingKey("userId"));
        return;
      }
      userId := Some(loginReply.cookies["userId"]);
      if "sessionToken" !in loginReply.cookies {
        r := Fail(MissingKey("sessionToken"));
        return;
      }
      var get, client := SocketIOClient.Connect(webuiServer, this, stamp, negotiation, frames, ticks);
      sent := sent + [get];
      if client.Failure? {
        r := Fail(client.error);
        return;
      }
      socketIo := client.value;
      r := Pass;
    }

    /** `setState`: writes the set-status event and checks the next event frame against
        the expected acknowledgement, lower-cased on both sides. */
    method SetState(status: string, statusCode: string, ticks: nat) returns (r: Outcome)
      modifies if userId.Some? && socketIo != null then {socketIo.connection} else {}
      ensures userId.None? ==> r == Fail(Unset("user_id"))
      ensures userId.Some? && socketIo == null ==> r == Fail(NoChannel)
      ensures socketIo != null ==> socketIo.connection.closed == old(socketIo.connection.closed)
      ensures userId.Some? && socketIo != null && old(socketIo.connection.closed) ==>
                r == Fail(ConnectionClosed) && unchanged(socketIo.connection)
      ensures userId.Some? && socketIo != null && !old(socketIo.connection.closed) ==>
                var c := socketIo.connection;
                var ack := Receive(old(c.incoming), false, Event, Budget(DefaultWait, ticks));
                && c.sent == old(c.sent) + [SetStateMessage(userId.value, status, statusCode)]
                && c.incoming == old(c.incoming)[ack.consumed..]
                && r == match ack.result
                        case Failure(e) => Fail(e)
                        case Success(payload) => AckVerdict(payload, userId.value, status, statusCode)
    {
      if userId.None? {
        return Fail(Unset("user_id"));
      }
      var data := SetStateMessage(userId.value, status, statusCode);
      if socketIo == null {
        return Fail(NoChannel);
      }
      r := socketIo.Send(data);
      if r.Fail? {
        return;
      }
      var result := socketIo.Recv(Event, DefaultWait, ticks);
      if result.Failure? {
        return Fail(result.error);
      }
      r := AckVerdict(result.value, userId.value, status, statusCode);
    }

    /** `logout`: posts the logout, wants status 200 or 204 and an empty body, and closes
        the websocket on every path (`try/finally`). */
    method Logout(reply: Response) returns (sent: Request, r: Outcome)
      modifies this`cookies, this`headers, if socketIo != null then {socketIo.connection} else {}
      ensures cookies == Some(reply.cookies) && headers == Some(reply.headers)
      ensures sent.url == baseUrl + "/logout" && sent.cookies == old(cookies) && sent.body == None
      ensures r == LogoutVerdict(reply, socketIo != null)
      ensures socketIo != null ==>
                && socketIo.connection.closed
                && socketIo.connection.incoming == old(socketIo.connection.incoming)
                && socketIo.connection.sent == old(socketIo.connection.sent)
    {
      var reply';
      sent, reply' := Post("/logout", [], None, [200, 204], reply);
      if reply'.Failure? {
        r := Fail(reply'.error);
      } else {
        r := Verify(reply.text == "", "Logout Response should not have Content, but actually: " + reply.text);
      }
      // finally:
      if socketIo == null {
        r := Fail(NoChannel);
      } else {
        socketIo.connection.Close();
      }
    }
  }
}
