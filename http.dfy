/** The HTTP side of the smoke test as values: responses are records the caller
    supplies in place of the `requests` library, and requests are records of what
    would be sent. Status checking is `RestAgent._checkRequestResult`. */
module Http {
  import opened Checks

  /** A cookie jar or a header set. */
  type Jar = map<string, string>

  /** Form or query data, pairs in the order `urllib.urlencode` visits them. */
  type Form = seq<(string, string)>

  /** A response: status, body text, cookies and headers it carries, and the JSON object
      `.json()` parses from the body (`None` when the body is not a JSON object). */
  datatype Response = Response(status: int, text: string, cookies: Jar, headers: Jar, json: Option<map<string, string>>)

  datatype Verb = Get | Post

  /** What one call hands to the network: the full URL, the encoded body, the headers
      and the cookie jar sent (`None` when the agent has no jar yet). */
  datatype Request = Request(verb: Verb, url: string, body: Option<string>, headers: Jar, cookies: Option<Jar>)

  /** `RestAgent.BASE_HEADER`, sent by `post` when the caller gives no headers. */
  const BaseHeader: Jar := map["Content-Type" := "application/json"]

  /** `urllib.urlencode`: `key=value` pairs joined by `&`. */
  function UrlEncode(data: Form): (r: string)
    ensures data != [] ==> '=' in r
    ensures data == [] ==> r == []
  {
    if data == [] then []
    else
      var pair := data[0].0 + "=" + data[0].1;
      assert '=' in pair by { assert pair[|data[0].0|] == '='; }
      if |data| == 1 then pair else pair + "&" + UrlEncode(data[1..])
  }

  /** `_checkRequestResult`: the call passes exactly when the status is one of the expected ones. */
  function CheckRequestResult(request: string, reply: Response, expected: seq<int>): (r: Outcome)
    ensures r.Pass? <==> reply.status in expected
    ensures r.Fail? ==> r.error == UnexpectedStatus(request, reply.status)
  {
    if reply.status in expected then Pass else Fail(UnexpectedStatus(request, reply.status))
  }

  /** Python truthiness of an optional jar passed as argument: `None` and `{}` are false. */
  predicate Given(jar: Option<Jar>)
    ensures Given(jar) <==> jar.Some? && |jar.value| > 0
  {
    jar.Some? && jar.value != map[]
  }
}
