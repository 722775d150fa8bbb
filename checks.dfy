/** Outcomes of the smoke test's steps. The Python code signals every failure by
    raising; here each failure is a value of `Error`, and a step returns either a
    `Result` (a value or the error) or an `Outcome` (pass or the error). */
module Checks {

  datatype Option<+T> = None | Some(value: T)

  /** One constructor per way the source can raise. */
  datatype Error =
    | VerificationFailed(description: string)   // AssertionError raised by `verify`
    | UnexpectedStatus(request: string, status: int)  // `_checkRequestResult` rejected the status
    | MalformedFrame                            // `re.match` found no frame; `.groups()` fails
    | UnsupportedCode(code: char)               // "Code %s is not supported"
    | ReceiveTimeout                            // "No message in timeout %s sec."
    | ConnectionClosed                          // the websocket has nothing more to deliver
    | NotJson                                   // the body is not JSON, or JSON that is not an object
    | MissingKey(key: string)                   // KeyError on a response field or cookie
    | BadDate(text: string)                     // `strptime` rejected the login date
    | Unset(attribute: string)                  // AttributeError: attribute never assigned
    | NoChannel                                 // AttributeError: `socket_io` is still None

  datatype Result<+T> = Success(value: T) | Failure(error: Error)

  datatype Outcome = Pass | Fail(error: Error)

  /** `verify`: passes exactly when the condition holds, otherwise fails with the description. */
  function Verify(condition: bool, description: string): (r: Outcome)
    ensures r.Pass? <==> condition
    ensures r.Fail? ==> r.error == VerificationFailed(description)
  {
    if condition then Pass else Fail(VerificationFailed(description))
  }

  /** The text `verify2` reports; the source's format string leaves the last quote unclosed. */
  function MismatchText(description: string, actual: string, expected: string): (text: string)
    ensures description <= text
    ensures |text| > |expected| && text[|text| - |expected|..] == expected
    ensures text[|text| - |expected| - 1] == '"'
  {
    var text := description + " Actual is \"" + actual + "\". Expected is \"" + expected;
    assert text[|text| - |expected|..] == expected;
    text
  }

  /** `verify2` on strings: passes exactly when actual equals expected. */
  function Verify2(actual: string, expected: string, description: string): (r: Outcome)
    ensures r.Pass? <==> actual == expected
    ensures r.Fail? ==> r.error.VerificationFailed? && description <= r.error.description
  {
    Verify(actual == expected, MismatchText(description, actual, expected))
  }
}
