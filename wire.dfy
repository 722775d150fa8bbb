/** The Socket.IO 0.9 frame `type:id:endpoint:data` as the smoke test's client reads
    it (smoke_tests/rest_api_smoke_test.py, `RECV_PATTERN`), and the two string
    operations applied to received payloads: space removal and lower-casing. */
module Wire {
  import opened Checks

  // Frame type codes the client knows.
  const Disconnected: char := '0'
  const Connected: char := '1'
  const Heartbeat: char := '2'
  const Event: char := '5'

  /** `\d` of a byte-string pattern: an ASCII digit. */
  predicate IsDigit(c: char) { '0' <= c <= '9' }

  predicate AllDigits(s: string) { forall i :: 0 <= i < |s| ==> IsDigit(s[i]) }

  /** Frames that a receive reads past unless it is waiting for exactly that code. */
  predicate IsControl(code: char) { code == Heartbeat || code == Connected || code == Disconnected }

  /** The four groups of `RECV_PATTERN`. */
  datatype Frame = Frame(code: char, packetId: string, endpoint: string, data: string)

  /** A frame the pattern can produce: one digit, two digit strings, and data without a newline. */
  predicate WellFormed(f: Frame)
  {
    IsDigit(f.code) && AllDigits(f.packetId) && AllDigits(f.endpoint) && '\n' !in f.data
  }

  /** Reference layout of a frame on the wire, used to characterise `Decode`. */
  function Layout(f: Frame): string
  {
    [f.code, ':'] + (f.packetId + [':'] + (f.endpoint + [':'] + f.data))
  }

  /** The text before the first `sep`, or all of `s` when `sep` does not occur
      (`s.split(sep)[0]`; with `sep == '\n'` it is what `.*` matches). */
  function UpTo(s: string, sep: char): (r: string)
    ensures sep !in r
    ensures r <= s
    ensures |r| < |s| ==> s[|r|] == sep
  {
    if s == [] || s[0] == sep then [] else [s[0]] + UpTo(s[1..], sep)
  }

  /** One `\d*:` group: the digits at the start of `s` and the text after the colon that
      ends them, or `None` when the digits are not followed by a colon. */
  function Field(s: string): (r: Option<(string, string)>)
    ensures r.Some? ==> |r.value.0| + 1 + |r.value.1| == |s|
  {
    if s == [] then None
    else if s[0] == ':' then Some(([], s[1..]))
    else if IsDigit(s[0]) then
      match Field(s[1..])
      case None => None
      case Some((d, rest)) => Some(([s[0]] + d, rest))
    else None
  }

  /** A group that matched is its digits, the colon, and the rest of the text. */
  lemma {:induction false} FieldSplits(s: string)
    requires Field(s).Some?
    ensures AllDigits(Field(s).value.0)
    ensures s == Field(s).value.0 + [':'] + Field(s).value.1
  {
    if s[0] != ':' {
      FieldSplits(s[1..]);
      assert s == [s[0]] + s[1..];
    }
  }

  /** `re.match(RECV_PATTERN, msg)`: anchored at the start only, `.` stops at a newline,
      and whatever follows the data is ignored. `None` is the failed match. */
  function Decode(msg: string): (r: Option<Frame>)
    ensures r.Some? ==> WellFormed(r.value)
  {
    if |msg| < 2 || !IsDigit(msg[0]) || msg[1] != ':' then None
    else
      match Field(msg[2..])
      case None => None
      case Some((id, afterId)) =>
        match Field(afterId)
        case None => None
        case Some((endpoint, afterEndpoint)) =>
          FieldSplits(msg[2..]);
          FieldSplits(afterId);
          Some(Frame(msg[0], id, endpoint, UpTo(afterEndpoint, '\n')))
  }

  /** Digits followed by a colon form one group, whatever comes after. */
  lemma {:induction false} FieldOf(a: string, b: string)
    requires AllDigits(a)
    ensures Field(a + [':'] + b) == Some((a, b))
  {
    if a != [] {
      assert (a + [':'] + b)[1..] == a[1..] + [':'] + b;
      FieldOf(a[1..], b);
      assert [a[0]] + a[1..] == a;
    } else {
      assert a + [':'] + b == [':'] + b;
    }
  }

  /** `UpTo` stops at the first separator and not before. */
  lemma {:induction false} UpToStops(a: string, b: string, sep: char)
    requires sep !in a
    requires b == [] || b[0] == sep
    ensures UpTo(a + b, sep) == a
  {
    if a != [] {
      assert (a + b)[1..] == a[1..] + b;
      UpToStops(a[1..], b, sep);
    }
  }

  /** A message of at least two characters is its first two characters followed by the rest. */
  lemma SplitHead(s: string)
    requires |s| >= 2
    ensures s == [s[0], s[1]] + s[2..]
  {
    assert s[..2] == [s[0], s[1]];
    assert s == s[..2] + s[2..];
  }

  /** Regrouping the three separators of a layout. */
  lemma Regroup(head: string, id: string, endpoint: string, data: string, rest: string)
    ensures head + (id + [':'] + (endpoint + [':'] + (data + rest)))
         == head + (id + [':'] + (endpoint + [':'] + data)) + rest
  {
  }

  /** Every decoded message is its frame's layout followed by nothing or by a newline. */
  lemma DecodeSound(msg: string)
    requires Decode(msg).Some?
    ensures var f := Decode(msg).value;
      Layout(f) <= msg && (|Layout(f)| == |msg| || msg[|Layout(f)|] == '\n')
  {
    var f := Decode(msg).value;
    var afterId := Field(msg[2..]).value.1;
    var afterEndpoint := Field(afterId).value.1;
    FieldSplits(msg[2..]);
    FieldSplits(afterId);
    var rest := afterEndpoint[|f.data|..];
    assert afterEndpoint == f.data + rest;
    assert msg == [f.code, ':'] + (f.packetId + [':'] + (f.endpoint + [':'] + (f.data + rest))) by {
      SplitHead(msg);
    }
    Regroup([f.code, ':'], f.packetId, f.endpoint, f.data, rest);
    assert msg == Layout(f) + rest;
  }

  /** Every well-formed frame's layout decodes back to that frame, whatever follows a newline. */
  lemma DecodeLayout(f: Frame, tail: string)
    requires WellFormed(f)
    requires tail == [] || tail[0] == '\n'
    ensures Decode(Layout(f) + tail) == Some(f)
  {
    var afterEndpoint := f.data + tail;
    var afterId := f.endpoint + [':'] + afterEndpoint;
    var s := Layout(f) + tail;
    assert s[0] == f.code && s[1] == ':' && s[2..] == f.packetId + [':'] + afterId by {
      Regroup([f.code, ':'], f.packetId, f.endpoint, f.data, tail);
    }
    FieldOf(f.packetId, afterId);
    FieldOf(f.endpoint, afterEndpoint);
    UpToStops(f.data, tail, '\n');
  }

  /** An event frame with empty id and endpoint (`5:::`) carries its text up to the first newline. */
  lemma EventFrameDecodes(text: string)
    ensures Decode("5:::" + text) == Some(Frame(Event, "", "", UpTo(text, '\n')))
  {
    var s := "5:::" + text;
    assert s[0] == Event && s[1] == ':' && s[2..] == [] + [':'] + ([] + [':'] + text);
    FieldOf([], [] + [':'] + text);
    FieldOf([], text);
  }

  /** A two-digit type code is not a frame: `recv` would fail on it. */
  lemma TwoDigitCodeRejected()
    ensures Decode("10::x") == None
  {
    var s := "10::x";
    assert s[0] == '1' && s[1] == '0';
  }

  /** The bare connect frame `1::` has no third colon, so it is no frame: the pattern
      demands a data field even when it is empty. */
  lemma BareConnectRejected()
    ensures Decode("1::") == None
  {
    assert "1::"[2..] == [':'];
  }

  /** `string.replace(data, ' ', '')`: the payload with every space removed. */
  function StripSpaces(s: string): (r: string)
    ensures ' ' !in r
    ensures forall c :: c in r <==> c in s && c != ' '
    ensures |r| <= |s|
    ensures multiset(r) == multiset(s)[' ' := 0]
  {
    if s == [] then []
    else
      assert s == [s[0]] + s[1..];
      (if s[0] == ' ' then [] else [s[0]]) + StripSpaces(s[1..])
  }

  /** Space removal works piecewise, so the characters kept stay in their order. */
  lemma {:induction false} StripSpacesAppend(a: string, b: string)
    ensures StripSpaces(a + b) == StripSpaces(a) + StripSpaces(b)
  {
    if a != [] {
      var keep := if a[0] == ' ' then [] else [a[0]];
      assert (a + b)[0] == a[0] && (a + b)[1..] == a[1..] + b;
      assert StripSpaces(a + b) == keep + StripSpaces(a[1..] + b);
      StripSpacesAppend(a[1..], b);
      assert StripSpaces(a) == keep + StripSpaces(a[1..]);
    } else {
      assert a + b == b;
    }
  }

  /** Removing spaces from text that has none changes nothing. */
  lemma {:induction false} StripSpacesKeepsSpaceFree(s: string)
    requires ' ' !in s
    ensures StripSpaces(s) == s
  {
    if s != [] {
      assert s == [s[0]] + s[1..];
      StripSpacesKeepsSpaceFree(s[1..]);
    }
  }

  predicate IsUpper(c: char) { 'A' <= c <= 'Z' }

  function LowerChar(c: char): char
  {
    if IsUpper(c) then (c as int + 32) as char else c
  }

  /** `string.lower` on ASCII text: upper-case letters become lower-case, nothing else moves. */
  function Lower(s: string): (r: string)
    ensures |r| == |s|
    ensures forall i :: 0 <= i < |s| ==> !IsUpper(r[i])
    ensures forall i :: 0 <= i < |s| && !IsUpper(s[i]) ==> r[i] == s[i]
    ensures forall i :: 0 <= i < |s| && IsUpper(s[i]) ==> r[i] as int == s[i] as int + 32
  {
    seq(|s|, i requires 0 <= i < |s| => LowerChar(s[i]))
  }

  /** Lower-casing keeps spaces exactly where they were. */
  lemma LowerKeepsSpaces(s: string)
    ensures ' ' in Lower(s) <==> ' ' in s
  {
    var r := Lower(s);
    if ' ' in s {
      var i :| 0 <= i < |s| && s[i] == ' ';
      assert r[i] == ' ';
    }
    if ' ' in r {
      var i :| 0 <= i < |r| && r[i] == ' ';
      assert s[i] == ' ';
    }
  }
}
