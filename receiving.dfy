/** What `SocketIOClient.recv` computes from the frames the server has queued
    (smoke_tests/rest_api_smoke_test.py:80-101), as a function, and the properties
    of its filtering loop. The loop is stated over the frames the pattern makes of
    the queued messages (`Scan`), so that its proofs never look inside the pattern;
    the method in module Clients is proved equal to it. */
module Receiving {
  import opened Checks
  import opened Wire

  /** What a receive returns, and how many frames it took off the connection. */
  datatype Received = Received(result: Result<string>, consumed: nat)

  /** Reads the deadline allows: `ticks` is how often the loop guard finds the clock
      before `end_time`; with a wait that is not positive the guard fails at once. */
  function Budget(waitTimeout: int, ticks: nat): (n: nat)
    ensures n <= ticks
    ensures n == 0 <==> waitTimeout <= 0 || ticks == 0
  {
    if waitTimeout <= 0 then 0 else ticks
  }

  /** Each queued message as `re.match(RECV_PATTERN, msg)` sees it. */
  function Frames(incoming: seq<string>): (fs: seq<Option<Frame>>)
    ensures |fs| == |incoming|
  {
    if incoming == [] then [] else [Decode(incoming[0])] + Frames(incoming[1..])
  }

  lemma {:induction false} FramesAt(incoming: seq<string>, i: nat)
    requires i < |incoming|
    ensures Frames(incoming)[i] == Decode(incoming[i])
  {
    if i > 0 {
      FramesAt(incoming[1..], i - 1);
    }
  }

  /** Decoding message by message commutes with joining queues. */
  lemma {:induction false} FramesAppend(a: seq<string>, b: seq<string>)
    ensures Frames(a + b) == Frames(a) + Frames(b)
  {
    if a != [] {
      assert (a + b)[1..] == a[1..] + b;
      FramesAppend(a[1..], b);
    } else {
      assert a + b == b;
    }
  }

  /** ... and with dropping the messages already read. */
  lemma FramesDrop(incoming: seq<string>, k: nat)
    requires k <= |incoming|
    ensures Frames(incoming[k..]) == Frames(incoming)[k..]
  {
    assert incoming == incoming[..k] + incoming[k..];
    FramesAppend(incoming[..k], incoming[k..]);
  }

  /** A frame that a receive reads past: it matched, and its code is a control code other
      than the one waited for. */
  predicate Skipped(frame: Option<Frame>, msgType: char)
  {
    frame.Some? && frame.value.code != msgType && IsControl(frame.value.code)
  }

  predicate AllSkipped(frames: seq<Option<Frame>>, msgType: char)
  {
    forall i :: 0 <= i < |frames| ==> Skipped(frames[i], msgType)
  }


  /** The `while/else` loop of `recv` over decoded messages: at most `budget` reads; the
      first frame whose code equals `msgType` ends it with its space-free data; control
      frames are read past; any other code, or a message that is no frame, ends it with
      an error; a closed connection or an empty queue ends it before a read. */
  function Scan(frames: seq<Option<Frame>>, closed: bool, msgType: char, budget: nat): (r: Received)
    ensures r.consumed <= budget && r.consumed <= |frames|
    ensures closed ==> r.consumed == 0
    ensures r.result.Success? ==> ' ' !in r.result.value
    decreases budget
  {
    if budget == 0 then Received(Failure(ReceiveTimeout), 0)
    else if closed || frames == [] then Received(Failure(ConnectionClosed), 0)
    else
      match frames[0]
      case None => Received(Failure(MalformedFrame), 1)
      case Some(f) =>
        if f.code == msgType then Received(Success(StripSpaces(f.data)), 1)
        else if IsControl(f.code) then
          var rest := Scan(frames[1..], closed, msgType, budget - 1);
          Received(rest.result, rest.consumed + 1)
        else Received(Failure(UnsupportedCode(f.code)), 1)
  }

  /** `recv` on the queued messages themselves. */
  function Receive(incoming: seq<string>, closed: bool, msgType: char, budget: nat): (r: Received)
    ensures r.consumed <= budget && r.consumed <= |incoming|
    ensures closed ==> r.consumed == 0
    ensures r.result.Success? ==> ' ' !in r.result.value
  {
    Scan(Frames(incoming), closed, msgType, budget)
  }

  /** The loop body reads past the next frame: a single pass uses its one read and the
      loop goes on. `ReadsPastMeans` says which frames these are. */
  predicate ReadsPast(frames: seq<Option<Frame>>, closed: bool, msgType: char)
  {
    Scan(frames, closed, msgType, 1) == Received(Failure(ReceiveTimeout), 1)
  }

  /** A pass reads past exactly a control frame other than the wanted one, read from an
      open connection. */
  lemma ReadsPastMeans(frames: seq<Option<Frame>>, closed: bool, msgType: char)
    ensures ReadsPast(frames, closed, msgType) <==> !closed && frames != [] && Skipped(frames[0], msgType)
  {
  }

  /** A receive whose first read is a control frame goes on as a receive with one read
      less on the frames after it: the loop around the loop body. */
  lemma ScanContinues(frames: seq<Option<Frame>>, closed: bool, msgType: char, budget: nat)
    requires budget > 0
    requires ReadsPast(frames, closed, msgType)
    ensures frames != []
    ensures Scan(frames, closed, msgType, budget)
         == Received(Scan(frames[1..], closed, msgType, budget - 1).result,
                     Scan(frames[1..], closed, msgType, budget - 1).consumed + 1)
  {
  }

  /** The loop's invariant, carried over one control frame: what is left of the receive
      after `done` reads, with the reads so far added, is the whole receive. */
  lemma ScanAdvance(frames: seq<Option<Frame>>, done: nat, closed: bool, msgType: char, left: nat, total: Received)
    requires 0 < done <= |frames|
    requires total == Received(Scan(frames[done - 1..], closed, msgType, left + 1).result,
                               Scan(frames[done - 1..], closed, msgType, left + 1).consumed + done - 1)
    requires ReadsPast(frames[done - 1..], closed, msgType)
    ensures total == Received(Scan(frames[done..], closed, msgType, left).result,
                              Scan(frames[done..], closed, msgType, left).consumed + done)
  {
    ScanContinues(frames[done - 1..], closed, msgType, left + 1);
    assert frames[done - 1..][1..] == frames[done..];
  }

  /** A receive whose first read ends it is decided by that read alone. */
  lemma ScanStops(frames: seq<Option<Frame>>, closed: bool, msgType: char, budget: nat)
    requires budget > 0
    requires !ReadsPast(frames, closed, msgType)
    ensures Scan(frames, closed, msgType, budget) == Scan(frames, closed, msgType, 1)
  {
  }

  /** Reading past any number of control frames costs one read each and changes nothing else. */
  lemma {:induction false} SkipPrefix(pre: seq<Option<Frame>>, rest: seq<Option<Frame>>, msgType: char, budget: nat)
    requires AllSkipped(pre, msgType)
    requires |pre| <= budget
    ensures var r := Scan(pre + rest, false, msgType, budget);
            var s := Scan(rest, false, msgType, budget - |pre|);
            r == Received(s.result, s.consumed + |pre|)
  {
    if pre != [] {
      assert (pre + rest)[0] == pre[0] && Skipped(pre[0], msgType);
      assert (pre + rest)[1..] == pre[1..] + rest;
      assert AllSkipped(pre[1..], msgType) by {
        forall i | 0 <= i < |pre| - 1 ensures Skipped(pre[1..][i], msgType) {
          assert pre[1..][i] == pre[i + 1];
        }
      }
      SkipPrefix(pre[1..], rest, msgType, budget - 1);
    } else {
      assert pre + rest == rest;
    }
  }

  /** After control frames only, the first frame of the wanted type is returned, spaces removed. */
  lemma ReturnsFirstMatch(pre: seq<Option<Frame>>, f: Frame, rest: seq<Option<Frame>>, msgType: char, budget: nat)
    requires AllSkipped(pre, msgType)
    requires |pre| < budget
    requires f.code == msgType
    ensures Scan(pre + [Some(f)] + rest, false, msgType, budget) == Received(Success(StripSpaces(f.data)), |pre| + 1)
  {
    assert pre + [Some(f)] + rest == pre + ([Some(f)] + rest);
    SkipPrefix(pre, [Some(f)] + rest, msgType, budget);
  }

  /** A frame with a code that is neither wanted nor control aborts the receive at once:
      nothing after it is read, even a frame that would have matched. */
  lemma AbortsOnUnsupported(pre: seq<Option<Frame>>, f: Frame, rest: seq<Option<Frame>>, msgType: char, budget: nat)
    requires AllSkipped(pre, msgType)
    requires |pre| < budget
    requires f.code != msgType && !IsControl(f.code)
    ensures Scan(pre + [Some(f)] + rest, false, msgType, budget) == Received(Failure(UnsupportedCode(f.code)), |pre| + 1)
  {
    assert pre + [Some(f)] + rest == pre + ([Some(f)] + rest);
    SkipPrefix(pre, [Some(f)] + rest, msgType, budget);
  }

  /** A message that is not a frame also aborts the receive at once. */
  lemma AbortsOnMalformed(pre: seq<Option<Frame>>, rest: seq<Option<Frame>>, msgType: char, budget: nat)
    requires AllSkipped(pre, msgType)
    requires |pre| < budget
    ensures Scan(pre + [None] + rest, false, msgType, budget) == Received(Failure(MalformedFrame), |pre| + 1)
  {
    assert pre + [None] + rest == pre + ([None] + rest);
    SkipPrefix(pre, [None] + rest, msgType, budget);
  }

  /** When the deadline allows no more reads than there are control frames, the receive
      times out after exactly that many reads. */
  lemma TimesOut(pre: seq<Option<Frame>>, rest: seq<Option<Frame>>, msgType: char, budget: nat)
    requires AllSkipped(pre, msgType)
    requires |pre| == budget
    ensures Scan(pre + rest, false, msgType, budget) == Received(Failure(ReceiveTimeout), budget)
  {
    SkipPrefix(pre, rest, msgType, budget);
  }

  /** A control frame in front of a run of control frames extends the run. */
  lemma SkippedCons(frames: seq<Option<Frame>>, k: nat, msgType: char)
    requires 0 < k <= |frames|
    requires Skipped(frames[0], msgType)
    requires AllSkipped(frames[1..][..k - 1], msgType)
    ensures AllSkipped(frames[..k], msgType)
  {
    forall i | 0 <= i < k ensures Skipped(frames[..k][i], msgType) {
      if i > 0 {
        assert frames[..k][i] == frames[1..][..k - 1][i - 1];
      }
    }
  }

  /** The converse, frame by frame: every frame before the last one read was a control frame. */
  lemma {:induction false} ReadPastSkipped(frames: seq<Option<Frame>>, closed: bool, msgType: char, budget: nat)
    ensures var r := Scan(frames, closed, msgType, budget);
      r.consumed > 0 ==> AllSkipped(frames[..r.consumed - 1], msgType)
  {
    var r := Scan(frames, closed, msgType, budget);
    if r.consumed > 1 {
      ReadPastSkipped(frames[1..], closed, msgType, budget - 1);
      SkippedCons(frames, r.consumed - 1, msgType);
    }
  }

  /** A success is the data of the last frame read, which has the wanted type. */
  lemma {:induction false} SuccessExplained(frames: seq<Option<Frame>>, closed: bool, msgType: char, budget: nat)
    ensures var r := Scan(frames, closed, msgType, budget);
      r.result.Success? ==>
        && r.consumed > 0
        && frames[r.consumed - 1].Some?
        && frames[r.consumed - 1].value.code == msgType
        && r.result.value == StripSpaces(frames[r.consumed - 1].value.data)
  {
    var r := Scan(frames, closed, msgType, budget);
    if r.result.Success? && r.consumed > 1 {
      SuccessExplained(frames[1..], closed, msgType, budget - 1);
      assert frames[r.consumed - 1] == frames[1..][r.consumed - 2];
    }
  }

  /** An unsupported-code failure names the code of the last frame read, which is neither
      wanted nor a control code. */
  lemma {:induction false} UnsupportedExplained(frames: seq<Option<Frame>>, closed: bool, msgType: char, budget: nat)
    ensures var r := Scan(frames, closed, msgType, budget);
      r.result.Failure? && r.result.error.UnsupportedCode? ==>
        && r.consumed > 0
        && frames[r.consumed - 1].Some?
        && frames[r.consumed - 1].value.code == r.result.error.code
        && r.result.error.code != msgType && !IsControl(r.result.error.code)
  {
    var r := Scan(frames, closed, msgType, budget);
    if r.result.Failure? && r.result.error.UnsupportedCode? && r.consumed > 1 {
      UnsupportedExplained(frames[1..], closed, msgType, budget - 1);
      assert frames[r.consumed - 1] == frames[1..][r.consumed - 2];
    }
  }

  /** A timeout used up the whole budget, and the last frame it read was a control frame. */
  lemma {:induction false} TimeoutExplained(frames: seq<Option<Frame>>, closed: bool, msgType: char, budget: nat)
    ensures var r := Scan(frames, closed, msgType, budget);
      r.result == Failure(ReceiveTimeout) ==>
        r.consumed == budget && (budget > 0 ==> Skipped(frames[budget - 1], msgType))
  {
    var r := Scan(frames, closed, msgType, budget);
    if r.result == Failure(ReceiveTimeout) && budget > 0 {
      TimeoutExplained(frames[1..], closed, msgType, budget - 1);
      if budget > 1 {
        assert frames[budget - 1] == frames[1..][budget - 2];
      }
    }
  }

  /** So a timeout read exactly the budget, all of it control frames. */
  lemma TimeoutReadsOnlyControl(frames: seq<Option<Frame>>, closed: bool, msgType: char, budget: nat)
    ensures var r := Scan(frames, closed, msgType, budget);
      r.result == Failure(ReceiveTimeout) ==> r.consumed == budget && AllSkipped(frames[..budget], msgType)
  {
    var r := Scan(frames, closed, msgType, budget);
    TimeoutExplained(frames, closed, msgType, budget);
    ReadPastSkipped(frames, closed, msgType, budget);
    if r.result == Failure(ReceiveTimeout) && budget > 0 {
      forall i | 0 <= i < budget ensures Skipped(frames[..budget][i], msgType) {
        if i < budget - 1 {
          assert frames[..budget][i] == frames[..budget - 1][i];
        }
      }
    }
  }
}
