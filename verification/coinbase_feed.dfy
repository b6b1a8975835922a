/** The read loop of the Coinbase ticker connection with the transport
    stripped away: a filter over the frames the socket delivers, feeding a
    channel whose receiver may go away. */
module CoinbaseFeed {
  import opened Optional

  /** The fields of a Coinbase message that the engine reads. */
  datatype TickerUpdate = TickerUpdate(updateType: string, productId: string, price: Option<string>)

  /** One item read from the socket: a text frame, any other frame (binary,
      ping, pong, close), or a transport error. */
  datatype Frame = TextFrame(text: string) | OtherFrame | TransportError

  /** Why the read loop ended. */
  datatype StopReason = StreamEnded | TransportFailed | ReceiverDropped

  /** The updates handed to the channel, in order, and why the loop ended. */
  datatype ReadOutcome = ReadOutcome(sent: seq<TickerUpdate>, stop: StopReason)

  /** The JSON decoder, as a function from text to an optional update. */
  type Parser = string -> Option<TickerUpdate>

  /** The updates one frame contributes: the decoded message when the frame
      is text that decodes into a message of type "ticker", nothing else. */
  function FrameUpdates(f: Frame, parse: Parser): (r: seq<TickerUpdate>)
    ensures |r| <= 1
    ensures |r| == 1 <==> f.TextFrame? && parse(f.text).Some? && parse(f.text).value.updateType == "ticker"
    ensures |r| == 1 ==> r[0] == parse(f.text).value
  {
    match f
    case TextFrame(text) =>
      (match parse(text)
       case Some(u) => if u.updateType == "ticker" then [u] else []
       case None => [])
    case _ => []
  }

  /** The ticker updates of a run of frames, in arrival order, ignoring
      transport errors. */
  function TickerUpdates(frames: seq<Frame>, parse: Parser): (r: seq<TickerUpdate>)
    ensures |r| <= |frames|
    ensures forall j :: 0 <= j < |r| ==> r[j].updateType == "ticker"
  {
    if frames == [] then [] else FrameUpdates(frames[0], parse) + TickerUpdates(frames[1..], parse)
  }

  /** Index of the first transport error, or the number of frames when
      there is none. */
  function FirstError(frames: seq<Frame>): (e: nat)
    ensures e <= |frames|
    ensures forall j :: 0 <= j < e ==> !frames[j].TransportError?
    ensures e < |frames| ==> frames[e].TransportError?
  {
    if frames == [] then 0
    else if frames[0].TransportError? then 0
    else 1 + FirstError(frames[1..])
  }

  /** What a receiver that never goes away would get: the ticker updates
      that arrive before the first transport error. */
  function Deliverable(frames: seq<Frame>, parse: Parser): seq<TickerUpdate>
  {
    TickerUpdates(frames[..FirstError(frames)], parse)
  }

  /** Filtering distributes over concatenation, so the filter keeps the
      arrival order of the frames. */
  lemma {:induction false} TickerUpdatesAppend(a: seq<Frame>, b: seq<Frame>, parse: Parser)
    ensures TickerUpdates(a + b, parse) == TickerUpdates(a, parse) + TickerUpdates(b, parse)
    decreases |a|
  {
    if a == [] {
      assert a + b == b;
    } else {
      assert (a + b)[1..] == a[1..] + b;
      TickerUpdatesAppend(a[1..], b, parse);
    }
  }

  /** An update is among the ticker updates of a run of frames exactly when
      it is a ticker and some text frame of the run decodes into it. */
  lemma {:induction false} TickerUpdatesMembership(frames: seq<Frame>, parse: Parser, u: TickerUpdate)
    ensures u in TickerUpdates(frames, parse) <==>
      u.updateType == "ticker" &&
      exists j :: 0 <= j < |frames| && frames[j].TextFrame? && parse(frames[j].text) == Some(u)
    decreases |frames|
  {
    if frames != [] {
      TickerUpdatesMembership(frames[1..], parse, u);
      if exists j :: 0 <= j < |frames| && frames[j].TextFrame? && parse(frames[j].text) == Some(u) {
        var j :| 0 <= j < |frames| && frames[j].TextFrame? && parse(frames[j].text) == Some(u);
        if j > 0 {
          assert frames[1..][j - 1] == frames[j];
        }
      }
      if exists j :: 0 <= j < |frames[1..]| && frames[1..][j].TextFrame? && parse(frames[1..][j].text) == Some(u) {
        var j :| 0 <= j < |frames[1..]| && frames[1..][j].TextFrame? && parse(frames[1..][j].text) == Some(u);
        assert frames[j + 1] == frames[1..][j];
      }
    }
  }

  /** Frames that are not tickers are skipped and the loop goes on: they add
      nothing to what is delivered, wherever they occur. */
  lemma SkippedFramesAddNothing(before: seq<Frame>, f: Frame, after: seq<Frame>, parse: Parser)
    requires f.OtherFrame? || (f.TextFrame? && (parse(f.text).None? || parse(f.text).value.updateType != "ticker"))
    ensures TickerUpdates(before + [f] + after, parse) == TickerUpdates(before + after, parse)
  {
    TickerUpdatesAppend(before + [f], after, parse);
    TickerUpdatesAppend(before, [f], parse);
    TickerUpdatesAppend(before, after, parse);
  }

  /** Nothing that arrives after a transport error is ever delivered. */
  lemma NothingAfterTransportError(frames: seq<Frame>, rest: seq<Frame>, parse: Parser)
    requires FirstError(frames) < |frames|
    ensures Deliverable(frames + rest, parse) == Deliverable(frames, parse)
  {
    var e := FirstError(frames);
    var all := frames + rest;
    assert all[e] == frames[e];
    forall j | 0 <= j < e
      ensures !all[j].TransportError?
    {
      assert all[j] == frames[j];
    }
    FirstErrorIsFirst(all, e);
    assert all[..e] == frames[..e];
  }

  /** `FirstError` is determined by where the first error sits. */
  lemma FirstErrorIsFirst(frames: seq<Frame>, e: nat)
    requires e < |frames| && frames[e].TransportError?
    requires forall j :: 0 <= j < e ==> !frames[j].TransportError?
    ensures FirstError(frames) == e
  {
  }

  /** The deliverable updates start with those of the first `i + 1`
      frames, when those frames are all before the first transport error. */
  lemma DeliverableExtends(frames: seq<Frame>, parse: Parser, i: nat)
    requires i < FirstError(frames)
    ensures Deliverable(frames, parse) ==
      TickerUpdates(frames[..i + 1], parse) + TickerUpdates(frames[i + 1..FirstError(frames)], parse)
  {
    var e := FirstError(frames);
    assert frames[..e] == frames[..i + 1] + frames[i + 1..e];
    TickerUpdatesAppend(frames[..i + 1], frames[i + 1..e], parse);
  }

  /** The read loop. `accepts` is how many sends succeed before the receiver
      is dropped: the updates it received plus those still buffered in the
      channel at that moment (`None`: it is never dropped). The next send
      after that fails and ends the loop. */
  method ReadLoop(frames: seq<Frame>, parse: Parser, accepts: Option<nat>) returns (out: ReadOutcome)
    ensures var all := Deliverable(frames, parse);
      if accepts.Some? && accepts.value < |all| then
        out.sent == all[..accepts.value] && out.stop == ReceiverDropped
      else
        out.sent == all && out.stop == (if FirstError(frames) < |frames| then TransportFailed else StreamEnded)
  {
    var sent: seq<TickerUpdate> := [];
    var i := 0;
    while i < |frames|
      invariant i <= FirstError(frames)
      invariant sent == TickerUpdates(frames[..i], parse)
      invariant accepts.Some? ==> |sent| <= accepts.value
    {
      if frames[i].TransportError? {
        return ReadOutcome(sent, TransportFailed);
      }
      var step := FrameUpdates(frames[i], parse);
      TickerUpdatesAppend(frames[..i], [frames[i]], parse);
      assert frames[..i + 1] == frames[..i] + [frames[i]];
      if step != [] && accepts.Some? && |sent| == accepts.value {
        DeliverableExtends(frames, parse, i);
        return ReadOutcome(sent, ReceiverDropped);
      }
      sent := sent + step;
      i := i + 1;
    }
    assert frames[..i] == frames;
    return ReadOutcome(sent, StreamEnded);
  }
}
