/**
 * `OllamaProvider.generate_stream` over an abstract reply: the HTTP status
 * of the generate request and the lines of its body, each with the whole
 * seconds elapsed when it was read, and the exception (if any) raised
 * while reading on.
 */
module OllamaStream {
  import opened Wrappers
  import opened Events

  /** The `response` field of a decoded line: absent, a string, or some other JSON value (truthy or not). */
  datatype ResponseField = NoResponse | TextResponse(text: string) | OtherResponse(truthy: bool)

  /**
   * One line of the body: empty, not JSON, JSON that is not an object, or
   * an object with its `response` field and the truthiness of its `done`
   * field (False when absent).
   */
  datatype Line = BlankLine | MalformedJson | NonObjectJson | JsonObject(response: ResponseField, done: bool)

  datatype Frame = Frame(elapsed: nat, line: Line)

  /** The exception kinds the adapter tells apart. */
  datatype Failure = RequestTimeout | ConnectionFailure | UnexpectedFailure

  /** What the generate request produced: it raised, or it answered with a status and a body. */
  datatype Reply = PostFailed(postFailure: Failure) | HttpReply(status: int, frames: seq<Frame>, readFailure: Option<Failure>)

  const NotRunningMessage: string := "\U{1F3E0} Ollama is not running locally. Start it with 'ollama serve' to enable local AI."
  const ModelMissingMessage: string :=
    "\U{1F916} The local AI model is not available. Please make sure the model is installed and Ollama is running."
  const ServiceIssueMessage: string := "\U{1F6AB} Local AI service is experiencing issues. Please restart Ollama and try again."
  const StreamTimeoutMessage: string := "\U{23F0} Local AI is taking too long to respond. Try a shorter request or restart Ollama."
  const EmptyMessage: string := "\U{1F914} Local AI completed but returned no content. Try rephrasing your request."
  const RequestTimeoutMessage: string :=
    "\U{23F0} Local AI is taking too long to respond. Try a shorter request or restart the local AI service."
  const ConnectionMessage: string := "\U{1F50C} Cannot connect to local AI service. Please make sure Ollama is running."
  const UnexpectedMessage: string :=
    "\U{274C} Local AI encountered an unexpected issue. Please try restarting the service or contact support."

  function FailureMessage(f: Failure): string {
    match f
    case RequestTimeout => RequestTimeoutMessage
    case ConnectionFailure => ConnectionMessage
    case UnexpectedFailure => UnexpectedMessage
  }

  /** The message for a status other than 200. */
  function StatusMessage(status: int): string {
    if status == 404 then ModelMissingMessage else ServiceIssueMessage
  }

  /** The content a frame yields: a non-empty string `response`. */
  function FrameText(f: Frame): Option<string> {
    if f.line.JsonObject? && f.line.response.TextResponse? && f.line.response.text != ""
    then Some(f.line.response.text)
    else None
  }

  /**
   * A line the code cannot get past: a JSON value that is not an object
   * (looking up a key in it raises), or an object whose `response` is a
   * truthy non-string (appending it to the accumulated text raises).
   */
  predicate Crashes(line: Line) {
    line.NonObjectJson? || (line.JsonObject? && line.response.OtherResponse? && line.response.truthy)
  }

  /** A frame that ends the loop: late, crashing, or an object with a truthy `done`. */
  predicate Stops(f: Frame) {
    ExceedsBudget(f.elapsed) || Crashes(f.line) || (f.line.JsonObject? && f.line.done)
  }

  /** A frame the loop passes over without a trace: a blank or malformed line read in time. */
  predicate Skipped(f: Frame) {
    !ExceedsBudget(f.elapsed) && (f.line.BlankLine? || f.line.MalformedJson?)
  }

  /** Position of the first frame that ends the loop, or the length when none does. */
  function StopIndex(frames: seq<Frame>): (k: nat)
    ensures k <= |frames|
    ensures k < |frames| ==> Stops(frames[k])
  {
    StopFrom(frames, 0)
  }

  /** Position of the first frame at or after `from` that ends the loop. */
  function StopFrom(frames: seq<Frame>, from: nat): (k: nat)
    requires from <= |frames|
    decreases |frames| - from
    ensures from <= k <= |frames|
    ensures k < |frames| ==> Stops(frames[k])
  {
    if from == |frames| || Stops(frames[from]) then from else StopFrom(frames, from + 1)
  }

  /** No frame between `from` and the first stopping frame after it stops. */
  lemma {:induction false} NoStopFromBefore(frames: seq<Frame>, from: nat, i: nat)
    requires from <= |frames|
    ensures from <= i < StopFrom(frames, from) ==> !Stops(frames[i])
    decreases |frames| - from
  {
    if from < |frames| && !Stops(frames[from]) {
      NoStopFromBefore(frames, from + 1, i);
    }
  }

  /** No frame before the first stopping frame stops. */
  lemma NoStopBefore(frames: seq<Frame>, i: nat)
    ensures i < StopIndex(frames) ==> !Stops(frames[i])
  {
    NoStopFromBefore(frames, 0, i);
  }

  /** The first stopping frame is the only position with no stop before it and a stop (or the end) at it. */
  lemma StopIndexIs(frames: seq<Frame>, k: nat)
    requires k <= |frames|
    requires forall i :: 0 <= i < k ==> !Stops(frames[i])
    requires k < |frames| ==> Stops(frames[k])
    ensures StopIndex(frames) == k
  {
    NoStopBefore(frames, k);
  }

  /** How many frames the loop reads to the end: a stopping frame read in time is read. */
  function Processed(frames: seq<Frame>): (n: nat)
    ensures n <= |frames|
  {
    var k := StopIndex(frames);
    if k < |frames| && !ExceedsBudget(frames[k].elapsed) then k + 1 else k
  }

  /** The contents the frames yield, in order. */
  function FrameTexts(frames: seq<Frame>): seq<string>
    decreases |frames|
  {
    if |frames| == 0 then []
    else
      var f := frames[|frames| - 1];
      FrameTexts(frames[..|frames| - 1]) + (if FrameText(f).Some? then [FrameText(f).value] else [])
  }

  /** How a 200 reply's stream ends, given whether any content was yielded. */
  function BodyEnding(frames: seq<Frame>, failure: Option<Failure>, contentReceived: bool): Ending {
    var k := StopIndex(frames);
    if k < |frames| then
      if ExceedsBudget(frames[k].elapsed) then EndsErrorThenDone(StreamTimeoutMessage)
      else if Crashes(frames[k].line) then EndsErrorThenDone(UnexpectedMessage)
      else if contentReceived then EndsDone
      else EndsError(EmptyMessage)
    else if failure.Some? then EndsErrorThenDone(FailureMessage(failure.value))
    else Unterminated
  }

  /** The events the adapter yields. */
  function StreamEvents(available: bool, reply: Reply): seq<Event> {
    if !available then [Error(NotRunningMessage)]
    else if reply.PostFailed? then [Error(FailureMessage(reply.postFailure)), Done]
    else if reply.status != 200 then [Error(StatusMessage(reply.status))]
    else BodyEvents(reply.frames, reply.readFailure)
  }

  /** The events a 200 reply's body yields. */
  function BodyEvents(frames: seq<Frame>, failure: Option<Failure>): seq<Event> {
    var texts := FrameTexts(frames[..Processed(frames)]);
    Shaped(texts, BodyEnding(frames, failure, texts != []))
  }

  /** `generate_stream`: the loop over the body's lines with its `content_received` flag. */
  method GenerateStream(available: bool, reply: Reply) returns (events: seq<Event>)
    ensures events == StreamEvents(available, reply)
  {
    if !available {
      return [Error(NotRunningMessage)];
    }
    if reply.PostFailed? {
      return [Error(FailureMessage(reply.postFailure)), Done];
    }
    if reply.status != 200 {
      return [Error(StatusMessage(reply.status))];
    }
    events := ReadBody(reply.frames, reply.readFailure);
  }

  /** The loop over the body's lines with its `content_received` flag. */
  method ReadBody(frames: seq<Frame>, failure: Option<Failure>) returns (events: seq<Event>)
    ensures events == BodyEvents(frames, failure)
  {
    events := [];
    var contentReceived := false;
    for i := 0 to |frames|
      invariant i <= StopIndex(frames)
      invariant events == ContentEvents(FrameTexts(frames[..i]))
      invariant contentReceived <==> FrameTexts(frames[..i]) != []
    {
      var f := frames[i];
      if ExceedsBudget(f.elapsed) {
        LateLineEndsBody(frames, failure, i);
        events := events + [Error(StreamTimeoutMessage), Done];
        return;
      }
      if f.line.NonObjectJson? {
        CrashingLineEndsBody(frames, failure, i);
        events := events + [Error(UnexpectedMessage), Done];
        return;
      }
      ReadOn(frames, i);
      if f.line.JsonObject? {
        if f.line.response.OtherResponse? && f.line.response.truthy {
          CrashingLineEndsBody(frames, failure, i);
          events := events + [Error(UnexpectedMessage), Done];
          return;
        }
        if f.line.response.TextResponse? && f.line.response.text != "" {
          ContentEventsSnoc(FrameTexts(frames[..i]), f.line.response.text);
          contentReceived := true;
          events := events + [Content(f.line.response.text)];
        }
        if f.line.done {
          DoneLineEndsRead(frames, failure, i);
          if contentReceived {
            events := events + [Done];
          } else {
            events := events + [Error(EmptyMessage)];
          }
          return;
        }
      }
    }
    BodyRunsOut(frames, failure);
    if failure.Some? {
      events := events + [Error(FailureMessage(failure.value)), Done];
    }
  }

  /** The contents up to one more line read in time: that line's content, if any, comes last. */
  lemma ReadOn(frames: seq<Frame>, i: nat)
    requires i < |frames|
    ensures FrameTexts(frames[..i + 1]) ==
      FrameTexts(frames[..i]) + (if FrameText(frames[i]).Some? then [FrameText(frames[i]).value] else [])
  {
    assert frames[..i + 1] == frames[..i] + [frames[i]];
    LastFrameText(frames[..i], frames[i]);
  }

  /** A late line ends the body with the timeout error and `done`; it is not read. */
  lemma LateLineEndsBody(frames: seq<Frame>, failure: Option<Failure>, i: nat)
    requires i < |frames| && i <= StopIndex(frames) && ExceedsBudget(frames[i].elapsed)
    ensures BodyEvents(frames, failure) == ContentEvents(FrameTexts(frames[..i])) + [Error(StreamTimeoutMessage), Done]
  {
    NoStopBefore(frames, i);
    assert StopIndex(frames) == i && Processed(frames) == i;
  }

  /** A crashing line read in time ends the body with the unexpected-issue error and `done`. */
  lemma CrashingLineEndsBody(frames: seq<Frame>, failure: Option<Failure>, i: nat)
    requires i < |frames| && i <= StopIndex(frames) && !ExceedsBudget(frames[i].elapsed) && Crashes(frames[i].line)
    ensures BodyEvents(frames, failure) == ContentEvents(FrameTexts(frames[..i])) + [Error(UnexpectedMessage), Done]
  {
    NoStopBefore(frames, i);
    assert StopIndex(frames) == i && Processed(frames) == i + 1;
    ReadOn(frames, i);
  }

  /**
   * A `done` line read in time ends the body after its own content: with
   * `done` when some content was yielded, else with the empty-response error.
   */
  lemma DoneLineEndsRead(frames: seq<Frame>, failure: Option<Failure>, i: nat)
    requires i < |frames| && i <= StopIndex(frames) && !ExceedsBudget(frames[i].elapsed)
    requires !Crashes(frames[i].line) && frames[i].line.JsonObject? && frames[i].line.done
    ensures var texts := FrameTexts(frames[..i + 1]);
      BodyEvents(frames, failure) == Shaped(texts, if texts != [] then EndsDone else EndsError(EmptyMessage))
  {
    NoStopBefore(frames, i);
    assert StopIndex(frames) == i && Processed(frames) == i + 1;
  }

  /** A body with no stopping line yields all its contents, then the exception's message and `done` if one was raised. */
  lemma BodyRunsOut(frames: seq<Frame>, failure: Option<Failure>)
    requires StopIndex(frames) == |frames|
    ensures BodyEvents(frames, failure) == ContentEvents(FrameTexts(frames[..|frames|])) +
      (if failure.Some? then [Error(FailureMessage(failure.value)), Done] else [])
  {
    var texts := FrameTexts(frames[..|frames|]);
    assert Processed(frames) == |frames|;
    if failure.Some? {
      assert BodyEnding(frames, failure, texts != []) == EndsErrorThenDone(FailureMessage(failure.value));
    } else {
      assert BodyEnding(frames, failure, texts != []) == Unterminated;
      assert ContentEvents(texts) + [] == ContentEvents(texts);
    }
  }

  /** A 200 reply whose body runs out with no stopping frame and no exception after it. */
  predicate OpenEnded(reply: Reply) {
    && reply.HttpReply? && reply.status == 200 && reply.readFailure.None?
    && forall i :: 0 <= i < |reply.frames| ==> !Stops(reply.frames[i])
  }

  /**
   * The stream keeps the protocol in every case but one: a body that runs
   * out without a `done` line, a late line, a crash or an exception; that
   * stream is only content, with no terminal event at all.
   */
  lemma TerminatedUnlessOpenEnded(available: bool, reply: Reply)
    ensures ProperlyTerminated(StreamEvents(available, reply)) <==> !(available && OpenEnded(reply))
    ensures available && OpenEnded(reply) ==>
      StreamEvents(available, reply) == ContentEvents(FrameTexts(reply.frames))
  {
    var events := StreamEvents(available, reply);
    if !available || reply.PostFailed? || reply.status != 200 {
      FirstTerminalAt(events, 0);
    } else {
      var frames := reply.frames;
      var texts := FrameTexts(frames[..Processed(frames)]);
      var e := BodyEnding(frames, reply.readFailure, texts != []);
      if e.Unterminated? {
        forall i | 0 <= i < |frames|
          ensures !Stops(frames[i])
        {
          NoStopBefore(frames, i);
        }
        assert frames[..Processed(frames)] == frames;
        UnterminatedIsOpen(texts);
      } else {
        ShapedIsTerminated(texts, e);
      }
    }
  }

  /** Turned away before any body: one error, with the 404 message for a missing model, and no `done`. */
  lemma RefusedIsOneError(available: bool, reply: Reply)
    requires !available || (reply.HttpReply? && reply.status != 200)
    ensures var events := StreamEvents(available, reply);
      && |events| == 1 && events[0].Error? && Done !in events
      && (available && reply.status == 404 ==> events[0].message == ModelMissingMessage)
  {
  }

  /** The contents of two runs of frames, read one after the other. */
  lemma {:induction false} FrameTextsConcat(a: seq<Frame>, b: seq<Frame>)
    ensures FrameTexts(a + b) == FrameTexts(a) + FrameTexts(b)
    decreases |b|
  {
    if |b| == 0 {
      assert a + b == a;
    } else {
      var b0 := b[..|b| - 1];
      assert (a + b)[..|a + b| - 1] == a + b0;
      FrameTextsConcat(a, b0);
    }
  }

  /** Where the first stopping frame of two runs of frames is. */
  lemma StopIndexConcat(a: seq<Frame>, b: seq<Frame>)
    ensures StopIndex(a + b) == if StopIndex(a) < |a| then StopIndex(a) else |a| + StopIndex(b)
  {
    var ab := a + b;
    if StopIndex(a) < |a| {
      forall i | 0 <= i < StopIndex(a)
        ensures !Stops(ab[i])
      {
        NoStopBefore(a, i);
        assert ab[i] == a[i];
      }
      StopIndexIs(ab, StopIndex(a));
    } else {
      var k := |a| + StopIndex(b);
      forall i | 0 <= i < k
        ensures !Stops(ab[i])
      {
        if i >= |a| {
          NoStopBefore(b, i - |a|);
          assert ab[i] == b[i - |a|];
        } else {
          NoStopBefore(a, i);
          assert ab[i] == a[i];
        }
      }
      if k < |ab| {
        assert ab[k] == b[StopIndex(b)];
      }
      StopIndexIs(ab, k);
    }
  }

  /** A frame without content, put anywhere, adds no content. */
  lemma InsertedTextless(a: seq<Frame>, f: Frame, c: seq<Frame>)
    requires FrameText(f).None?
    ensures FrameTexts(a + [f] + c) == FrameTexts(a + c)
  {
    FrameTextsConcat(a + [f], c);
    FrameTextsConcat(a, c);
    LastFrameText(a, f);
  }

  /** A frame that does not stop, put anywhere, moves the first stop behind it by one. */
  lemma InsertedNonStop(a: seq<Frame>, f: Frame, b: seq<Frame>)
    requires !Stops(f)
    ensures var k := StopIndex(a + b);
      StopIndex(a + [f] + b) == if k < |a| then k else k + 1
  {
    var w := a + [f] + b;
    var v := a + b;
    var k := StopIndex(v);
    assert forall i :: 0 <= i < |a| ==> w[i] == v[i];
    assert forall i :: |a| < i < |w| ==> w[i] == v[i - 1];
    if k < |a| {
      forall i | 0 <= i < k
        ensures !Stops(w[i])
      {
        NoStopBefore(v, i);
      }
      StopIndexIs(w, k);
    } else {
      forall i | 0 <= i < k + 1
        ensures !Stops(w[i])
      {
        if i > |a| {
          NoStopBefore(v, i - 1);
          assert w[i] == v[i - 1];
        } else if i < |a| {
          NoStopBefore(v, i);
        }
      }
      if k < |v| {
        assert w[k + 1] == v[k];
      }
      StopIndexIs(w, k + 1);
    }
  }

  /** The body part of the next lemma. */
  lemma SkippedFrameBody(a: seq<Frame>, f: Frame, b: seq<Frame>, failure: Option<Failure>)
    requires Skipped(f)
    ensures BodyEvents(a + [f] + b, failure) == BodyEvents(a + b, failure)
  {
    InsertedNonStop(a, f, b);
    if StopIndex(a + b) < |a| {
      SkippedAfterStop(a, f, b, failure);
    } else {
      SkippedBeforeStop(a, f, b, failure);
    }
  }

  /** A skipped frame after the first stopping frame is never read. */
  lemma SkippedAfterStop(a: seq<Frame>, f: Frame, b: seq<Frame>, failure: Option<Failure>)
    requires Skipped(f) && StopIndex(a + b) < |a| && StopIndex(a + [f] + b) == StopIndex(a + b)
    ensures BodyEvents(a + [f] + b, failure) == BodyEvents(a + b, failure)
  {
    var w := a + [f] + b;
    var v := a + b;
    var k := StopIndex(v);
    assert w[k] == v[k];
    var c := FrameTexts(v[..Processed(v)]) != [];
    SameStopFrame(w, v, failure, c);
    assert w[..Processed(v)] == v[..Processed(v)];
  }

  /** A skipped frame before the first stopping frame is read and adds nothing. */
  lemma SkippedBeforeStop(a: seq<Frame>, f: Frame, b: seq<Frame>, failure: Option<Failure>)
    requires Skipped(f) && StopIndex(a + b) >= |a| && StopIndex(a + [f] + b) == StopIndex(a + b) + 1
    ensures BodyEvents(a + [f] + b, failure) == BodyEvents(a + b, failure)
  {
    var w := a + [f] + b;
    var v := a + b;
    var k := StopIndex(v);
    assert k < |v| ==> w[k + 1] == v[k];
    var n := Processed(v);
    var c := FrameTexts(v[..n]) != [];
    SameStopFrame(w, v, failure, c);
    SkippedTexts(a, f, b, n);
  }

  /**
   * Two bodies whose first stopping frames are the same frame (or that both
   * run out) end the same way and read the same number of frames from there.
   */
  lemma SameStopFrame(w: seq<Frame>, v: seq<Frame>, failure: Option<Failure>, c: bool)
    requires StopIndex(w) < |w| <==> StopIndex(v) < |v|
    requires StopIndex(w) < |w| ==> w[StopIndex(w)] == v[StopIndex(v)]
    ensures BodyEnding(w, failure, c) == BodyEnding(v, failure, c)
    ensures Processed(w) - StopIndex(w) == Processed(v) - StopIndex(v)
  {
  }

  /** The contents read up to a point past a skipped frame are those read without it. */
  lemma SkippedTexts(a: seq<Frame>, f: Frame, b: seq<Frame>, n: nat)
    requires Skipped(f) && |a| <= n <= |a| + |b|
    ensures FrameTexts((a + [f] + b)[..n + 1]) == FrameTexts((a + b)[..n])
  {
    var w := a + [f] + b;
    var v := a + b;
    assert w[..n + 1] == a + [f] + v[|a|..n];
    assert v[..n] == a + v[|a|..n];
    InsertedTextless(a, f, v[|a|..n]);
  }

  /**
   * Blank lines and malformed JSON read in time are skipped silently: adding
   * one anywhere in the body changes nothing in the stream.
   */
  lemma SkippedFrameChangesNothing(available: bool, status: int, a: seq<Frame>, f: Frame, b: seq<Frame>, failure: Option<Failure>)
    requires Skipped(f)
    ensures StreamEvents(available, HttpReply(status, a + [f] + b, failure)) ==
            StreamEvents(available, HttpReply(status, a + b, failure))
  {
    if available && status == 200 {
      SkippedFrameBody(a, f, b, failure);
      StreamOfAnswer(a + [f] + b, failure);
      StreamOfAnswer(a + b, failure);
    }
  }

  /** The contents of frames read after `pre` and then `f`. */
  lemma LastFrameText(pre: seq<Frame>, f: Frame)
    ensures FrameTexts(pre + [f]) == FrameTexts(pre) + (if FrameText(f).Some? then [FrameText(f).value] else [])
  {
    assert (pre + [f])[..|pre|] == pre;
  }

  /** A configured adapter that got status 200 yields what the body yields. */
  lemma StreamOfAnswer(frames: seq<Frame>, failure: Option<Failure>)
    ensures StreamEvents(true, HttpReply(200, frames, failure)) == BodyEvents(frames, failure)
  {
  }

  /** The body part of the next lemma. */
  lemma DoneLineEndsBody(frames: seq<Frame>, n: nat, failure: Option<Failure>, text: string)
    requires n < |frames| && forall i :: 0 <= i < n ==> !Stops(frames[i])
    requires !ExceedsBudget(frames[n].elapsed) && frames[n].line.JsonObject? && frames[n].line.done
    requires FrameText(frames[n]) == Some(text)
    ensures BodyEvents(frames, failure) == Shaped(FrameTexts(frames[..n]) + [text], EndsDone)
  {
    StopIndexIs(frames, n);
    ReadOn(frames, n);
    DoneLineEndsRead(frames, failure, n);
  }

  /**
   * The first `done` line ends the stream: the content it carries is
   * yielded, then `done`; the lines after it are never read.
   */
  lemma DoneLineEndsStream(frames: seq<Frame>, n: nat, failure: Option<Failure>, text: string)
    requires n < |frames| && forall i :: 0 <= i < n ==> !Stops(frames[i])
    requires !ExceedsBudget(frames[n].elapsed) && frames[n].line.JsonObject? && frames[n].line.done
    requires FrameText(frames[n]) == Some(text)
    ensures StreamEvents(true, HttpReply(200, frames, failure)) == Shaped(FrameTexts(frames[..n]) + [text], EndsDone)
  {
    DoneLineEndsBody(frames, n, failure, text);
    StreamOfAnswer(frames, failure);
  }
}
