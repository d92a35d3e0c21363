/**
 * `ClaudeProvider.generate_stream` over an abstract reply: whether opening
 * the message stream timed out or raised, and otherwise the chunks it
 * delivered, each with the whole seconds elapsed when it arrived, and the
 * exception (if any) raised after them. The reply is what an asynchronous
 * client would deliver; `StreamEventsAsWritten` is the adapter with the
 * synchronous client it actually builds.
 */
module ClaudeStream {
  import opened Wrappers
  import opened Events

  /** A chunk's `type`: a content delta (with its `delta.text`, if it has one), the stop message, or anything else. */
  datatype ChunkKind = ContentBlockDelta(text: Option<string>) | MessageStop | OtherChunk

  datatype Chunk = Chunk(elapsed: nat, kind: ChunkKind)

  /** The exception kinds the adapter tells apart. */
  datatype Failure = AuthenticationFailure | RateLimitFailure | UnexpectedFailure

  /** What opening the stream produced. */
  datatype Reply = OpenTimedOut | OpenFailed(openFailure: Failure) | Opened(chunks: seq<Chunk>, streamFailure: Option<Failure>)

  const NotConfiguredMessage: string :=
    "\U{1F511} Claude is not configured. Please add your Anthropic API key to enable Claude comparison."
  const OpenTimeoutMessage: string := "\U{23F0} Claude is taking too long to respond. Please try again with a shorter request."
  const StreamTimeoutMessage: string := "\U{23F0} Claude response timed out. Please try again."
  const EmptyMessage: string := "\U{1F914} Claude completed but returned no content. Try rephrasing your request."
  const AuthenticationMessage: string :=
    "\U{1F510} Invalid Claude API key. Please check your Anthropic credentials in the .env file."
  const RateLimitMessage: string := "\U{1F6A6} Too many requests to Claude. Please wait a moment and try again."
  const UnexpectedMessage: string :=
    "\U{274C} Claude AI encountered an unexpected issue. Please try again or contact support if the problem persists."

  function FailureMessage(f: Failure): string {
    match f
    case AuthenticationFailure => AuthenticationMessage
    case RateLimitFailure => RateLimitMessage
    case UnexpectedFailure => UnexpectedMessage
  }

  /** The content a chunk yields: a delta whose text is present and not empty. */
  function DeltaText(c: Chunk): Option<string> {
    if c.kind.ContentBlockDelta? && c.kind.text.Some? && c.kind.text.value != "" then Some(c.kind.text.value) else None
  }

  /** What a stop message yields: `done` after content, the empty error before any. */
  function StopEnding(received: bool): Ending {
    if received then EndsDone else EndsError(EmptyMessage)
  }

  /** What is left after the last chunk: the raised exception's message and `done`, or nothing. */
  function RaisedEnding(failure: Option<Failure>): Ending {
    if failure.Some? then EndsErrorThenDone(FailureMessage(failure.value)) else Unterminated
  }

  /**
   * The events the loop yields from chunk `from` on, with `received` telling
   * whether content was yielded before. A late chunk ends the stream with
   * the timeout error alone; each stop message yields `done` or the empty
   * error and the loop goes on; after the last chunk a raised exception
   * yields its message and `done`.
   */
  function ChunkEvents(chunks: seq<Chunk>, from: nat, received: bool, failure: Option<Failure>): seq<Event>
    requires from <= |chunks|
    decreases |chunks| - from
  {
    if from == |chunks| then EndingEvents(RaisedEnding(failure))
    else
      var c := chunks[from];
      if ExceedsBudget(c.elapsed) then [Error(StreamTimeoutMessage)]
      else if DeltaText(c).Some? then [Content(DeltaText(c).value)] + ChunkEvents(chunks, from + 1, true, failure)
      else if c.kind.MessageStop? then EndingEvents(StopEnding(received)) + ChunkEvents(chunks, from + 1, received, failure)
      else ChunkEvents(chunks, from + 1, received, failure)
  }

  /** The events the adapter yields. */
  function StreamEvents(available: bool, reply: Reply): seq<Event> {
    if !available then [Error(NotConfiguredMessage)]
    else if reply.OpenTimedOut? then [Error(OpenTimeoutMessage), Done]
    else if reply.OpenFailed? then [Error(FailureMessage(reply.openFailure)), Done]
    else ChunkEvents(reply.chunks, 0, false, reply.streamFailure)
  }

  /** `generate_stream`: the loop over the chunks with its `content_received` flag. */
  method GenerateStream(available: bool, reply: Reply) returns (events: seq<Event>)
    ensures events == StreamEvents(available, reply)
  {
    if !available {
      return [Error(NotConfiguredMessage)];
    }
    if reply.OpenTimedOut? {
      return [Error(OpenTimeoutMessage), Done];
    }
    if reply.OpenFailed? {
      return [Error(FailureMessage(reply.openFailure)), Done];
    }
    var chunks := reply.chunks;
    events := [];
    var contentReceived := false;
    for i := 0 to |chunks|
      invariant events + ChunkEvents(chunks, i, contentReceived, reply.streamFailure)
             == ChunkEvents(chunks, 0, false, reply.streamFailure)
    {
      var c := chunks[i];
      if ExceedsBudget(c.elapsed) {
        events := events + [Error(StreamTimeoutMessage)];
        return;
      }
      if c.kind.ContentBlockDelta? {
        if c.kind.text.Some? && c.kind.text.value != "" {
          contentReceived := true;
          events := events + [Content(c.kind.text.value)];
        }
      } else if c.kind.MessageStop? {
        if contentReceived {
          events := events + [Done];
        } else {
          events := events + [Error(EmptyMessage)];
        }
      }
    }
    if reply.streamFailure.Some? {
      events := events + [Error(FailureMessage(reply.streamFailure.value)), Done];
    }
  }

  /** The texts of the content deltas among chunks `lo` to `hi`, in order. */
  function DeltaTexts(chunks: seq<Chunk>, lo: nat, hi: nat): seq<string>
    requires lo <= hi <= |chunks|
    decreases hi - lo
  {
    if lo == hi then []
    else (if DeltaText(chunks[lo]).Some? then [DeltaText(chunks[lo]).value] else []) + DeltaTexts(chunks, lo + 1, hi)
  }

  /** An opened stream is the loop's events from the first chunk on. */
  lemma OpenedEvents(chunks: seq<Chunk>, failure: Option<Failure>)
    ensures StreamEvents(true, Opened(chunks, failure)) == ChunkEvents(chunks, 0, false, failure)
  {
  }

  /** Chunks that arrive in time and are not a stop message. */
  predicate Quiet(chunks: seq<Chunk>, lo: nat, hi: nat)
    requires lo <= hi <= |chunks|
  {
    forall i :: lo <= i < hi ==> !ExceedsBudget(chunks[i].elapsed) && !chunks[i].kind.MessageStop?
  }

  /** A run of quiet chunks yields exactly its content deltas, in order. */
  lemma {:induction false} QuietRun(chunks: seq<Chunk>, lo: nat, hi: nat, received: bool, failure: Option<Failure>)
    requires lo <= hi <= |chunks|
    requires Quiet(chunks, lo, hi)
    decreases hi - lo
    ensures ChunkEvents(chunks, lo, received, failure) ==
      ContentEvents(DeltaTexts(chunks, lo, hi))
      + ChunkEvents(chunks, hi, received || DeltaTexts(chunks, lo, hi) != [], failure)
  {
    if lo < hi {
      var c := chunks[lo];
      var rest := DeltaTexts(chunks, lo + 1, hi);
      QuietStep(chunks, lo, received, failure);
      if DeltaText(c).Some? {
        var t := DeltaText(c).value;
        QuietRun(chunks, lo + 1, hi, true, failure);
        assert ContentEvents([t] + rest) == [Content(t)] + ContentEvents(rest);
      } else {
        QuietRun(chunks, lo + 1, hi, received, failure);
      }
    } else {
      assert ContentEvents([]) == [];
    }
  }

  /** A quiet chunk yields its content delta, if any, and the loop goes on. */
  lemma QuietStep(chunks: seq<Chunk>, k: nat, received: bool, failure: Option<Failure>)
    requires k < |chunks| && !ExceedsBudget(chunks[k].elapsed) && !chunks[k].kind.MessageStop?
    ensures DeltaText(chunks[k]).Some? ==>
      ChunkEvents(chunks, k, received, failure) ==
      [Content(DeltaText(chunks[k]).value)] + ChunkEvents(chunks, k + 1, true, failure)
    ensures DeltaText(chunks[k]).None? ==>
      ChunkEvents(chunks, k, received, failure) == ChunkEvents(chunks, k + 1, received, failure)
  {
  }

  /**
   * When the only stop message is the last chunk, nothing arrives late and
   * nothing is raised, the stream is the content deltas, then `done`
   * exactly when there was content, else the empty error.
   */
  lemma StopLastShape(chunks: seq<Chunk>, n: nat)
    requires n + 1 == |chunks| && Quiet(chunks, 0, n)
    requires chunks[n].kind.MessageStop? && !ExceedsBudget(chunks[n].elapsed)
    ensures StreamEvents(true, Opened(chunks, None)) ==
      Shaped(DeltaTexts(chunks, 0, n), StopEnding(DeltaTexts(chunks, 0, n) != []))
  {
    var texts := DeltaTexts(chunks, 0, n);
    OpenedEvents(chunks, None);
    QuietRun(chunks, 0, n, false, None);
    StopAtLast(chunks, texts != []);
  }

  /** A stop message as the last chunk, with nothing raised, yields its ending and nothing more. */
  lemma StopAtLast(chunks: seq<Chunk>, received: bool)
    requires |chunks| > 0 && chunks[|chunks| - 1].kind.MessageStop? && !ExceedsBudget(chunks[|chunks| - 1].elapsed)
    ensures ChunkEvents(chunks, |chunks| - 1, received, None) == EndingEvents(StopEnding(received))
  {
    var n := |chunks| - 1;
    StopStep(chunks, n, received, None);
    NothingRaisedEnding(chunks, received);
    assert n + 1 == |chunks|;
    assert EndingEvents(StopEnding(received)) + [] == EndingEvents(StopEnding(received));
  }

  /** A stop message in time yields its ending and the loop goes on. */
  lemma StopStep(chunks: seq<Chunk>, k: nat, received: bool, failure: Option<Failure>)
    requires k < |chunks| && chunks[k].kind.MessageStop? && !ExceedsBudget(chunks[k].elapsed)
    ensures ChunkEvents(chunks, k, received, failure) ==
      EndingEvents(StopEnding(received)) + ChunkEvents(chunks, k + 1, received, failure)
  {
  }

  /** Such a stream keeps the protocol. */
  lemma StopLastIsTerminated(chunks: seq<Chunk>, n: nat)
    requires n + 1 == |chunks| && Quiet(chunks, 0, n)
    requires chunks[n].kind.MessageStop? && !ExceedsBudget(chunks[n].elapsed)
    ensures ProperlyTerminated(StreamEvents(true, Opened(chunks, None)))
  {
    var texts := DeltaTexts(chunks, 0, n);
    StopLastShape(chunks, n);
    ShapedIsTerminated(texts, StopEnding(texts != []));
  }

  /** After the last chunk only the raised exception, if any, is left to report. */
  lemma FailureEnding(chunks: seq<Chunk>, received: bool, failure: Option<Failure>)
    ensures ChunkEvents(chunks, |chunks|, received, failure) == EndingEvents(RaisedEnding(failure))
  {
  }

  /** With nothing raised, nothing follows the last chunk. */
  lemma NothingRaisedEnding(chunks: seq<Chunk>, received: bool)
    ensures ChunkEvents(chunks, |chunks|, received, None) == []
  {
  }

  /** A chunk that arrives late ends the stream with the timeout error and no `done`. */
  lemma LateChunkHasNoDone(chunks: seq<Chunk>, k: nat, failure: Option<Failure>)
    requires k < |chunks| && Quiet(chunks, 0, k) && ExceedsBudget(chunks[k].elapsed)
    ensures StreamEvents(true, Opened(chunks, failure)) ==
      ContentEvents(DeltaTexts(chunks, 0, k)) + [Error(StreamTimeoutMessage)]
    ensures Done !in StreamEvents(true, Opened(chunks, failure))
  {
    QuietRun(chunks, 0, k, false, failure);
  }

  /**
   * A stream of quiet chunks with nothing raised has no terminal event at
   * all, and one that raised ends with the message and `done`.
   */
  lemma QuietStreamEnding(chunks: seq<Chunk>, failure: Option<Failure>)
    requires Quiet(chunks, 0, |chunks|)
    ensures StreamEvents(true, Opened(chunks, failure)) == Shaped(DeltaTexts(chunks, 0, |chunks|), RaisedEnding(failure))
  {
    var texts := DeltaTexts(chunks, 0, |chunks|);
    QuietRun(chunks, 0, |chunks|, false, failure);
    FailureEnding(chunks, texts != [], failure);
    OpenedEvents(chunks, failure);
  }

  /** Unconfigured, the adapter yields its one error and no `done`. */
  lemma UnavailableHasNoDone(reply: Reply)
    ensures StreamEvents(false, reply) == [Error(NotConfiguredMessage)]
    ensures ProperlyTerminated(StreamEvents(false, reply)) && Done !in StreamEvents(false, reply)
  {
    FirstTerminalAt([Error(NotConfiguredMessage)], 0);
  }

  /**
   * The loop does not leave at a stop message, so a second one yields a
   * second terminal event: two stop messages and no content give two errors.
   */
  lemma RepeatedStopGivesTwoErrors()
    ensures StreamEvents(true, Opened([Chunk(0, MessageStop), Chunk(0, MessageStop)], None))
      == [Error(EmptyMessage), Error(EmptyMessage)]
    ensures !ProperlyTerminated(StreamEvents(true, Opened([Chunk(0, MessageStop), Chunk(0, MessageStop)], None)))
  {
    var chunks := [Chunk(0, MessageStop), Chunk(0, MessageStop)];
    assert ChunkEvents(chunks, 2, false, None) == [];
    assert ChunkEvents(chunks, 1, false, None) == [Error(EmptyMessage)];
    FirstTerminalAt([Error(EmptyMessage), Error(EmptyMessage)], 0);
  }

  /**
   * The adapter as written. Its client is the synchronous one, so creating
   * the message stream sends the request there and then and returns a
   * stream object that cannot be awaited. `createFailure` is the exception
   * the request raised, if any. When it raised none, awaiting the result
   * raises instead, and the catch-all reports the unexpected issue.
   */
  function StreamEventsAsWritten(available: bool, createFailure: Option<Failure>): seq<Event> {
    if !available then [Error(NotConfiguredMessage)]
    else if createFailure.Some? then [Error(FailureMessage(createFailure.value)), Done]
    else [Error(UnexpectedMessage), Done]
  }

  /** As written, a configured adapter never yields content: every call is one error and `done`. */
  lemma SyncClientNeverStreams(createFailure: Option<Failure>)
    ensures var events := StreamEventsAsWritten(true, createFailure);
      && |events| == 2 && events[0].Error? && events[1] == Done
      && ProperlyTerminated(events)
      && forall i :: 0 <= i < |events| ==> !events[i].Content?
  {
    FirstTerminalAt(StreamEventsAsWritten(true, createFailure), 0);
  }

  /**
   * One delta and a stop message: with a stream that can be awaited the
   * adapter yields the text and `done`, while as written the same
   * successful request yields the unexpected-issue error.
   */
  lemma SyncClientLosesReply()
    ensures StreamEvents(true, Opened([Chunk(0, ContentBlockDelta(Some("a"))), Chunk(0, MessageStop)], None))
      == [Content("a"), Done]
    ensures StreamEventsAsWritten(true, None) == [Error(UnexpectedMessage), Done]
  {
    var chunks := [Chunk(0, ContentBlockDelta(Some("a"))), Chunk(0, MessageStop)];
    assert ChunkEvents(chunks, 2, true, None) == [];
    assert ChunkEvents(chunks, 1, true, None) == [Done];
  }
}
