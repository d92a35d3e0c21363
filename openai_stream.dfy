/**
 * `OpenAIProvider.generate_stream` over an abstract reply: the chunks the
 * chat-completions stream delivered, each with the whole seconds elapsed
 * since the request started when it arrived, and the exception (if any)
 * the client raised after them.
 */
module OpenAIStream {
  import opened Wrappers
  import opened Text
  import opened Events

  /** One streamed chunk: `choices[0].delta.content` is None or a string, possibly empty. */
  datatype Chunk = Chunk(elapsed: nat, content: Option<string>)

  /** The exception kinds the adapter tells apart; `APIError` carries `str(e)`. */
  datatype Failure =
    | AuthenticationError
    | RateLimitError
    | APITimeoutError
    | NotFoundError
    | APIError(text: string)
    | UnexpectedError

  const NotConfiguredMessage: string := "\U{1F511} OpenAI is not configured. Please add your API key to continue."
  const TimeoutMessage: string := "\U{23F0} The AI oracle is taking too long to respond. Please try again with a shorter request."
  const EmptyMessage: string := "\U{1F914} The AI oracle returned an empty response. Please try rephrasing your request."
  const AuthenticationMessage: string := "\U{1F510} Invalid OpenAI API key. Please check your credentials in the .env file."
  const RateLimitMessage: string :=
    "\U{1F6A6} Too many requests to OpenAI right now! Try waiting a moment, or switch to Ollama or Claude for instant results. \U{2728} All our AI oracles craft equally magical adventures!"
  const RequestTimedOutMessage: string := "\U{23F0} OpenAI request timed out. Please try again."
  const ModelNotFoundMessage: string := "\U{1F916} The AI model is currently unavailable. Please try again later."
  const QuotaMessage: string :=
    "\U{1F4B3} OpenAI account has reached its usage limit. Please check your billing settings or try another provider."
  const ApiIssueMessage: string := "\U{274C} OpenAI API encountered an issue. Please try again or use another AI oracle."
  const UnexpectedMessage: string :=
    "\U{274C} The AI oracle encountered an unexpected issue. Please try again or contact support if the problem persists."

  /** The `APIError` text that selects the quota message. */
  predicate MentionsQuota(text: string) {
    Contains(text, "insufficient_quota") || Contains(Lower(text), "quota")
  }

  /** The message each `except` clause yields. */
  function FailureMessage(f: Failure): string {
    match f
    case AuthenticationError => AuthenticationMessage
    case RateLimitError => RateLimitMessage
    case APITimeoutError => RequestTimedOutMessage
    case NotFoundError => ModelNotFoundMessage
    case APIError(text) => if MentionsQuota(text) then QuotaMessage else ApiIssueMessage
    case UnexpectedError => UnexpectedMessage
  }

  /**
   * The test for "insufficient_quota" is subsumed by the case-insensitive
   * test for "quota": the quota message is chosen exactly when the lower-cased
   * error text contains "quota".
   */
  lemma QuotaMessageIffQuota(text: string)
    ensures FailureMessage(APIError(text)) == QuotaMessage <==> Contains(Lower(text), "quota")
  {
    assert QuotaMessage != ApiIssueMessage by {
      assert |QuotaMessage| != |ApiIssueMessage|;
    }
    if Contains(text, "insufficient_quota") {
      var i :| 0 <= i <= |text| && OccursAt(text, "insufficient_quota", i);
      assert i + 18 <= |text|;
      var lt := Lower(text);
      forall k | 0 <= k < 5
        ensures lt[i + 13 + k] == "quota"[k]
      {
        assert text[i + 13 + k] == "insufficient_quota"[13 + k];
      }
      assert lt[i + 13..i + 18] == "quota";
      assert OccursAt(lt, "quota", i + 13);
    }
  }

  /** Position of the first chunk that arrives over the time budget, or the length when none does. */
  function StopIndex(chunks: seq<Chunk>): (k: nat)
    ensures k <= |chunks|
    ensures forall i :: 0 <= i < k ==> !ExceedsBudget(chunks[i].elapsed)
    ensures k < |chunks| ==> ExceedsBudget(chunks[k].elapsed)
  {
    if |chunks| == 0 || ExceedsBudget(chunks[0].elapsed) then 0 else 1 + StopIndex(chunks[1..])
  }

  /** The texts of the chunks that carry content, in order; an empty string is content too. */
  function ChunkTexts(chunks: seq<Chunk>): seq<string>
    decreases |chunks|
  {
    if |chunks| == 0 then []
    else
      var c := chunks[|chunks| - 1];
      ChunkTexts(chunks[..|chunks| - 1]) + (if c.content.Some? then [c.content.value] else [])
  }

  /** The texts up to one more chunk: that chunk's content, if any, comes last. */
  lemma ChunkTextsStep(chunks: seq<Chunk>, i: nat)
    requires i < |chunks|
    ensures ChunkTexts(chunks[..i + 1]) ==
      ChunkTexts(chunks[..i]) + (if chunks[i].content.Some? then [chunks[i].content.value] else [])
  {
    assert chunks[..i + 1][..i] == chunks[..i];
  }

  /** How the stream ends once the adapter is configured. */
  function StreamEnding(chunks: seq<Chunk>, failure: Option<Failure>): Ending {
    if StopIndex(chunks) < |chunks| then EndsErrorThenDone(TimeoutMessage)
    else if failure.Some? then EndsErrorThenDone(FailureMessage(failure.value))
    else if ChunkTexts(chunks) != [] then EndsDone
    else EndsError(EmptyMessage)
  }

  /** The events the adapter yields. */
  function StreamEvents(available: bool, chunks: seq<Chunk>, failure: Option<Failure>): seq<Event> {
    if !available then [Error(NotConfiguredMessage), Done]
    else Shaped(ChunkTexts(chunks[..StopIndex(chunks)]), StreamEnding(chunks, failure))
  }

  /** `generate_stream`: the loop over the chunks with its `content_received` flag. */
  method GenerateStream(available: bool, chunks: seq<Chunk>, failure: Option<Failure>)
    returns (events: seq<Event>)
    ensures events == StreamEvents(available, chunks, failure)
  {
    if !available {
      return [Error(NotConfiguredMessage), Done];
    }
    events := [];
    var contentReceived := false;
    for i := 0 to |chunks|
      invariant i <= StopIndex(chunks)
      invariant events == ContentEvents(ChunkTexts(chunks[..i]))
      invariant contentReceived <==> ChunkTexts(chunks[..i]) != []
    {
      ChunkTextsStep(chunks, i);
      if ExceedsBudget(chunks[i].elapsed) {
        assert StopIndex(chunks) == i;
        assert StreamEnding(chunks, failure) == EndsErrorThenDone(TimeoutMessage);
        events := events + EndingEvents(EndsErrorThenDone(TimeoutMessage));
        return;
      }
      if chunks[i].content.Some? {
        ContentEventsSnoc(ChunkTexts(chunks[..i]), chunks[i].content.value);
        contentReceived := true;
        events := events + [Content(chunks[i].content.value)];
      }
    }
    assert chunks[..|chunks|] == chunks;
    ghost var ending := StreamEnding(chunks, failure);
    if failure.Some? {
      assert ending == EndsErrorThenDone(FailureMessage(failure.value));
      events := events + [Error(FailureMessage(failure.value)), Done];
    } else if contentReceived {
      assert ending == EndsDone;
      events := events + [Done];
    } else {
      assert ending == EndsError(EmptyMessage);
      events := events + [Error(EmptyMessage)];
    }
    assert events == Shaped(ChunkTexts(chunks), ending);
  }

  /** There is a text for a chunk exactly when some chunk carries content. */
  lemma {:induction false} ChunkTextsEmpty(chunks: seq<Chunk>)
    ensures ChunkTexts(chunks) == [] <==> forall i :: 0 <= i < |chunks| ==> chunks[i].content.None?
    decreases |chunks|
  {
    if |chunks| > 0 {
      var init := chunks[..|chunks| - 1];
      ChunkTextsEmpty(init);
      assert forall i :: 0 <= i < |init| ==> init[i] == chunks[i];
    }
  }

  /**
   * Whatever happens, the stream keeps the protocol (content, then one
   * `done`, one error, or an error and a `done`), and when the adapter is
   * configured its content events are the chunk texts before the first late
   * chunk, in order.
   */
  lemma StreamAlwaysTerminated(available: bool, chunks: seq<Chunk>, failure: Option<Failure>)
    ensures ProperlyTerminated(StreamEvents(available, chunks, failure))
    ensures available ==>
      TextsOf(StreamEvents(available, chunks, failure)) == ChunkTexts(chunks[..StopIndex(chunks)])
  {
    if available {
      var texts := ChunkTexts(chunks[..StopIndex(chunks)]);
      var e := StreamEnding(chunks, failure);
      ShapedIsTerminated(texts, e);
      ShapedTexts(texts, e);
    } else {
      FirstTerminalAt([Error(NotConfiguredMessage), Done], 0);
    }
  }

  /** The content texts of a shaped stream are its texts. */
  lemma ShapedTexts(texts: seq<string>, e: Ending)
    ensures TextsOf(Shaped(texts, e)) == texts
  {
    var s := Shaped(texts, e);
    TextsOfContent(texts);
    if e.EndsDone? || e.EndsError? {
      assert s[..|s| - 1] == ContentEvents(texts);
    } else if e.EndsErrorThenDone? {
      assert s[..|s| - 1][..|s| - 2] == ContentEvents(texts);
    } else {
      assert s == ContentEvents(texts);
    }
  }

  /**
   * A configured stream that runs to its end without a late chunk or an
   * exception ends with `done` exactly when some chunk carried content;
   * otherwise it is the single "empty response" error.
   */
  lemma CompletedStreamDoneIffContent(chunks: seq<Chunk>)
    requires forall i :: 0 <= i < |chunks| ==> !ExceedsBudget(chunks[i].elapsed)
    ensures var events := StreamEvents(true, chunks, None);
      && (events[|events| - 1] == Done <==> exists i :: 0 <= i < |chunks| && chunks[i].content.Some?)
      && ((forall i :: 0 <= i < |chunks| ==> chunks[i].content.None?) ==> events == [Error(EmptyMessage)])
  {
    assert chunks[..StopIndex(chunks)] == chunks;
    ChunkTextsEmpty(chunks);
  }

  /**
   * Once a chunk arrives late nothing else matters: the chunks after it and
   * any exception that would have followed change nothing, and the last two
   * events are the timeout error and `done`.
   */
  lemma {:induction false} LateChunkEndsStream(chunks: seq<Chunk>, rest: seq<Chunk>, f: Option<Failure>, g: Option<Failure>)
    requires exists i :: 0 <= i < |chunks| && ExceedsBudget(chunks[i].elapsed)
    ensures StreamEvents(true, chunks + rest, f) == StreamEvents(true, chunks, g)
    ensures var events := StreamEvents(true, chunks, g);
      events[|events| - 2..] == [Error(TimeoutMessage), Done]
  {
    var k := StopIndex(chunks);
    StopIndexOfExtension(chunks, rest);
    assert (chunks + rest)[..k] == chunks[..k];
  }

  /** A late chunk among the first ones is still the first late chunk of a longer reply. */
  lemma {:induction false} StopIndexOfExtension(chunks: seq<Chunk>, rest: seq<Chunk>)
    requires exists i :: 0 <= i < |chunks| && ExceedsBudget(chunks[i].elapsed)
    ensures StopIndex(chunks + rest) == StopIndex(chunks) < |chunks|
    decreases |chunks|
  {
    if !ExceedsBudget(chunks[0].elapsed) {
      assert (chunks + rest)[1..] == chunks[1..] + rest;
      var i :| 0 <= i < |chunks| && ExceedsBudget(chunks[i].elapsed);
      assert chunks[1..][i - 1] == chunks[i];
      StopIndexOfExtension(chunks[1..], rest);
    }
  }

  /** A configured adapter whose client raised maps every exception to its message, then `done`. */
  lemma FailureEndsWithMessage(chunks: seq<Chunk>, f: Failure)
    requires forall i :: 0 <= i < |chunks| ==> !ExceedsBudget(chunks[i].elapsed)
    ensures var events := StreamEvents(true, chunks, Some(f));
      events[|events| - 2..] == [Error(FailureMessage(f)), Done]
  {
  }
}
