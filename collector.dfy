/**
 * `collect_provider_response`: read a provider's event stream and fold it
 * into one string.
 */
module Collector {
  import opened Text
  import opened Events

  /**
   * What collecting a stream returns: "Error: " and the message when the
   * first event that is not content is an error; otherwise the content
   * texts before that event (a `done`, or the end of the stream), joined in
   * order. Content before an error is discarded and nothing after the first
   * terminal event is looked at.
   */
  function CollectedResponse(events: seq<Event>): string {
    var k := FirstTerminal(events);
    if k < |events| && events[k].Error? then "Error: " + events[k].message
    else Join(TextsOf(events[..k]), "")
  }

  /** The loop of `collect_provider_response`, which appends to `content_parts`. */
  method CollectProviderResponse(events: seq<Event>) returns (r: string)
    ensures r == CollectedResponse(events)
  {
    var contentParts: seq<string> := [];
    var i := 0;
    while i < |events|
      invariant i <= FirstTerminal(events)
      invariant contentParts == TextsOf(events[..i])
    {
      var event := events[i];
      if event.Content? {
        assert events[..i + 1][..i] == events[..i];
        contentParts := contentParts + [event.text];
      } else if event.Error? {
        return "Error: " + event.message;
      } else {
        break;
      }
      i := i + 1;
    }
    r := Join(contentParts, "");
  }

  /** Joining with no separator is concatenation, so it distributes over `+`. */
  lemma {:induction false} JoinConcat(xs: seq<string>, ys: seq<string>)
    ensures Join(xs + ys, "") == Join(xs, "") + Join(ys, "")
    decreases |xs|
  {
    if |xs| == 0 {
      assert xs + ys == ys;
    } else if |xs| == 1 {
      if |ys| > 0 {
        assert (xs + ys)[1..] == ys;
      } else {
        assert xs + ys == xs;
      }
    } else {
      assert (xs + ys)[1..] == xs[1..] + ys;
      JoinConcat(xs[1..], ys);
    }
  }

  /** A stream of content then `done` collects to the texts in order; what follows the `done` is ignored. */
  lemma CollectStopsAtDone(texts: seq<string>, rest: seq<Event>)
    ensures CollectedResponse(ContentEvents(texts) + [Done] + rest) == Join(texts, "")
  {
    var s := ContentEvents(texts) + [Done] + rest;
    FirstTerminalAt(s, |texts|);
    assert s[..|texts|] == ContentEvents(texts);
    TextsOfContent(texts);
  }

  /** The first error wins: earlier content is discarded and later events are ignored. */
  lemma CollectFirstError(texts: seq<string>, m: string, rest: seq<Event>)
    ensures CollectedResponse(ContentEvents(texts) + [Error(m)] + rest) == "Error: " + m
  {
    FirstTerminalAt(ContentEvents(texts) + [Error(m)] + rest, |texts|);
  }

  /** A stream that ends with no terminal event collects all of its content. */
  lemma CollectAllContent(texts: seq<string>)
    ensures CollectedResponse(ContentEvents(texts)) == Join(texts, "")
  {
    FirstTerminalAt(ContentEvents(texts), |texts|);
    assert ContentEvents(texts)[..|texts|] == ContentEvents(texts);
    TextsOfContent(texts);
  }

  /** Collecting a shaped stream: content joined, unless its ending starts with an error. */
  lemma CollectShaped(texts: seq<string>, e: Ending)
    ensures CollectedResponse(Shaped(texts, e)) ==
      if e.EndsError? || e.EndsErrorThenDone? then "Error: " + e.message else Join(texts, "")
  {
    var c := ContentEvents(texts);
    if e.EndsDone? {
      assert Shaped(texts, e) == c + [Done] + [];
      CollectStopsAtDone(texts, []);
    } else if e.EndsError? {
      assert Shaped(texts, e) == c + [Error(e.message)] + [];
      CollectFirstError(texts, e.message, []);
    } else if e.EndsErrorThenDone? {
      assert Shaped(texts, e) == c + [Error(e.message)] + [Done];
      CollectFirstError(texts, e.message, [Done]);
    } else {
      assert Shaped(texts, e) == c;
      CollectAllContent(texts);
    }
  }

  /** Two chunks and a `done` collect to the two texts side by side. */
  lemma CollectTwoChunks()
    ensures CollectedResponse([Content("a"), Content("b"), Done, Content("c")]) == "ab"
  {
    assert [Content("a"), Content("b"), Done, Content("c")] == ContentEvents(["a", "b"]) + [Done] + [Content("c")];
    CollectStopsAtDone(["a", "b"], [Content("c")]);
  }

  /** A chunk followed by an error collects to the error alone. */
  lemma CollectErrorAfterChunk()
    ensures CollectedResponse([Content("a"), Error("x"), Done]) == "Error: x"
  {
    assert [Content("a"), Error("x"), Done] == ContentEvents(["a"]) + [Error("x")] + [Done];
    CollectFirstError(["a"], "x", [Done]);
  }
}
