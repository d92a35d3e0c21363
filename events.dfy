/**
 * The event protocol every provider adapter speaks: a stream of `content`
 * chunks ended by an `error`, a `done`, or an `error` and then a `done`;
 * and the three-minute budget the adapters measure elapsed time against.
 */
module Events {

  /** One dictionary yielded by a `generate_stream`: `{"content": …}`, `{"error": …}` or `{"done": True}`. */
  datatype Event = Content(text: string) | Error(message: string) | Done

  /** How a stream ends after its content chunks. */
  datatype Ending = EndsDone | EndsError(message: string) | EndsErrorThenDone(message: string) | Unterminated

  /** One content event per text, in order. */
  function ContentEvents(texts: seq<string>): (r: seq<Event>)
    ensures |r| == |texts|
    ensures forall i :: 0 <= i < |r| ==> r[i] == Content(texts[i])
  {
    seq(|texts|, i requires 0 <= i < |texts| => Content(texts[i]))
  }

  /** One more text is one more content event at the end. */
  lemma ContentEventsSnoc(texts: seq<string>, t: string)
    ensures ContentEvents(texts + [t]) == ContentEvents(texts) + [Content(t)]
  {
  }

  /** The events an ending contributes. */
  function EndingEvents(e: Ending): seq<Event> {
    match e
    case EndsDone => [Done]
    case EndsError(m) => [Error(m)]
    case EndsErrorThenDone(m) => [Error(m), Done]
    case Unterminated => []
  }

  /** The events of a stream made of `texts` and then `e`. */
  function Shaped(texts: seq<string>, e: Ending): seq<Event> {
    ContentEvents(texts) + EndingEvents(e)
  }

  /** Position of the first event that is not content, or the length when there is none. */
  function FirstTerminal(events: seq<Event>): (k: nat)
    ensures k <= |events|
    ensures forall i :: 0 <= i < k ==> events[i].Content?
    ensures k < |events| ==> !events[k].Content?
  {
    if |events| == 0 || !events[0].Content? then 0 else 1 + FirstTerminal(events[1..])
  }

  /**
   * A stream that keeps the protocol: after its content it ends with exactly
   * one `done`, exactly one error, or one error followed by one `done`, and
   * nothing follows.
   */
  predicate ProperlyTerminated(events: seq<Event>) {
    var tail := events[FirstTerminal(events)..];
    || tail == [Done]
    || (|tail| == 1 && tail[0].Error?)
    || (|tail| == 2 && tail[0].Error? && tail[1] == Done)
  }

  /** The texts of the content events of `events`, in order. */
  function TextsOf(events: seq<Event>): (r: seq<string>)
    ensures |r| <= |events|
    decreases |events|
  {
    if |events| == 0 then []
    else if events[|events| - 1].Content? then TextsOf(events[..|events| - 1]) + [events[|events| - 1].text]
    else TextsOf(events[..|events| - 1])
  }

  /**
   * A stream built from texts and an ending other than "no ending" keeps the
   * protocol, and its content events are exactly the texts.
   */
  lemma {:induction false} ShapedIsTerminated(texts: seq<string>, e: Ending)
    requires !e.Unterminated?
    ensures FirstTerminal(Shaped(texts, e)) == |texts|
    ensures ProperlyTerminated(Shaped(texts, e))
  {
    var s := Shaped(texts, e);
    assert s[|texts|..] == EndingEvents(e);
    FirstTerminalAt(s, |texts|);
  }

  /** A stream that has no ending is all content and so breaks the protocol. */
  lemma UnterminatedIsOpen(texts: seq<string>)
    ensures !ProperlyTerminated(Shaped(texts, Unterminated))
  {
    var s := Shaped(texts, Unterminated);
    assert s == ContentEvents(texts);
    FirstTerminalAt(s, |texts|);
  }

  /** The first non-content position is the one the content run stops at. */
  lemma {:induction false} FirstTerminalAt(events: seq<Event>, k: nat)
    requires k <= |events|
    requires forall i :: 0 <= i < k ==> events[i].Content?
    requires k < |events| ==> !events[k].Content?
    ensures FirstTerminal(events) == k
    decreases k
  {
    if k > 0 {
      FirstTerminalAt(events[1..], k - 1);
    }
  }

  /** The content texts of a shaped stream are its texts. */
  lemma {:induction false} TextsOfContent(texts: seq<string>)
    ensures TextsOf(ContentEvents(texts)) == texts
    decreases |texts|
  {
    if |texts| > 0 {
      var init := texts[..|texts| - 1];
      assert ContentEvents(texts)[..|texts| - 1] == ContentEvents(init);
      TextsOfContent(init);
    }
  }

  /** Time each adapter allows, in seconds, before it reports a timeout. */
  const TimeBudget: nat := 180

  /** An elapsed time (whole seconds since the request started) that is over the budget. */
  predicate ExceedsBudget(elapsed: nat) {
    elapsed > TimeBudget
  }

  /**
   * The budget check as the code writes it: `timedelta.seconds` is only the
   * seconds field of the difference, which leaves out whole days.
   */
  predicate ExceedsBudgetAsWritten(elapsed: nat) {
    elapsed % 86400 > TimeBudget
  }

  /** The two checks agree on any elapsed time below one day. */
  lemma BudgetChecksAgreeWithinADay(elapsed: nat)
    requires elapsed < 86400
    ensures ExceedsBudget(elapsed) <==> ExceedsBudgetAsWritten(elapsed)
  {
  }

  /** One day and ten seconds after the start, the check as written does not see the overrun. */
  lemma BudgetCheckAsWrittenMissesWholeDays()
    ensures ExceedsBudget(86410) && !ExceedsBudgetAsWritten(86410)
  {
  }
}
