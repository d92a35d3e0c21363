/**
 * The request handlers of the web application: the comparison endpoint
 * (prompt inputs, provider selection, the fan-in stream) and the booking
 * endpoint (status decision). The prompt templates live in the
 * configuration and are passed in as functions; each adapter's reply to a
 * prompt is passed in as the events its stream yields, or the text of an
 * exception that escaped it.
 */
module App {
  import opened Text
  import opened Seqs
  import opened Events
  import opened Models
  import opened Registry
  import opened Collector
  import opened FanIn

  /** `f"{days} days"`: the number as `str` writes it, then " days". */
  function DurationText(days: int): (r: string)
    ensures DurationShape(r, days)
  {
    var n := IntToString(days);
    var r := n + " days";
    assert r[..|r| - 5] == n;
    assert days < 0 ==> r[1..|r| - 5] == n[1..];
    r
  }

  /**
   * A text that reads as `days` days: the canonical decimal digits of the
   * number (after a minus sign when it is negative), then " days".
   */
  predicate DurationShape(r: string, days: int) {
    && |r| >= 6 && r[|r| - 5..] == " days"
    && (days >= 0 ==> Canonical(r[..|r| - 5]) && DecimalValue(r[..|r| - 5]) == days)
    && (days < 0 ==> r[0] == '-' && Canonical(r[1..|r| - 5]) && DecimalValue(r[1..|r| - 5]) == -days)
  }

  /** Only one text has that shape, so the duration text is exactly `str(days) + " days"`. */
  lemma DurationTextUnique(days: int, r: string)
    requires DurationShape(r, days)
    ensures r == DurationText(days)
  {
    var d := DurationText(days);
    DurationSplits(r);
    DurationSplits(d);
    if days >= 0 {
      CanonicalUnique(r[..|r| - 5], d[..|d| - 5]);
    } else {
      CanonicalUnique(r[1..|r| - 5], d[1..|d| - 5]);
    }
  }

  /** A text ending in " days" is its number part followed by " days", the sign part included. */
  lemma DurationSplits(r: string)
    requires |r| >= 6 && r[|r| - 5..] == " days"
    ensures r == r[..|r| - 5] + " days"
    ensures r[0] == '-' ==> r == "-" + r[1..|r| - 5] + " days"
  {
    assert r == r[..|r| - 5] + r[|r| - 5..];
    if r[0] == '-' {
      assert r[..|r| - 5] == "-" + r[1..|r| - 5];
    }
  }

  /** The interests joined by ", ", or "general adventure" when there are none. */
  function InterestsText(interests: seq<string>): string {
    if interests != [] then Join(interests, ", ") else "general adventure"
  }

  /**
   * The interests text lists the interests in order: a single interest is
   * itself, and one more interest adds ", " and that interest at the end.
   */
  lemma InterestsTextLists(interests: seq<string>, y: string)
    ensures InterestsText([]) == "general adventure"
    ensures InterestsText([y]) == y
    ensures interests != [] ==> InterestsText(interests + [y]) == InterestsText(interests) + ", " + y
  {
    if interests != [] {
      JoinSnoc(interests, y, ", ");
    }
  }

  /** A provider the comparison endpoint keeps: registered and available. */
  predicate Selectable(reg: Providers, p: string) {
    p in reg && reg[p].available
  }

  /** `requested_providers`: the requested keys that are registered and available, in order, duplicates kept. */
  function RequestedProviders(requested: seq<string>, reg: Providers): (r: seq<string>)
    ensures |r| <= |requested|
    ensures forall i :: 0 <= i < |r| ==> r[i] in requested && Selectable(reg, r[i])
    ensures forall i :: 0 <= i < |requested| && Selectable(reg, requested[i]) ==> requested[i] in r
  {
    Filter(requested, p => Selectable(reg, p))
  }

  /** The selection works entry by entry: selecting from a concatenation concatenates the selections. */
  lemma SelectionKeepsOrder(a: seq<string>, b: seq<string>, reg: Providers)
    ensures RequestedProviders(a + b, reg) == RequestedProviders(a, reg) + RequestedProviders(b, reg)
  {
    FilterConcat(a, b, p => Selectable(reg, p));
  }

  /** An available provider requested twice is selected twice. */
  lemma SelectionKeepsDuplicates(requested: seq<string>, reg: Providers, p: string)
    requires Selectable(reg, p)
    ensures RequestedProviders(requested + [p, p], reg) == RequestedProviders(requested, reg) + [p, p]
  {
    SelectionKeepsOrder(requested, [p, p], reg);
    FilterAll([p, p], q => Selectable(reg, q));
  }

  /** The selection is empty exactly when no requested key is registered and available. */
  lemma SelectionEmptyIff(requested: seq<string>, reg: Providers)
    ensures RequestedProviders(requested, reg) == [] <==>
      forall i :: 0 <= i < |requested| ==> !Selectable(reg, requested[i])
  {
    FilterEmpty(requested, p => Selectable(reg, p));
  }

  /** When every requested key is registered and available, the request is kept as it is. */
  lemma SelectionOfAvailable(requested: seq<string>, reg: Providers)
    requires forall i :: 0 <= i < |requested| ==> Selectable(reg, requested[i])
    ensures RequestedProviders(requested, reg) == requested
  {
    FilterAll(requested, p => Selectable(reg, p));
  }

  /** What calling an adapter with a prompt gives: the events it streamed, or an exception that escaped it. */
  datatype Reply = Streamed(events: seq<Event>) | Failed(message: string)

  /** The outcome of a collection task: the collected string, or the exception's text. */
  function TaskOutcomeOf(reply: Reply): (o: TaskOutcome)
    ensures reply.Streamed? <==> o.Returned?
    ensures reply.Streamed? ==> o.result == CollectedResponse(reply.events)
    ensures reply.Failed? ==> o.message == reply.message
  {
    match reply
    case Streamed(events) => Returned(CollectedResponse(events))
    case Failed(message) => Raised(message)
  }

  /** The outcome of each provider's task for one prompt. */
  function Outcomes(replies: (string, string) -> Reply, prompt: string): string -> TaskOutcome {
    k => TaskOutcomeOf(replies(k, prompt))
  }

  const NoProvidersError: string := "No available providers selected"

  /** The prompt of a comparison request. */
  function ComparisonPrompt(request: TravelRequest, template: (string, string, string, string) -> string): string {
    template(request.destination, DurationText(request.days), request.budget, InterestsText(request.interests))
  }

  /** The events of a comparison request. */
  function ComparisonEvents(request: TravelRequest, reg: Providers, template: (string, string, string, string) -> string,
                            replies: (string, string) -> Reply, finish: string -> nat): seq<SessionEvent>
  {
    var selected := RequestedProviders(request.providers, reg);
    if selected == [] then [RequestError(NoProvidersError)]
    else SessionEvents(selected, Outcomes(replies, ComparisonPrompt(request, template)), finish)
  }

  /** `generate_comparison`: build the prompt, select the providers, and stream. */
  method GenerateComparison(request: TravelRequest, reg: Providers, template: (string, string, string, string) -> string,
                            replies: (string, string) -> Reply, finish: string -> nat)
    returns (events: seq<SessionEvent>)
    ensures events == ComparisonEvents(request, reg, template, replies, finish)
  {
    var prompt := ComparisonPrompt(request, template);
    var selected := RequestedProviders(request.providers, reg);
    if selected == [] {
      return [RequestError(NoProvidersError)];
    }
    events := ComparisonStream(selected, Outcomes(replies, prompt), finish);
  }

  /** A comparison is the single error event exactly when no requested provider is selectable. */
  lemma EmptySelectionIsError(request: TravelRequest, reg: Providers, template: (string, string, string, string) -> string,
                              replies: (string, string) -> Reply, finish: string -> nat)
    ensures ComparisonEvents(request, reg, template, replies, finish) == [RequestError(NoProvidersError)] <==>
      forall i :: 0 <= i < |request.providers| ==> !Selectable(reg, request.providers[i])
  {
    SelectionEmptyIff(request.providers, reg);
    var selected := RequestedProviders(request.providers, reg);
    if selected != [] {
      var e := ComparisonEvents(request, reg, template, replies, finish);
      SessionShape(selected, Outcomes(replies, ComparisonPrompt(request, template)), finish);
      assert e[0] != RequestError(NoProvidersError);
    }
  }

  /**
   * Otherwise the comparison starts with the selection and ends with
   * `done`, and between them is one report per distinct selected provider
   * (`FanIn.AllReportedOnce`, `ReportCarriesCollectedReply`).
   */
  lemma ComparisonShape(request: TravelRequest, reg: Providers, template: (string, string, string, string) -> string,
                        replies: (string, string) -> Reply, finish: string -> nat)
    requires RequestedProviders(request.providers, reg) != []
    ensures var selected := RequestedProviders(request.providers, reg);
      var e := ComparisonEvents(request, reg, template, replies, finish);
      && e[0] == ProviderList(selected) && e[|e| - 1] == AllDone
      && |e| == |Elements(selected)| + 2
  {
    var selected := RequestedProviders(request.providers, reg);
    var e := ComparisonEvents(request, reg, template, replies, finish);
    var outcome := Outcomes(replies, ComparisonPrompt(request, template));
    assert e == SessionEvents(selected, outcome, finish);
    SessionShape(selected, outcome, finish);
  }

  /** Each reported provider's event carries the collected form of its reply to the prompt. */
  lemma ReportCarriesCollectedReply(request: TravelRequest, reg: Providers, template: (string, string, string, string) -> string,
                                    replies: (string, string) -> Reply, finish: string -> nat)
    requires RequestedProviders(request.providers, reg) != []
    ensures var order := Dedup(RequestedProviders(request.providers, reg));
      var keys := EmittedKeys(order, finish, Horizon(order, finish));
      var e := ComparisonEvents(request, reg, template, replies, finish);
      forall i :: 0 <= i < |keys| ==>
        && e[i + 1].provider == keys[i]
        && (replies(keys[i], ComparisonPrompt(request, template)).Streamed? ==>
              e[i + 1] == ProviderResult(keys[i], CollectedResponse(replies(keys[i], ComparisonPrompt(request, template)).events)))
        && (replies(keys[i], ComparisonPrompt(request, template)).Failed? ==>
              e[i + 1] == ProviderError(keys[i], replies(keys[i], ComparisonPrompt(request, template)).message))
  {
    var selected := RequestedProviders(request.providers, reg);
    SessionShape(selected, Outcomes(replies, ComparisonPrompt(request, template)), finish);
  }

  /** The answer of the booking endpoint. */
  datatype BookingResponse = Booked(message: string, provider: string) | Refused(status: nat, error: string)

  const InvalidProviderError: string := "Invalid provider selected"
  const UnavailableProviderError: string := "Selected provider is not available"
  const VanishedError: string := "The oracle seems to have vanished into the mist..."

  /**
   * `generate_booking_response`: an empty or unknown key is a bad request,
   * an unavailable provider is unavailable, and otherwise the provider's
   * reply to the farewell prompt is collected; an exception escaping it is
   * an internal error.
   */
  function GenerateBookingResponse(reg: Providers, request: BookingRequest, farewell: string,
                                   replies: (string, string) -> Reply): (r: BookingResponse)
    ensures r == Refused(400, InvalidProviderError) <==> request.provider == "" || request.provider !in reg
    ensures r == Refused(503, UnavailableProviderError) <==>
      request.provider != "" && request.provider in reg && !reg[request.provider].available
    ensures r.Booked? <==> request.provider != "" && Selectable(reg, request.provider) && replies(request.provider, farewell).Streamed?
    ensures r.Booked? ==>
      r.provider == request.provider && r.message == CollectedResponse(replies(request.provider, farewell).events)
    ensures r == Refused(500, VanishedError) <==>
      request.provider != "" && Selectable(reg, request.provider) && replies(request.provider, farewell).Failed?
  {
    var key := request.provider;
    if key == "" || key !in reg then Refused(400, InvalidProviderError)
    else if !reg[key].available then Refused(503, UnavailableProviderError)
    else match replies(key, farewell)
      case Streamed(events) => Booked(CollectedResponse(events), key)
      case Failed(_) => Refused(500, VanishedError)
  }

  /** A booking for a key that is not registered is refused as invalid, whatever the adapters are. */
  lemma BookingWithInvalidProvider(openai: LLMProvider, ollama: LLMProvider, claude: LLMProvider,
                                   farewell: string, replies: (string, string) -> Reply)
    ensures var r := GenerateBookingResponse(GetProviders(openai, ollama, claude),
                                             BookingRequest("invalid_provider", "Test Itinerary"), farewell, replies);
      r.Refused? && r.status == 400 && Contains(r.error, "Invalid provider")
  {
    assert "invalid_provider" !in ProviderKeys;
    assert OccursAt(InvalidProviderError, "Invalid provider", 0);
  }
}
