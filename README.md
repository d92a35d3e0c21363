# Mystical Journeys: a Dafny model of the provider fan-in

Mystical Journeys is a small web application that turns a travel request into
a fantasy itinerary. It asks up to three language-model providers for the
same itinerary and streams their answers to the browser side by side. The
providers are OpenAI, a local Ollama server and Anthropic's Claude.

This project models the core of that application and proves properties about
it:

- **Prompt handling.** The labelled fields are pulled out of a travel prompt
  (`parse_quest_parameters`). The optimised prompt is built from them, or the
  prompt is kept when a field is missing (`get_optimized_prompt`). The reply
  filter (`clean_response_start`) keeps or drops each chunk whole.
- **The three streaming adapters.** Each adapter's `generate_stream` yields
  events of three kinds: `content`, `error` and `done`. Where the SDK or HTTP
  client would produce something, the model takes an abstract reply instead:
  the chunks or lines that arrive, the whole time elapsed since the request
  started at each one (in seconds), and the exception raised, if any. A lemma states for each adapter which event
  sequences it can yield.
- **The registry.** The registry decides whether each adapter is available
  (`get_providers`, and each adapter's constructor). The `/providers` summary
  reports how many are.
- **Folding a stream into one string** (`collect_provider_response`).
- **The comparison endpoint.**
  - The text of the duration and of the interests.
  - The selection of requested providers, with the error when none can be
    selected.
  - The fan-in loop `comparison_stream`, modelled as an object. Its dispatch
    order, task dictionary, completed set and emitted events are updated
    round by round.
- **The booking endpoint's status decision**, and the request models
  `TravelRequest` and `BookingRequest`.

Events are the datatype `Events.Event`. The way an adapter's stream may end
is `Events.Ending`. `Events.ProperlyTerminated` is the protocol the front
end relies on: content, then exactly one `done`, one error, or one error
followed by one `done`.

An asyncio task finishing is modelled by a schedule. `finish(k)` is the
polling round in which provider `k`'s task is first seen done. Each round
walks the dispatch order once, as the `while` loop of `comparison_stream`
does.

Where the code and the documented behaviour disagree, the model follows the
code, except for the three defects listed under "## Findings", where the
adapters and the loop use the corrected definition and the code as written is
modelled beside it:

- `days` is not required to be positive.
- With a placeholder key or a client that failed to build, the OpenAI adapter
  yields an error and then `done`. Ollama and Claude yield only the error.
- Ollama can end its stream with no terminal event at all.
- Claude's loop does not leave at the stop message, so a second stop message
  yields a second terminal event.

## Model

| member | source | states |
|---|---|---|
| Models.TravelRequestDefaults | app/models.py:8-39 | A travel request built from only its required fields gets 5 days, no interests and the providers `openai` and `ollama`. |
| Models.TravelRequestKeepsFields | app/models.py:8-54 | Every field given to a travel request is kept as given, lists in their order. |
| Registry.OpenAIProvider | app/providers.py:235-246 | The OpenAI adapter is available exactly when its key is set, is not empty, is not the sample placeholder, and its client was built. |
| Registry.ClaudeProvider | app/providers.py:518-529 | The Claude adapter is available under the same rule, with its own placeholder. |
| Registry.OllamaProvider | app/providers.py:382-395 | The Ollama adapter is available exactly when the probe of the local server answered 200. |
| Registry.PlaceholderKeyUnavailable | app/providers.py:241-244 | The placeholder keys of the sample configuration never make an adapter available. |
| Registry.GetProviders | app/providers.py:630-636 | The registry has exactly the keys `openai`, `ollama` and `claude`. |
| Registry.AvailableProviders | app/main.py:63-64 | The available entries are exactly the registered entries whose adapter is available, each unchanged. |
| Registry.Summary | app/main.py:246-254 | The `/providers` summary lists every key with its adapter's name and flag, and counts the available entries. |
| Registry.AvailableKeys | app/main.py:64 | The available keys among the three adapters number as many as the adapters whose flag is set. |
| Registry.AvailableCountOfThree | app/main.py:246-254 | The reported count is the number of the three adapters that are available. |
| Registry.AvailableCountBounds | app/main.py:253 | The count is at most the number of keys, and equals it exactly when every adapter is available. |
| Text.FindFrom | app/providers.py:28-36 | The first occurrence of a substring at or after a position, or none when there is no such occurrence. |
| Text.ContainsIff | app/providers.py:28-36 | Containment (`in`) holds exactly when a search finds an occurrence. |
| Text.Lower | app/providers.py:61 | Lower-casing keeps the length and maps each character on its own. |
| Text.LeadingSpaces | app/providers.py:30 | The count of leading whitespace characters: all of them are whitespace and the next one is not. |
| Text.TrailingSpaces | app/providers.py:30 | The same for trailing whitespace. |
| Text.Strip | app/providers.py:30 | `strip()` leaves the part between the leading and the trailing whitespace, which neither starts nor ends with whitespace. |
| Text.WordLength | app/providers.py:147 | The length of the maximal leading run of non-whitespace characters: every character before it is non-whitespace, and the one at it is whitespace. |
| Text.WordCount | app/providers.py:147 | The number of words `split()` finds is zero exactly when the text is all whitespace, and is at most the text's length. |
| Text.WordCountCons | app/providers.py:147 | The word count character by character, which determines it. Leading whitespace adds nothing. A leading non-whitespace character starts a new word unless the rest already starts with one. |
| Text.WordCountSeparated | app/providers.py:147 | Words on either side of a whitespace character are counted separately: the count of `a + c + b` is the count of `a` plus the count of `b`. |
| Text.WordCountOfWord | app/providers.py:147 | A non-empty run of non-whitespace is one word. |
| Text.JoinSnoc | app/main.py:124-128 | Joining one more item appends the separator and that item. |
| Text.IndexOfChar | app/providers.py:25 | The first position of a character, or the length when the character is absent. |
| Text.Split | app/providers.py:25 | Splitting on a character gives at least one piece and no piece contains the character; joining the pieces gives the text back. |
| Text.SplitPieceOccurs | app/providers.py:25-28 | Every piece of a split occurs in the text that was split. |
| Text.JoinPieceOccurs | app/providers.py:25-28 | Every item of a join occurs in the joined text. |
| Text.LastPieceStart | app/providers.py:30 | The position just after the last match that a left-to-right scan without overlaps finds, as `split(sep)` does. It is the start when there is no match, and no match begins at or after it. For the four markers, none of which overlaps itself, that match is the last occurrence. |
| Text.LastPieceFollowsSeparator | app/providers.py:30 | `split(marker)[-1]` is a suffix of the line. It is the whole line when the marker is absent, and otherwise directly follows an occurrence of the marker. |
| Text.LastPieceHasNoSeparator | app/providers.py:30 | `split(marker)[-1]` never contains the marker. |
| Text.NatToString | app/main.py:123 | The decimal text of a natural number: digits only, no leading zero, with that value. |
| Text.IntToString | app/main.py:123 | `str(n)`: the canonical decimal digits of the integer (at least one, no leading zero unless it is 0), after a minus sign when it is negative. |
| Text.LeadingDigitPositive | app/main.py:123 | Digits with a non-zero first digit denote a positive number. |
| Text.CanonicalUnique | app/main.py:123 | A number has exactly one canonical decimal form: two canonical digit strings with equal values are equal. |
| QuestPrompt.CreditedMarker | app/providers.py:28-36 | The marker a line is credited to, when there is one, is one of the four fields. |
| QuestPrompt.StepKeepsKeys | app/providers.py:26-36 | Reading one line keeps the dictionary's four keys. |
| QuestPrompt.ParamsHaveFourKeys | app/providers.py:26-36 | After any number of lines the dictionary has exactly the four keys. |
| QuestPrompt.QuestParameters | app/providers.py:23-38 | The parsed parameters always have exactly the four keys. |
| QuestPrompt.LastCredited | app/providers.py:28-36 | The last line credited to a field is a line of the prompt that is credited to that field. |
| QuestPrompt.LastCreditedIsLast | app/providers.py:28-36 | No later line is credited to the field. There is no such line exactly when no line is credited to it. |
| QuestPrompt.StepValue | app/providers.py:28-36 | A line sets a field exactly when it is credited to that field; every other field keeps its value. |
| QuestPrompt.StepCredited | app/providers.py:28-36 | A credited line sets its field to the stripped text after the marker's last occurrence. |
| QuestPrompt.ParamValueFromLastCreditedLine | app/providers.py:23-38 | Each field's value comes from the last line credited to it, and is empty when there is none. |
| QuestPrompt.ParseQuestParameters | app/providers.py:23-38 | The line-by-line loop computes the parsed parameters, with the four keys. |
| QuestPrompt.GetOptimizedPrompt | app/providers.py:154-189 | The prompt is kept when the destination or the duration is empty. Otherwise the template is filled with the four fields. |
| QuestPrompt.NoRealmMarkerKeepsPrompt | app/providers.py:179-184 | A prompt without the "Mystical Realm:" marker is passed through unchanged. |
| QuestPrompt.CleanResponseStart | app/providers.py:41-151 | A chunk is kept whole or dropped whole. A conversational starter drops it, even when it looks like itinerary or fantasy content. Itinerary or fantasy words keep it. Otherwise it is kept exactly when it is empty or is a short chunk with no meta phrase. |
| QuestPrompt.CleanResponseStartIdempotent | app/providers.py:41-151 | Filtering a filtered chunk changes nothing. |
| Events.ContentEvents | app/providers.py:300-302 | One content event per text, in order. |
| Events.FirstTerminal | app/providers.py:639-650 | The first event that is not content: only content comes before it. |
| Events.TextsOf | app/providers.py:643 | For any events, the texts taken from them are no more than the events. |
| Events.TextsOfContent | app/providers.py:643 | The texts of a run of content events are the texts it was made from. |
| Events.FirstTerminalAt | app/providers.py:639-650 | A position with only content before it and no content at it is the first terminal one. |
| Events.ShapedIsTerminated | app/providers.py:315-324 | Content followed by `done`, an error, or an error and `done` keeps the protocol, and its first terminal event follows the content. |
| Events.UnterminatedIsOpen | app/providers.py:447-490 | Content alone, with no terminal event, does not keep the protocol. |
| Events.BudgetChecksAgreeWithinADay | app/providers.py:289 | Below one day, the budget check as written agrees with the 180-second budget. |
| Events.BudgetCheckAsWrittenMissesWholeDays | app/providers.py:289 | Finding: one day and ten seconds in, the check as written does not see the overrun. |
| OpenAIStream.QuotaMessageIffQuota | app/providers.py:356-361 | An API error gets the usage-limit message exactly when its lower-cased text mentions "quota". |
| OpenAIStream.StopIndex | app/providers.py:285-292 | The loop stops at the first late chunk, or runs to the end when no chunk is late. |
| OpenAIStream.GenerateStream | app/providers.py:248-379 | The adapter's loop, prefix by prefix, yields exactly the stream function's events (unavailable, late chunk, end of chunks, exception). |
| OpenAIStream.ChunkTextsEmpty | app/providers.py:300 | No text is collected exactly when no chunk carries content. |
| OpenAIStream.StreamAlwaysTerminated | app/providers.py:255-379 | Every OpenAI stream keeps the protocol, and its content is the chunk contents before the first late chunk. |
| OpenAIStream.ShapedTexts | app/providers.py:300-324 | The content of a shaped stream is its texts. |
| OpenAIStream.CompletedStreamDoneIffContent | app/providers.py:315-324 | A stream that runs to the end in time ends with `done` exactly when some chunk had content. With no content it is the single empty-response error. |
| OpenAIStream.LateChunkEndsStream | app/providers.py:289-292 | After a late chunk nothing more is read: later chunks and the exception make no difference, and the stream ends with the timeout error and `done`. |
| OpenAIStream.StopIndexOfExtension | app/providers.py:289-292 | Chunks after a late one do not move the stopping point. |
| OpenAIStream.FailureEndsWithMessage | app/providers.py:326-379 | An exception after chunks that arrived in time ends the stream with its message and `done`. |
| OllamaStream.StopIndex | app/providers.py:447-490 | The first frame that ends the loop, or the end: late, crashing, or a `done` object. |
| OllamaStream.StopFrom | app/providers.py:447-490 | The same, searching from a position. |
| OllamaStream.NoStopFromBefore | app/providers.py:447-490 | No frame before the stopping point, from that position on, ends the loop. |
| OllamaStream.NoStopBefore | app/providers.py:447-490 | No frame before the stopping point ends the loop. |
| OllamaStream.StopIndexIs | app/providers.py:447-490 | A frame that ends the loop, with none before it that does, is the stopping point. |
| OllamaStream.Processed | app/providers.py:447-490 | The loop reads at most every frame. |
| OllamaStream.GenerateStream | app/providers.py:397-515 | The adapter yields exactly the stream function's events (unavailable, failed post, non-200 status, body). |
| OllamaStream.ReadBody | app/providers.py:447-515 | The loop over a 200 body yields exactly the body's events. |
| OllamaStream.LateLineEndsBody | app/providers.py:451-454 | A late line ends the body with the earlier content, the timeout error and `done`. |
| OllamaStream.CrashingLineEndsBody | app/providers.py:461-470 | A line that crashes the loop ends the body with the earlier content, the unexpected-issue error and `done`. |
| OllamaStream.DoneLineEndsRead | app/providers.py:476-487 | A `done` line ends the body after its own content: `done` when there was content, else the empty-content error. |
| OllamaStream.BodyRunsOut | app/providers.py:447-515 | A body that runs out yields all its content, then the exception's message and `done` when one was raised, else nothing. |
| OllamaStream.TerminatedUnlessOpenEnded | app/providers.py:397-515 | The stream keeps the protocol exactly when it does not run out silently. One that does is its content with no terminal event. |
| OllamaStream.RefusedIsOneError | app/providers.py:398-445 | An unavailable adapter or a non-200 status yields one error and no `done`. For status 404 it is the missing-model message. |
| OllamaStream.StopIndexConcat | app/providers.py:447-490 | The stopping point of a concatenation is in the first part, or is the second part's, shifted. |
| OllamaStream.FrameTextsConcat | app/providers.py:464-470 | The contents of a concatenation are the contents of its parts. |
| OllamaStream.InsertedTextless | app/providers.py:464-470 | A frame without content adds nothing to the contents. |
| OllamaStream.InsertedNonStop | app/providers.py:447-490 | Inserting a frame that does not stop the loop moves the stopping point by at most that frame. |
| OllamaStream.SkippedFrameBody | app/providers.py:461-490 | A blank or malformed line read in time leaves the body's events unchanged, wherever it is inserted. |
| OllamaStream.SkippedFrameChangesNothing | app/providers.py:461-490 | The same holds for the adapter's whole stream. |
| OllamaStream.StreamOfAnswer | app/providers.py:427-447 | A 200 reply from an available adapter yields its body's events. |
| OllamaStream.DoneLineEndsBody | app/providers.py:464-487 | A `done` line with text, reached in time, ends the body with all the content and `done`. |
| OllamaStream.DoneLineEndsStream | app/providers.py:397-490 | The same for the whole stream of a 200 reply. |
| ClaudeStream.GenerateStream | app/providers.py:531-626 | The adapter's loop yields exactly the stream function's events (unconfigured, open timeout, open failure, chunks). |
| ClaudeStream.OpenedEvents | app/providers.py:571-602 | An opened stream's events are the loop's events from the first chunk. |
| ClaudeStream.QuietRun | app/providers.py:580-591 | Chunks that are in time and are not stop messages yield exactly their deltas' texts, in order. |
| ClaudeStream.StopLastShape | app/providers.py:571-602 | Deltas then one final stop message give the content, then `done` when there was content, else the empty-content error. |
| ClaudeStream.StopLastIsTerminated | app/providers.py:571-602 | Such a stream keeps the protocol. |
| ClaudeStream.LateChunkHasNoDone | app/providers.py:574-578 | A late chunk ends the stream with the timeout error and no `done`. |
| ClaudeStream.QuietStreamEnding | app/providers.py:571-626 | A stream with no stop message and no late chunk ends with an exception's message and `done`, or with no terminal event. |
| ClaudeStream.UnavailableHasNoDone | app/providers.py:532-539 | An unconfigured adapter yields its one error and no `done`. |
| ClaudeStream.SyncClientNeverStreams | app/providers.py:526-560 | Finding: as written, a configured Claude adapter never yields content. Every call is one error and then `done`. |
| ClaudeStream.SyncClientLosesReply | app/providers.py:526-602 | Finding, concretely: for one delta and a stop message, an asynchronous client gives the text and `done`, while the code as written gives the unexpected-issue error. |
| ClaudeStream.RepeatedStopGivesTwoErrors | app/providers.py:592-602 | Two stop messages and no content yield two errors, which breaks the protocol. |
| Collector.CollectProviderResponse | app/providers.py:639-650 | The loop returns "Error: " and the message at the first error. Otherwise it returns the content before the first `done`, joined. |
| Collector.JoinConcat | app/providers.py:650 | Joining with no separator distributes over concatenation. |
| Collector.CollectStopsAtDone | app/providers.py:647-650 | Content then `done` collects to the texts joined; whatever follows is ignored. |
| Collector.CollectFirstError | app/providers.py:645-646 | The first error wins over earlier content and anything after it. |
| Collector.CollectAllContent | app/providers.py:643-650 | A stream with no terminal event collects all its content. |
| Collector.CollectShaped | app/providers.py:639-650 | A shaped stream collects to the error when its ending starts with one, else to its texts joined. |
| Collector.CollectTwoChunks | app/providers.py:639-650 | Two chunks, `done` and a stray chunk collect to the two chunks. |
| Collector.CollectErrorAfterChunk | app/providers.py:645-646 | A chunk followed by an error collects to the error alone. |
| Seqs.ElementsCount | app/main.py:163-168 | A list has at most as many distinct items as entries, and exactly as many when it has no duplicate. |
| Seqs.Filter | app/main.py:137-139 | The comprehension keeps only entries that pass, and keeps every entry that passes. |
| Seqs.FilterConcat | app/main.py:137-139 | Filtering keeps the entries' order. |
| Seqs.FilterAgree | app/main.py:137-139 | Two tests that agree on the entries keep the same entries. |
| Seqs.FilterNoDup | app/main.py:137-139 | Filtering a list without duplicates gives a list without duplicates. |
| Seqs.FilterEmpty | app/main.py:137-142 | Nothing is kept exactly when no entry passes. |
| Seqs.FilterAll | app/main.py:137-139 | When every entry passes, the whole list is kept. |
| Seqs.Dedup | app/main.py:163-168 | The keys of the task dictionary have no duplicate and are exactly the requested keys. |
| Seqs.DedupOfDistinct | app/main.py:163-168 | Requested keys without duplicates fill the dictionary in their own order. |
| Seqs.DedupShorter | app/main.py:163-168 | With a duplicate, the dictionary has fewer keys than there were requests. |
| Sets.SubsetCardinality | app/main.py:177 | A subset is no larger, and a proper subset is strictly smaller. |
| App.DurationText | app/main.py:123 | The duration text is the canonical decimal digits of `days`, after a minus sign when it is negative, followed by " days". |
| App.DurationTextUnique | app/main.py:123 | Any text of that shape is the duration text, so the duration text is exactly `str(days) + " days"`. |
| App.InterestsTextLists | app/main.py:124-128 | With no interests the text is "general adventure". One interest is itself, and another interest appends ", " and that interest. |
| App.RequestedProviders | app/main.py:137-139 | The selection keeps only requested keys that are registered and available, and keeps every such key. |
| App.SelectionKeepsOrder | app/main.py:137-139 | Selecting from a concatenation concatenates the selections, so the request order is kept. |
| App.SelectionKeepsDuplicates | app/main.py:137-139 | An available key requested twice is selected twice. |
| App.SelectionEmptyIff | app/main.py:137-142 | The selection is empty exactly when no requested key is registered and available. |
| App.SelectionOfAvailable | app/main.py:137-139 | A request of available keys only is kept as it is. |
| App.TaskOutcomeOf | app/main.py:182-193 | A task returns the collected string of its stream, or raises with the exception's text. |
| App.GenerateComparison | app/main.py:102-204 | The endpoint yields exactly the comparison's events: the error when nothing is selected, else the fan-in session. |
| App.EmptySelectionIsError | app/main.py:142-150 | The comparison is the single "No available providers selected" error exactly when no requested key is selectable. |
| App.ComparisonShape | app/main.py:152-200 | Otherwise the comparison starts with the selection, ends with `done`, and has one report per distinct selected provider. |
| App.ReportCarriesCollectedReply | app/main.py:182-193 | Each report names its provider and carries the collected form of its reply, or the exception's text. |
| App.GenerateBookingResponse | app/main.py:208-243 | 400 for an empty or unknown key; 503 for an unavailable one. Otherwise the collected farewell reply with the key, or 500 when the call raised. Each case is an if-and-only-if. |
| App.BookingWithInvalidProvider | tests/test_main.py:118-127 | A booking for `invalid_provider` is refused with 400 and an error mentioning "Invalid provider". |
| FanIn.OutcomeEvent | app/main.py:182-193 | A report names its provider. It is a result exactly when the task returned, carrying the result, and otherwise an error carrying the exception's text. |
| FanIn.EventsFor | app/main.py:178-193 | One report per key, in order, each from that key's task. |
| FanIn.EventsForConcat | app/main.py:178-193 | Reports for a concatenation are the reports for its parts. |
| FanIn.TaskMap | app/main.py:163-168 | The task dictionary has exactly the requested keys. |
| FanIn.Session.constructor | app/main.py:163-172 | Dispatch gives the deduplicated order and the task dictionary, with nothing completed and the provider list emitted. |
| FanIn.Session.PollRound | app/main.py:178-194 | One round reports, in dispatch order, each task done now and not completed before, and adds exactly those tasks to the completed set. The invariant is kept. |
| FanIn.Session.Finish | app/main.py:200 | The session ends by emitting `done`, changing nothing else. |
| FanIn.Poll | app/main.py:178-194 | The walk of one round computes the new completed set and the round's reports. |
| FanIn.Dispatch | app/main.py:163-168 | The dispatch loop fills the task dictionary; its key order is the first occurrences of the requested keys. |
| FanIn.FinishingAt | app/main.py:178-180 | The providers finishing in a round are exactly the providers whose task is first seen done in that round. |
| FanIn.EmittedKeys | app/main.py:176-197 | Every provider reported before a given round finished before it. |
| FanIn.Horizon | app/main.py:176-197 | The round after the last task finishes. |
| FanIn.EmittedKeysComplete | app/main.py:176-197 | Every provider finishing before a given round is reported before it. |
| FanIn.EmittedKeysSorted | app/main.py:176-197 | Reports come in the order the tasks finished. |
| FanIn.EmittedKeysNoDup | app/main.py:194 | No provider is reported twice. |
| FanIn.RoundIsFinishing | app/main.py:178-194 | The keys a round reports are the keys finishing in it. |
| FanIn.ComparisonStream | app/main.py:152-200 | With the corrected guard, the object's loop yields exactly the session's events, and it terminates. |
| FanIn.ReportedStep | app/main.py:176-197 | Each round appends its reports to the earlier rounds' reports. |
| FanIn.AllDoneBefore | app/main.py:177 | At the horizon every task is completed, so the corrected guard is false. |
| FanIn.RemainingBefore | app/main.py:177 | The corrected guard is false only at the horizon. |
| FanIn.AllReportedOnce | app/main.py:176-197 | Every dispatched provider is reported exactly once. |
| FanIn.SessionShape | app/main.py:152-200 | The session is the provider list, one report per distinct requested key carrying that task's outcome, then `done`. |
| FanIn.DuplicateRequestNeverEnds | app/main.py:177 | Finding: with a duplicate request the guard as written stays true even when every task is completed. |
| FanIn.RepeatedOpenAINeverEnds | app/main.py:177 | Finding, concretely: requesting `openai` twice, the guard as written stays true after its only task completes. |
| FanIn.GuardsAgreeWithoutDuplicates | app/main.py:177 | Without duplicates the guard as written and the corrected guard agree. |

## Left out

- The mocked OpenAI branch (app/providers.py:250-253) is left out. It runs whenever `OPENAI_API_KEY` is unset or empty, and then yields mocked content and `done`. So `OpenAIStream.StreamEvents(false, ...)` is exact only for a placeholder key or a client that failed to build. The comparison and booking endpoints never stream an unavailable provider, so the difference cannot be seen through them.
- Reading the environment, building SDK clients, and HTTP requests are left out. Their results are parameters: the key, whether the client was built, the probe status, and the reply.
- Concurrency is left out. Asyncio tasks are modelled by a schedule: the round in which each task is first seen done. That is what the polling loop can observe.
- The sleeps between polling rounds are left out.
- JSON encoding and server-sent-event framing of the events are left out. They do not affect which events are sent.
- The prompt templates of `app/config.py` are left out. They are parameters (`template`, `farewell`), because app/config.py is not part of this model.
- Logging and the `full_response` accumulator are left out. `full_response` is never read, except that appending a non-string to it raises, which is modelled as a crash.
- Pydantic's validation of request bodies (the 422 responses) is left out. `TravelRequest` and `BookingRequest` are plain values.
- The home page's provider information (app/main.py:81-84) is left out. Only the `/providers` summary is modelled.
- `Text.Lower` lower-cases ASCII letters only, because Python's full Unicode case mapping is not modelled.
- `Text.IsSpace` is Python's `str.isspace` set, which `strip()` and `split()` use, so nothing is left out there.
- `available_providers` is computed once at module load. The model takes it as computed from the registry it is given.
- The tasks of duplicate requests are started, but only the last one per key is kept in the dictionary. The model does not represent the orphaned tasks.
- `clean_response_start` is modelled, but its calls in the adapters are commented out in the source, so the adapters do not use it here either.
- `QuestPrompt.LastCredited`: its own contract only says that the line it finds is credited to the field. That it is the last such line is stated by `QuestPrompt.LastCreditedIsLast`.
- `FanIn.ComparisonStream`, `FanIn.SessionShape`, `App.GenerateComparison` and `App.ComparisonShape` use the corrected loop guard. With a duplicate key in the selection, the guard as written loops forever and never emits `done` (see Findings), which a terminating method cannot model. Without duplicates the two guards agree (`FanIn.GuardsAgreeWithoutDuplicates`), and these members are then exact.
- `OpenAIStream.GenerateStream`, `OllamaStream.GenerateStream` and `ClaudeStream.GenerateStream` test the whole elapsed time against the 180-second budget (`Events.ExceedsBudget`), not the `.seconds` field (see Findings). They differ from the code only for a chunk or line that arrives one day or more after the request started.
- `ClaudeStream.StreamEvents` and `ClaudeStream.GenerateStream` model the reply of an asynchronous client. The client the code builds is synchronous (see Findings), and `ClaudeStream.StreamEventsAsWritten` models that adapter.

## Findings

| source | as written | input that shows it | evidently intended | confidence | as-written member | corrected member |
|---|---|---|---|---|---|---|
| app/main.py:177 | The polling loop runs while `len(completed) < len(requested_providers)`. The completed set only ever holds the distinct keys, so a duplicate request keeps the guard true forever. | `providers: ["openai", "openai"]` with OpenAI available: after its one task completes, `completed` has 1 key and the selection has 2. | Loop until every dispatched task is completed: `len(completed) < len(tasks)`. | not executed | FanIn.DuplicateRequestNeverEnds, FanIn.RepeatedOpenAINeverEnds (with FanIn.GuardAsWritten) | FanIn.ComparisonStream (with FanIn.Guard), FanIn.GuardsAgreeWithoutDuplicates |
| app/providers.py:289, 451, 574 | The time budget is checked with `timedelta.seconds > 180`. That is only the seconds field, so whole days are dropped. | A chunk arriving 86410 seconds after the start: `.seconds` is 10. | Compare the whole elapsed time with 180 seconds (`total_seconds()`). | not executed | Events.BudgetCheckAsWrittenMissesWholeDays (with Events.ExceedsBudgetAsWritten) | Events.ExceedsBudget, Events.BudgetChecksAgreeWithinADay |
| app/providers.py:526, 552-560 | The Claude client is the synchronous `anthropic.Anthropic`. `messages.create(..., stream=True)` therefore sends the request and returns a stream object that is not awaitable. `asyncio.wait_for` on that object raises `TypeError`, and the catch-all turns it into the unexpected-issue error and `done`. | A configured key and a request that succeeds: the adapter yields the unexpected-issue error instead of the reply's text. | Build the asynchronous client (`anthropic.AsyncAnthropic`) and stream its chunks, which the loop at 571-602 is written for. | not executed (reading of the code and the SDK's client types) | ClaudeStream.SyncClientNeverStreams, ClaudeStream.SyncClientLosesReply (with ClaudeStream.StreamEventsAsWritten) | ClaudeStream.GenerateStream (with ClaudeStream.StreamEvents), ClaudeStream.StopLastShape |
