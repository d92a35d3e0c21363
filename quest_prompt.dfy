/**
 * The prompt-text helpers of the provider layer: reading the four quest
 * parameters back out of a prompt, the (currently unused) filter that drops
 * conversational preambles, and the choice between the standard itinerary
 * template and the prompt as given.
 */
module QuestPrompt {
  import opened Wrappers
  import opened Text

  const RealmMarker: string := "Mystical Realm:"
  const DurationMarker: string := "Quest Duration:"
  const TreasuryMarker: string := "Treasury Level:"
  const InterestsMarker: string := "Adventuring Interests:"

  /** The keys of the parameter dictionary, in the order their markers are tried. */
  function Key(i: nat): string
    requires i < 4
  {
    if i == 0 then "destination" else if i == 1 then "duration" else if i == 2 then "budget" else "interests"
  }

  /** The label that introduces each parameter on a prompt line. */
  function Marker(i: nat): string
    requires i < 4
  {
    if i == 0 then RealmMarker else if i == 1 then DurationMarker else if i == 2 then TreasuryMarker else InterestsMarker
  }

  const KeySet: set<string> := {"destination", "duration", "budget", "interests"}

  type Params = map<string, string>

  /** The dictionary before any line is read: every key present, every value empty. */
  const NoParams: Params := map["destination" := "", "duration" := "", "budget" := "", "interests" := ""]

  /** The marker a line is credited to: the first of the four, in `if`/`elif` order, that it contains. */
  function CreditedMarker(line: string): (r: Option<nat>)
    ensures r.Some? ==> r.value < 4
  {
    if Contains(line, RealmMarker) then Some(0)
    else if Contains(line, DurationMarker) then Some(1)
    else if Contains(line, TreasuryMarker) then Some(2)
    else if Contains(line, InterestsMarker) then Some(3)
    else None
  }

  /** What a line credited to marker `i` stores: the text after the marker's last occurrence, stripped. */
  function MarkerValue(line: string, i: nat): string
    requires i < 4
  {
    Strip(LastPiece(line, Marker(i)))
  }

  /** One turn of the loop over the prompt's lines. */
  function Step(params: Params, line: string): Params {
    match CreditedMarker(line)
    case None => params
    case Some(i) => params[Key(i) := MarkerValue(line, i)]
  }

  /** The dictionary once the loop has read `lines`. */
  function ParamsAfter(lines: seq<string>): Params
    decreases |lines|
  {
    if |lines| == 0 then NoParams else Step(ParamsAfter(lines[..|lines| - 1]), lines[|lines| - 1])
  }

  /** One turn only overwrites one of the four keys. */
  lemma StepKeepsKeys(params: Params, line: string)
    requires params.Keys == KeySet
    ensures Step(params, line).Keys == KeySet
  {
    match CreditedMarker(line)
    case None =>
    case Some(i) => assert Key(i) in KeySet;
  }

  /** The loop never adds or removes a key: exactly the four keys, whatever the lines. */
  lemma {:induction false} ParamsHaveFourKeys(lines: seq<string>)
    ensures ParamsAfter(lines).Keys == KeySet
    decreases |lines|
  {
    if |lines| > 0 {
      ParamsHaveFourKeys(lines[..|lines| - 1]);
      StepKeepsKeys(ParamsAfter(lines[..|lines| - 1]), lines[|lines| - 1]);
    } else {
      assert NoParams.Keys == KeySet;
    }
  }

  /** The parameters found in a prompt, one line at a time. */
  function QuestParameters(prompt: string): (p: Params)
    ensures p.Keys == KeySet
  {
    ParamsHaveFourKeys(Split(prompt, '\n'));
    ParamsAfter(Split(prompt, '\n'))
  }

  /** The last line credited to marker `i`, if any line is. */
  function LastCredited(lines: seq<string>, i: nat): (r: Option<nat>)
    decreases |lines|
    ensures r.Some? ==> r.value < |lines| && CreditedMarker(lines[r.value]) == Some(i)
  {
    if |lines| == 0 then None
    else if CreditedMarker(lines[|lines| - 1]) == Some(i) then Some(|lines| - 1)
    else
      var init := lines[..|lines| - 1];
      assert forall j :: 0 <= j < |init| ==> init[j] == lines[j];
      LastCredited(init, i)
  }

  /** It is the last such line: no later line is credited to marker `i`, and with none found no line is. */
  lemma {:induction false} LastCreditedIsLast(lines: seq<string>, i: nat)
    decreases |lines|
    ensures var r := LastCredited(lines, i);
      r.Some? ==> forall j :: r.value < j < |lines| ==> CreditedMarker(lines[j]) != Some(i)
    ensures LastCredited(lines, i).None? <==> forall j :: 0 <= j < |lines| ==> CreditedMarker(lines[j]) != Some(i)
  {
    if |lines| > 0 && CreditedMarker(lines[|lines| - 1]) != Some(i) {
      var init := lines[..|lines| - 1];
      LastCreditedIsLast(init, i);
      assert forall j :: 0 <= j < |init| ==> init[j] == lines[j];
    }
  }

  /** What key `i` holds after one turn: the line's value if it is credited to marker `i`. */
  lemma StepValue(params: Params, line: string, i: nat)
    requires i < 4 && params.Keys == KeySet
    ensures Key(i) in Step(params, line)
    ensures Step(params, line)[Key(i)] ==
      (if CreditedMarker(line) == Some(i) then MarkerValue(line, i) else params[Key(i)])
  {
    var c := CreditedMarker(line);
    if c.Some? {
      var m := c.value;
      assert Step(params, line) == params[Key(m) := MarkerValue(line, m)];
      if m != i {
        KeysDistinct(m, i);
      }
    } else {
      assert Step(params, line) == params;
    }
  }

  /** The four keys are four different strings (they even differ in length). */
  lemma KeysDistinct(m: nat, i: nat)
    requires m < 4 && i < 4 && m != i
    ensures Key(m) != Key(i)
  {
    assert |Key(m)| != |Key(i)|;
  }

  /** The value the last line credited to marker `i` gives, or "" when no line is. */
  function CreditedValue(lines: seq<string>, i: nat): string
    requires i < 4
  {
    var j := LastCredited(lines, i);
    if j.None? then "" else MarkerValue(lines[j.value], i)
  }

  /**
   * Each key holds what the LAST line credited to its marker says (a later
   * line overwrites an earlier one, and a line with several markers counts
   * only for the first in `elif` order), or "" when no line is credited to it.
   */
  lemma {:induction false} ParamValueFromLastCreditedLine(lines: seq<string>, i: nat)
    requires i < 4
    decreases |lines|
    ensures Key(i) in ParamsAfter(lines)
    ensures ParamsAfter(lines)[Key(i)] == CreditedValue(lines, i)
  {
    ParamsHaveFourKeys(lines);
    if |lines| > 0 {
      var init := lines[..|lines| - 1];
      var last := lines[|lines| - 1];
      ParamValueFromLastCreditedLine(init, i);
      ParamsHaveFourKeys(init);
      StepValue(ParamsAfter(init), last, i);
      if CreditedMarker(last) != Some(i) {
        var j := LastCredited(init, i);
        assert LastCredited(lines, i) == j;
        if j.Some? {
          assert init[j.value] == lines[j.value];
        }
      }
    } else {
      assert NoParams[Key(i)] == "";
    }
  }

  /** A turn on a line credited to marker `i` stores that marker's value under its key. */
  lemma StepCredited(params: Params, line: string, i: nat)
    requires i < 4 && CreditedMarker(line) == Some(i)
    ensures Step(params, line) == params[Key(i) := Strip(LastPiece(line, Marker(i)))]
  {
  }

  /** `parse_quest_parameters`: a loop over the lines that updates the dictionary. */
  method ParseQuestParameters(prompt: string) returns (params: Params)
    ensures params.Keys == KeySet
    ensures params == QuestParameters(prompt)
  {
    var lines := Split(prompt, '\n');
    params := map["destination" := "", "duration" := "", "budget" := "", "interests" := ""];
    for k := 0 to |lines|
      invariant params == ParamsAfter(lines[..k])
    {
      var line := lines[k];
      ghost var before := params;
      ReadLine(lines, k);
      if Contains(line, RealmMarker) {
        params := params["destination" := Strip(LastPiece(line, RealmMarker))];
        StepCredited(before, line, 0);
      } else if Contains(line, DurationMarker) {
        params := params["duration" := Strip(LastPiece(line, DurationMarker))];
        StepCredited(before, line, 1);
      } else if Contains(line, TreasuryMarker) {
        params := params["budget" := Strip(LastPiece(line, TreasuryMarker))];
        StepCredited(before, line, 2);
      } else if Contains(line, InterestsMarker) {
        params := params["interests" := Strip(LastPiece(line, InterestsMarker))];
        StepCredited(before, line, 3);
      } else {
        assert CreditedMarker(line) == None;
      }
    }
    AllLines(lines);
    ParamsHaveFourKeys(lines);
  }

  /** The loop's turn `k` reads line `k` into the dictionary of the lines before it. */
  lemma ReadLine(lines: seq<string>, k: nat)
    requires k < |lines|
    ensures ParamsAfter(lines[..k + 1]) == Step(ParamsAfter(lines[..k]), lines[k])
  {
    assert lines[..k + 1][..k] == lines[..k];
  }

  /** After the last turn the loop has read every line. */
  lemma AllLines(lines: seq<string>)
    ensures ParamsAfter(lines[..|lines|]) == ParamsAfter(lines)
  {
    assert lines[..|lines|] == lines;
  }

  /**
   * `get_optimized_prompt`: the standard itinerary template filled with the
   * parsed parameters, or the prompt unchanged when the destination or the
   * duration was not found. The template is the prompt builder, a parameter.
   */
  function GetOptimizedPrompt(prompt: string, template: (string, string, string, string) -> string): (r: string)
    ensures var p := QuestParameters(prompt);
      p["destination"] == "" || p["duration"] == "" ==> r == prompt
    ensures var p := QuestParameters(prompt);
      p["destination"] != "" && p["duration"] != "" ==>
        r == template(p["destination"], p["duration"], p["budget"], p["interests"])
  {
    var p := QuestParameters(prompt);
    if p["destination"] == "" || p["duration"] == "" then prompt
    else template(p["destination"], p["duration"], p["budget"], p["interests"])
  }

  /** A prompt with no destination marker anywhere is passed through unchanged. */
  lemma NoRealmMarkerKeepsPrompt(prompt: string, template: (string, string, string, string) -> string)
    requires !Contains(prompt, RealmMarker)
    ensures GetOptimizedPrompt(prompt, template) == prompt
  {
    var lines := Split(prompt, '\n');
    forall j | 0 <= j < |lines|
      ensures CreditedMarker(lines[j]) != Some(0)
    {
      SplitPieceOccurs(prompt, '\n', j);
      ContainsWithin(prompt, lines[j], RealmMarker);
    }
    ParamValueFromLastCreditedLine(lines, 0);
  }

  /** Conversational openings that make the filter drop a chunk. */
  const SkipStarters: seq<string> := [
    "here's an irresistible", "i'll create", "let me create", "i'd be happy",
    "certainly!", "of course!", "great choice!", "here's a fantasy", "here's your",
    "let me craft", "okay, the user wants", "the user wants me", "i need to create",
    "i'm going to", "since this is", "i want to make"]

  /** Words that mark itinerary structure; the sixth from the end is the bullet U+2022. */
  const ItineraryIndicators: seq<string> := [
    "day 1", "day 2", "day 3", "day 4", "day 5", "day 6", "day 7", "**day",
    "morning:", "afternoon:", "evening:", "night:", "accommodation:", "cost:",
    "total estimated", "\U{2022}", "*", "breakfast", "lunch", "dinner"]

  /** Words that mark fantasy content. */
  const FantasyContent: seq<string> := [
    "enchanted", "mystical", "magical", "dragon", "castle", "tavern", "forest",
    "crystal", "floating", "underwater", "treasure", "spell", "potion", "wizard",
    "fairy", "quest", "adventure", "gold coins", "artifacts", "creature", "beast"]

  /** Phrases that disqualify a short chunk. */
  const MetaPhrases: seq<string> := ["i'll", "let me", "here's", "this will", "we'll"]

  /**
   * `clean_response_start`: keep a chunk whole or drop it whole. A chunk
   * that opens with a conversational starter is dropped even when it also
   * looks like itinerary or fantasy content; otherwise such content is kept.
   */
  function CleanResponseStart(text: string): (r: string)
    ensures r == "" || r == text
    ensures StartsWithAny(Strip(Lower(text)), SkipStarters) ==> r == ""
    ensures !StartsWithAny(Strip(Lower(text)), SkipStarters)
            && (ContainsAny(Strip(Lower(text)), ItineraryIndicators) || ContainsAny(Strip(Lower(text)), FantasyContent))
            ==> r == text
    ensures var t := Strip(Lower(text));
      !StartsWithAny(t, SkipStarters) && !ContainsAny(t, ItineraryIndicators) && !ContainsAny(t, FantasyContent)
      ==> (r == text <==> text == "" || (WordCount(text) < 15 && !ContainsAny(t, MetaPhrases)))
  {
    var textLower := Strip(Lower(text));
    if StartsWithAny(textLower, SkipStarters) then ""
    else if ContainsAny(textLower, ItineraryIndicators) then text
    else if ContainsAny(textLower, FantasyContent) then text
    else if WordCount(text) < 15 && !ContainsAny(textLower, MetaPhrases) then text
    else ""
  }

  /**
   * Filtering twice is filtering once: a kept chunk is kept again, and the
   * empty string a dropped chunk becomes can only come out as itself.
   */
  lemma CleanResponseStartIdempotent(text: string)
    ensures CleanResponseStart(CleanResponseStart(text)) == CleanResponseStart(text)
  {
    var r := CleanResponseStart(text);
    assert CleanResponseStart(r) == "" || CleanResponseStart(r) == r;
  }
}
