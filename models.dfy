/**
 * The two request bodies the web application accepts. A field with a
 * default may be left out when the record is built; the others must be
 * given.
 */
module Models {

  /** The body of a comparison request. */
  datatype TravelRequest = TravelRequest(
    destination: string,
    days: int := 5,
    budget: string,
    interests: seq<string> := [],
    providers: seq<string> := ["openai", "ollama"])

  /** The body of a booking request: both fields are required. */
  datatype BookingRequest = BookingRequest(provider: string, itinerary: string)

  /** A request that gives only the required fields gets the three defaults. */
  lemma TravelRequestDefaults(destination: string, budget: string)
    ensures var r := TravelRequest(destination := destination, budget := budget);
      && r.destination == destination && r.budget == budget
      && r.days == 5
      && r.interests == []
      && r.providers == ["openai", "ollama"]
  {
  }

  /** Fields that are given are kept as given, lists in their order, empty lists included. */
  lemma TravelRequestKeepsFields(destination: string, days: int, budget: string,
                                 interests: seq<string>, providers: seq<string>)
    ensures var r := TravelRequest(destination, days, budget, interests, providers);
      && r.destination == destination && r.days == days && r.budget == budget
      && r.interests == interests
      && r.providers == providers
  {
  }
}
