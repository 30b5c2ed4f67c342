/**
 * The server side of plan generation: the template itinerary used whenever the
 * language-model service cannot be used, and the step that forces a returned
 * itinerary to the requested number of days.
 */
module TravelPlanner {
  import opened Wrappers
  import opened JsText
  import Selection

  /** Latitude and longitude are passed through untouched. */
  datatype Coordinates = Coordinates(lat: real, lng: real)

  datatype Route = Route(from: Coordinates, to: Coordinates)

  datatype PlanAccommodation = PlanAccommodation(
    title: string, details: string, coordinates: Option<Coordinates>,
    priceRange: Option<string>, bookingUrl: Option<string>)

  datatype PlanTransportation = PlanTransportation(title: string, details: string, route: Option<Route>)

  datatype PlanActivity = PlanActivity(
    time: string, duration: string, title: string, location: Option<Coordinates>,
    category: Option<string>, description: Option<string>)

  datatype PlanDay = PlanDay(
    day: int, accommodation: PlanAccommodation, transportation: PlanTransportation,
    activities: seq<PlanActivity>)

  datatype TravelPlan = TravelPlan(itinerary: seq<PlanDay>, recommendations: seq<string>)

  /**
   * The request, without the specific date, which only feeds the prompt. The day count is
   * a JavaScript number; a request without one (the questionnaire sends none) reads as
   * `undefined`, which arithmetic and comparisons treat as NaN.
   */
  datatype Preferences = Preferences(
    season: string, destination: string, travelerType: string, activities: seq<string>,
    numberOfDays: Num, coordinates: Option<Coordinates>)

  // ---------------------------------------------------------------- the template itinerary

  /** `Math.max(1, Math.min(30, n))`. */
  function ClampDays(n: int): (r: int)
    ensures 1 <= r <= 30
    ensures 1 <= n <= 30 ==> r == n
    ensures n < 1 ==> r == 1
    ensures n > 30 ==> r == 30
  {
    var m := if n < 30 then n else 30;
    if m > 1 then m else 1
  }

  /**
   * The length `Array.from` gives the template: `Math.max(1, Math.min(30, n))` is NaN for a
   * NaN count, and a NaN length is 0.
   */
  function TemplateDays(n: Num): (k: nat)
    ensures n.NaN? ==> k == 0
    ensures n.Int? ==> 1 <= k <= 30
    ensures n.Int? && 1 <= n.value <= 30 ==> k == n.value
  {
    if n.NaN? then 0 else ClampDays(n.value)
  }

  const FallbackActivityTypes: seq<string> :=
    ["Local Exploration", "Cultural Visit", "Relaxation Time", "Local Cuisine"]

  /**
   * The user's activities without "custom", followed by four fixed ones: never empty,
   * so indexing it modulo its length is always in bounds, and never "custom".
   */
  function ActivityTypes(userActivities: seq<string>): (r: seq<string>)
    ensures |r| >= 4 && "custom" !in r
  {
    Selection.Without(userActivities, "custom") + FallbackActivityTypes
  }

  /** From and to the same point when coordinates are given. */
  function RouteFor(c: Option<Coordinates>): Option<Route> {
    if c.Some? then Some(Route(c.value, c.value)) else None
  }

  function TransportTitle(i: int, numDays: int): string {
    if i == 0 then "Arrival" else if i == numDays - 1 then "Departure" else "Local Transport"
  }

  /** "Hotel Check-in" on the first day and "Hotel Stay" after, at the destination's coordinates. */
  function BasicAccommodation(p: Preferences, i: nat): (a: PlanAccommodation)
    ensures a.title == (if i == 0 then "Hotel Check-in" else "Hotel Stay")
    ensures a.coordinates == p.coordinates && a.bookingUrl.Some?
  {
    PlanAccommodation(
      if i == 0 then "Hotel Check-in" else "Hotel Stay",
      "Comfortable accommodation in " + p.destination,
      p.coordinates, Some("$$"), Some("https://www.booking.com"))
  }

  /**
   * An airport transfer on the first and last day, local transit in between; the route
   * stays at the destination's coordinates when they are given.
   */
  function BasicTransportation(p: Preferences, numDays: int, i: nat): (t: PlanTransportation)
    ensures i == 0 ==> t.title == "Arrival"
    ensures 0 < i && i == numDays - 1 ==> t.title == "Departure"
    ensures 0 < i < numDays - 1 ==> t.title == "Local Transport"
    ensures t.details == "Airport Transfer" <==> i == 0 || i == numDays - 1
    ensures t.route.Some? <==> p.coordinates.Some?
    ensures t.route.Some? ==> t.route.value.from == t.route.value.to == p.coordinates.value
  {
    PlanTransportation(
      TransportTitle(i, numDays),
      if i == 0 || i == numDays - 1 then "Airport Transfer" else "Local transit and walking",
      RouteFor(p.coordinates))
  }

  /**
   * Three activities at 09:00 for 3 hours, 13:00 for 1 hour and 15:00 for 3 hours; the trip
   * opens with "Welcome Orientation" and closes with "Prepare for Departure"; the other
   * two slots take their categories from the activity types.
   */
  function BasicActivityList(p: Preferences, types: seq<string>, numDays: int, i: nat): (a: seq<PlanActivity>)
    requires |types| > 0
    ensures |a| == 3
    ensures a[0].time == "09:00" && a[0].duration == "3:00"
    ensures a[1].time == "13:00" && a[1].duration == "1:00"
    ensures a[2].time == "15:00" && a[2].duration == "3:00"
    ensures i == 0 ==> a[0].title == "Welcome Orientation"
    ensures i == numDays - 1 ==> a[2].title == "Prepare for Departure"
    ensures a[0].category.Some? && a[0].category.value in types
    ensures a[2].category.Some? && a[2].category.value in types
  {
    [ PlanActivity(
        "09:00", "3:00",
        if i == 0 then "Welcome Orientation" else types[i % |types|] + " Activity",
        p.coordinates, Some(types[i % |types|]), Some("Explore the best of " + p.destination)),
      PlanActivity(
        "13:00", "1:00", "Lunch Break and Rest", None, Some("Dining"), Some("Enjoy local cuisine")),
      PlanActivity(
        "15:00", "3:00",
        if i == numDays - 1 then "Prepare for Departure" else types[(i + 2) % |types|] + " Experience",
        p.coordinates, Some(types[(i + 2) % |types|]),
        Some("Experience " + p.destination + " like a local")) ]
  }

  /** Day `i` (0-based) of a template itinerary of `numDays` days. */
  function BasicDay(p: Preferences, types: seq<string>, numDays: int, i: nat): (d: PlanDay)
    requires |types| > 0
    ensures d.day == i + 1
    ensures d.accommodation == BasicAccommodation(p, i)
    ensures d.transportation == BasicTransportation(p, numDays, i)
    ensures d.activities == BasicActivityList(p, types, numDays, i)
  {
    PlanDay(i + 1, BasicAccommodation(p, i), BasicTransportation(p, numDays, i),
      BasicActivityList(p, types, numDays, i))
  }

  function BasicRecommendations(p: Preferences): (r: seq<string>)
    ensures |r| == 5
  {
    [ "Best time to visit " + p.destination + " is during " + p.season,
      "This itinerary is designed for " + p.travelerType + " travelers",
      "Don't miss the local attractions and activities: " + Join(p.activities, ", "),
      "Pack appropriate clothing for " + p.season + " weather",
      "Consider local transportation options for easy access to attractions" ]
  }

  function BasicDayOf(p: Preferences, types: seq<string>, numDays: int): nat -> PlanDay
    requires |types| > 0
  {
    (i: nat) => BasicDay(p, types, numDays, i)
  }

  /** `[f(0), ..., f(k - 1)]`. */
  function Tabulate<T>(f: nat -> T, k: nat): (r: seq<T>)
    ensures |r| == k
  {
    if k == 0 then [] else Tabulate(f, k - 1) + [f(k - 1)]
  }

  lemma {:induction false} TabulateAt<T>(f: nat -> T, k: nat, i: nat)
    requires i < k
    ensures Tabulate(f, k)[i] == f(i)
  {
    if i < k - 1 {
      TabulateAt(f, k - 1, i);
    }
  }

  /**
   * The template itinerary: between 1 and 30 days for a numeric count, as many as requested
   * when that is in range, and no days at all when the count is missing.
   */
  function BasicItinerary(p: Preferences): (r: TravelPlan)
    ensures |r.itinerary| == TemplateDays(p.numberOfDays)
    ensures |r.recommendations| == 5
  {
    var numDays := TemplateDays(p.numberOfDays);
    TravelPlan(Tabulate(BasicDayOf(p, ActivityTypes(p.activities), numDays), numDays), BasicRecommendations(p))
  }

  /** Day `i` of the template itinerary is the template day `i`. */
  lemma BasicItineraryAt(p: Preferences, i: nat)
    requires i < |BasicItinerary(p).itinerary|
    ensures BasicItinerary(p).itinerary[i]
            == BasicDay(p, ActivityTypes(p.activities), TemplateDays(p.numberOfDays), i)
  {
    var n := TemplateDays(p.numberOfDays);
    TabulateAt(BasicDayOf(p, ActivityTypes(p.activities), n), n, i);
  }

  /** The template days are numbered 1, 2, ... in order. */
  lemma BasicDayNumbers(p: Preferences)
    ensures forall i :: 0 <= i < |BasicItinerary(p).itinerary| ==> BasicItinerary(p).itinerary[i].day == i + 1
  {
    forall i | 0 <= i < |BasicItinerary(p).itinerary|
      ensures BasicItinerary(p).itinerary[i].day == i + 1
    {
      BasicItineraryAt(p, i);
    }
  }

  /** "Hotel Check-in" on the first day, "Hotel Stay" on every other. */
  lemma BasicAccommodationTitles(p: Preferences, i: nat)
    requires i < |BasicItinerary(p).itinerary|
    ensures BasicItinerary(p).itinerary[i].accommodation.title
            == (if i == 0 then "Hotel Check-in" else "Hotel Stay")
  {
    BasicItineraryAt(p, i);
  }

  /**
   * "Arrival" on the first day, "Departure" on the last day of a longer trip,
   * "Local Transport" in between; a one-day trip only arrives.
   */
  lemma BasicTransportTitle(p: Preferences, i: nat)
    requires i < |BasicItinerary(p).itinerary|
    ensures var last := |BasicItinerary(p).itinerary| - 1;
      BasicItinerary(p).itinerary[i].transportation.title
      == (if i == 0 then "Arrival" else if i == last then "Departure" else "Local Transport")
  {
    BasicItineraryAt(p, i);
  }

  /**
   * Day `i` of the template itinerary has the template's three activities; its two
   * sightseeing slots never carry the category "custom".
   */
  lemma BasicActivities(p: Preferences, i: nat)
    requires i < |BasicItinerary(p).itinerary|
    ensures var a := BasicItinerary(p).itinerary[i].activities;
      && |a| == 3
      && a[0].time == "09:00" && a[0].duration == "3:00"
      && a[1].time == "13:00" && a[1].duration == "1:00"
      && a[2].time == "15:00" && a[2].duration == "3:00"
      && (i == 0 ==> a[0].title == "Welcome Orientation")
      && (i == |BasicItinerary(p).itinerary| - 1 ==> a[2].title == "Prepare for Departure")
      && a[0].category.Some? && a[0].category.value in ActivityTypes(p.activities)
      && a[2].category.Some? && a[2].category.value in ActivityTypes(p.activities)
      && a[0].category != Some("custom") && a[2].category != Some("custom")
  {
    BasicItineraryAt(p, i);
  }

  // ---------------------------------------------------------------- forcing the day count

  /** A day appended to a short itinerary: numbered `day`, keeping the given accommodation. */
  function PadDay(day: nat, accommodation: PlanAccommodation, p: Preferences): (d: PlanDay)
    ensures d.day == day && d.accommodation == accommodation
    ensures d.transportation.title == "Local Transport"
    ensures |d.activities| == 3
    ensures d.activities[0].time == "10:00" && d.activities[1].time == "14:00" && d.activities[2].time == "16:00"
    ensures forall j :: 0 <= j < 3 ==> d.activities[j].duration == "2:00"
  {
    PlanDay(
      day,
      accommodation,
      PlanTransportation("Local Transport", "Local transit and walking", RouteFor(p.coordinates)),
      [ PlanActivity(
          "10:00", "2:00", "Day " + NatToString(day) + " Exploration", p.coordinates,
          Some("Exploration"), Some("Discover more hidden gems of " + p.destination)),
        PlanActivity(
          "14:00", "2:00", "Local Experience", None,
          Some("Culture"), Some("Immerse yourself in local culture and traditions")),
        PlanActivity(
          "16:00", "2:00", "Evening Activities", p.coordinates,
          Some("Entertainment"), Some("Enjoy local entertainment and nightlife")) ])
  }

  /**
   * A non-empty itinerary padded to `m` days: each added day is numbered one more than
   * the length at the time it is added and copies the accommodation of the day before.
   */
  function PaddedTo(days: seq<PlanDay>, m: nat, p: Preferences): (r: seq<PlanDay>)
    requires days != [] && |days| <= m
    ensures |r| == m && r[..|days|] == days
    ensures r[m - 1].accommodation == days[|days| - 1].accommodation
    decreases m
  {
    if m == |days| then days
    else PaddedTo(days, m - 1, p) + [PadDay(m, days[|days| - 1].accommodation, p)]
  }

  /** One more padded day copies the accommodation of the last day so far. */
  lemma PaddedStep(days: seq<PlanDay>, k: nat, p: Preferences)
    requires days != [] && |days| <= k
    ensures var sofar := PaddedTo(days, k, p);
      PaddedTo(days, k + 1, p) == sofar + [PadDay(k + 1, sofar[k - 1].accommodation, p)]
  {
  }

  /**
   * The itinerary after the day-count adjustment, or None when the adjustment throws
   * (padding is needed but there is no last day to copy). A NaN count compares false with
   * every length, so nothing is padded or cut.
   */
  function Adjusted(days: seq<PlanDay>, n: Num, p: Preferences): (r: Option<seq<PlanDay>>)
    ensures r.None? <==> days == [] && n.Int? && n.value > 0
    ensures n.NaN? ==> r == Some(days)
    ensures r.Some? && n.Int? && n.value >= 0 ==> |r.value| == n.value
    ensures r.Some? && n.Int? && n.value < 0 ==> |r.value| == if |days| + n.value < 0 then 0 else |days| + n.value
    ensures r.Some? ==> forall i :: 0 <= i < |days| && i < |r.value| ==> r.value[i] == days[i]
  {
    if n.NaN? || |days| == n.value then Some(days)
    else if |days| < n.value then
      if days == [] then None
      else
        var padded := PaddedTo(days, n.value, p);
        assert forall i :: 0 <= i < |days| ==> padded[i] == padded[..|days|][i];
        Some(padded)
    else Some(SliceTo(days, n.value))
  }

  /** `Adjusted` case by case, in the order the adjustment tests them. */
  lemma AdjustedCases(days: seq<PlanDay>, n: Num, p: Preferences)
    ensures n.Int? && |days| < n.value && days == [] ==> Adjusted(days, n, p) == None
    ensures n.Int? && |days| < n.value && days != [] ==> Adjusted(days, n, p) == Some(PaddedTo(days, n.value, p))
    ensures n.Int? && |days| > n.value ==> Adjusted(days, n, p) == Some(SliceTo(days, n.value))
    ensures !(n.Int? && |days| != n.value) ==> Adjusted(days, n, p) == Some(days)
  {
  }

  /** The plan whose itinerary the adjustment has already computed. */
  lemma AdjustedPlanOf(result: TravelPlan, p: Preferences, r: Option<seq<PlanDay>>)
    requires Adjusted(result.itinerary, p.numberOfDays, p) == r
    ensures AdjustedPlan(result, p) == if r.None? then BasicItinerary(p) else result.(itinerary := r.value)
  {
  }

  /**
   * The plan after the adjustment; a throw falls back to the template itinerary. A count
   * of 1 to 30 always comes out exact, and a missing count leaves the reply as it is.
   */
  function AdjustedPlan(result: TravelPlan, p: Preferences): (r: TravelPlan)
    ensures p.numberOfDays.Int? && 1 <= p.numberOfDays.value <= 30 ==> |r.itinerary| == p.numberOfDays.value
    ensures result.itinerary != [] ==> r.recommendations == result.recommendations
    ensures p.numberOfDays.NaN? ==> r == result
  {
    match Adjusted(result.itinerary, p.numberOfDays, p)
    case None => BasicItinerary(p)
    case Some(days) => result.(itinerary := days)
  }

  /**
   * Pad a short itinerary day by day in place, then cut a long one with `slice`. An empty
   * itinerary that needs padding has no last day; reading its accommodation throws and
   * the caller's handler returns the template itinerary instead.
   */
  method AdjustDayCount(result: TravelPlan, p: Preferences) returns (plan: TravelPlan)
    ensures plan == AdjustedPlan(result, p)
  {
    plan := result;
    var n := p.numberOfDays;
    AdjustedCases(result.itinerary, n, p);
    if !(n.Int? && |plan.itinerary| == n.value) {
      var itinerary := plan.itinerary;
      while n.Int? && |itinerary| < n.value
        invariant itinerary == result.itinerary
                  || (result.itinerary != [] && n.Int? && |result.itinerary| < |itinerary| <= n.value
                      && itinerary == PaddedTo(result.itinerary, |itinerary|, p))
        decreases if n.Int? then n.value - |itinerary| else 0
      {
        if |itinerary| == 0 {
          AdjustedPlanOf(result, p, None);
          return BasicItinerary(p);
        }
        var lastDay := itinerary[|itinerary| - 1];
        var day := |itinerary| + 1;
        PaddedStep(result.itinerary, |itinerary|, p);
        itinerary := itinerary + [PadDay(day, lastDay.accommodation, p)];
      }
      if n.Int? && |itinerary| > n.value {
        itinerary := SliceTo(itinerary, n.value);
      }
      AdjustedPlanOf(result, p, Some(itinerary));
      plan := plan.(itinerary := itinerary);
    }
  }

  /**
   * Plan generation with the service abstracted: `response` is the parsed reply, or None
   * when there is no API key, no reply content, or the call or parse fails; all of those
   * fall back to the template itinerary.
   */
  method GenerateTravelPlan(response: Option<TravelPlan>, p: Preferences) returns (plan: TravelPlan)
    ensures response.None? ==> plan == BasicItinerary(p)
    ensures response.Some? ==> plan == AdjustedPlan(response.value, p)
    ensures p.numberOfDays.Int? && 1 <= p.numberOfDays.value <= 30 ==> |plan.itinerary| == p.numberOfDays.value
    ensures p.numberOfDays.NaN? ==> plan.itinerary == if response.Some? then response.value.itinerary else []
  {
    if response.None? {
      return BasicItinerary(p);
    }
    plan := AdjustDayCount(response.value, p);
  }

  // ---------------------------------------------------------------- properties of the adjustment

  /**
   * Each padded day is numbered by its position, repeats the accommodation of the
   * original last day, travels by "Local Transport" and has three two-hour activities at
   * 10:00, 14:00 and 16:00.
   */
  lemma {:induction false} PaddedDay(days: seq<PlanDay>, m: nat, p: Preferences, k: nat)
    requires days != [] && |days| <= k < m
    ensures PaddedTo(days, m, p)[k] == PadDay(k + 1, days[|days| - 1].accommodation, p)
    decreases m
  {
    if k < m - 1 {
      PaddedDay(days, m - 1, p, k);
    }
  }
}
