# Travel planner core, modelled in Dafny

This project models the deterministic core of a travel-planning web application:

- **Calendar export** (`IcsGenerator`). A day-by-day itinerary becomes a flat list of
  calendar events. Day `i` is dated `i` days after a base date. Within a day the
  accommodation event comes first, then the transportation event, then one event per
  activity. Times are read from `"H:MM"` texts, and each field has its own default:
  check-in 14:00, departure 10:00, an activity duration of one hour, and an activity
  hour of 0 or NaN read as 12.
- **Plan generation on the server** (`TravelPlanner`):
  - the template itinerary, used whenever the language-model service cannot be used;
  - the step that pads or cuts a returned itinerary to the requested number of days;
  - the fall-back to the template when that step throws.
- **The questionnaire wizard** (`Questionnaire`). It has four steps, each guarded. A date
  range and a season exclude each other. Destinations and activities are kept as
  selection lists, and a custom-activity box adds or removes the marker value `"custom"`.
- **The multi-select combobox** (`Combobox`):
  - looking up the badge for each chosen value;
  - removing a value and toggling an option;
  - the trigger's caption.
- **From plan to calendar** (`PlanExport`). A generated plan is what the questionnaire
  hands to the calendar export. This module says what a template plan exports to. The
  questionnaire's request carries no day count, which the server reads as NaN: the
  template is then empty and exports nothing, and a reply keeps however many days it
  has. The lemmas over a template of `n` days cover a request that does carry a count.

Supporting modules model the JavaScript behaviour the code relies on:

- `JsText`:
  - `split` with a one-character separator and `join`;
  - `parseInt` and `Number(...)` on strings;
  - `String(n)` for a non-negative integer;
  - `x || fallback` on numbers;
  - `slice(0, end)`.
- `Calendar`: the day arithmetic of a JavaScript `Date` at local midnight.
- `Selection`: `filter(v => v !== x)` and "remove if included, else append".

Each part takes the form of the code it models:

- The event builder is a pair of nested loops appending to a list. It is written as
  methods with loops, each proved equal to a specification function. The properties
  (event count, order, dates, default times) are lemmas about those functions.
- The day-count adjustment is a `while` loop that pads in place and then slices. It is
  a method proved equal to the function `AdjustedPlan`.
- The template itinerary is a pure builder, modelled as functions.
- The wizard is a class. Its fields `step` and `form` are updated by one method per
  handler, and each method keeps the invariant `Valid()`.
- The combobox is a set of pure functions.

Inputs the code reads from the outside world are parameters:

- the current day for the calendar export and the date pickers;
- the parsed reply of the language-model service, or its absence.

## Model

| member | source | states |
|---|---|---|
| `JsText.OrElse` | client/src/lib/ics-generator.ts:93-94 | the `or` fallback on numbers: a number that is neither NaN nor 0 is kept; otherwise the fallback is used |
| `JsText.NatToString` | client/src/components/ui/combobox.tsx:74 | `String(n)` is a non-empty run of decimal digits whose value is `n` |
| `JsText.ParseInt` | client/src/lib/ics-generator.ts:50-51 | `parseInt` yields a number exactly when, after white space and one sign, the text starts with a digit |
| `JsText.ParseIntOpt` | client/src/lib/ics-generator.ts:67-68 | `parseInt(undefined)` is NaN |
| `JsText.ParseIntDigitsThen` | client/src/lib/ics-generator.ts:50-51 | a run of digits followed by nothing or by a non-digit parses to the value of the run |
| `JsText.ToNumber` | client/src/lib/ics-generator.ts:76 | `Number` of an empty or blank text is 0 |
| `JsText.ToNumberDigits` | client/src/lib/ics-generator.ts:80 | `Number` of a run of digits is its value |
| `JsText.Split` | client/src/lib/ics-generator.ts:76 | `split` always yields at least one field |
| `JsText.SplitFieldsFree` | client/src/lib/ics-generator.ts:76 | no field of a split contains the separator |
| `JsText.JoinSplit` | client/src/lib/ics-generator.ts:76 | joining (`Join`, the model of `join`) the fields of a split with the separator gives the text back |
| `JsText.SplitJoin` | client/src/lib/ics-generator.ts:76 | splitting a join of separator-free fields gives the fields back |
| `JsText.ClockTextFields` | client/src/lib/ics-generator.ts:80 | a clock text `H:MM` splits into exactly its two digit fields |
| `JsText.FieldAt` | client/src/lib/ics-generator.ts:50-51 | indexing past the end of a split gives `undefined` |
| `JsText.SliceEnd` | server/lib/openai.ts:180 | the end index of `slice(0, end)` never passes the length |
| `JsText.SliceTo` | server/lib/openai.ts:180 | `slice(0, end)` is a prefix: exactly `end` elements when `end` is within the length, everything when it is past it, and `end` elements dropped from the back when it is negative |
| `Calendar.DaysInMonth` | client/src/lib/ics-generator.ts:39 | every month has 28 to 31 days; February has 29 exactly in leap years |
| `Calendar.PrevDay` | client/src/lib/ics-generator.ts:39 | the day before a valid date is a valid, strictly earlier date |
| `Calendar.NextDay` | client/src/lib/ics-generator.ts:39 | `setDate(getDate() + 1)` gives a valid, strictly later date, and the day before it is the original date |
| `Calendar.NextOfPrev` | client/src/lib/ics-generator.ts:39 | one day back and then one day forward is the identity |
| `Calendar.NextDayIsImmediate` | client/src/lib/ics-generator.ts:39 | no valid date lies strictly between a date and the next day |
| `Calendar.AddDays` | client/src/lib/ics-generator.ts:38-39 | adding days to a valid date gives a valid date |
| `Calendar.AddDaysSucc` | client/src/lib/ics-generator.ts:38-39 | `n + 1` days on is the day after `n` days on |
| `Calendar.AddDaysAdd` | client/src/lib/ics-generator.ts:38-39 | adding `a` days and then `b` days is adding `a + b` days |
| `Calendar.AddDaysLater` | client/src/lib/ics-generator.ts:38-39 | a positive number of days lands strictly later |
| `Calendar.AddDaysMonotonic` | client/src/lib/ics-generator.ts:38-39 | days with smaller indices get strictly earlier dates |
| `Calendar.BeforeTransitive` | client/src/lib/ics-generator.ts:38-39 | "earlier than" is transitive |
| `IcsGenerator.StartOn` | client/src/lib/ics-generator.ts:46-49 | the start's month is reported 1-based, between 1 and 12 |
| `IcsGenerator.AccommodationEvent` | client/src/lib/ics-generator.ts:42-54 | title from the accommodation, description from its details, one hour, on the day's date |
| `IcsGenerator.TransportationEvent` | client/src/lib/ics-generator.ts:58-71 | title from the transportation, description from its details, one hour, on the day's date |
| `IcsGenerator.ActivityEvent` | client/src/lib/ics-generator.ts:75-97 | title from the activity, no description, on the day's date; the hour is a non-zero number and the minute a number |
| `IcsGenerator.ActivityDuration` | client/src/lib/ics-generator.ts:77-85 | no duration (or an empty one) lasts one hour; a duration without a separator is hours only, with no minutes |
| `IcsGenerator.ActivityClockFallbacks` | client/src/lib/ics-generator.ts:76-94 | for a time `h:m`, an hour that is NaN or 0 becomes 12 and a minute that is NaN or 0 becomes 0; any other number is kept |
| `IcsGenerator.ActivityWithoutMinutes` | client/src/lib/ics-generator.ts:76-94 | a time with no separator is an hour only (NaN or 0 becoming 12), at minute 0 |
| `IcsGenerator.ActivityEvents` | client/src/lib/ics-generator.ts:75-98 | one event per activity |
| `IcsGenerator.ActivityEventAt` | client/src/lib/ics-generator.ts:75-98 | the `k`-th activity event is the event of the `k`-th activity, so list order is kept |
| `IcsGenerator.BuildEvents` | client/src/lib/ics-generator.ts:35-99 | the loop over days builds exactly `EventsFrom(days, baseDate)` |
| `IcsGenerator.PushDayEvents` | client/src/lib/ics-generator.ts:37-98 | one pass of the day loop appends that day's events, dated by the current date |
| `IcsGenerator.PushLeadingEvents` | client/src/lib/ics-generator.ts:41-72 | appends the accommodation event (if any) and then the transportation event (if any) |
| `IcsGenerator.PushActivityEvents` | client/src/lib/ics-generator.ts:74-98 | the inner loop appends one event per activity, in order |
| `IcsGenerator.ActivityEventsSnoc` | client/src/lib/ics-generator.ts:75-98 | the events of one more activity are the previous events plus that activity's event |
| `IcsGenerator.EventsFrom` | client/src/lib/ics-generator.ts:37-99 | the number of events is the sum over days of [accommodation] + [transportation] + number of activities |
| `IcsGenerator.EventsFromSnoc` | client/src/lib/ics-generator.ts:37-99 | the events of one more day are the previous events plus that day's events, dated `i` days on |
| `IcsGenerator.GenerateEvents` | client/src/lib/ics-generator.ts:26-99 | rejects with "Invalid itinerary data" exactly when the input is missing or not an array; otherwise yields the events of the day list |
| `IcsGenerator.EventsOfPrefix` | client/src/lib/ics-generator.ts:37-98 | the events of the first `j` days are a prefix of all events, so days appear in day order |
| `IcsGenerator.DayBlock` | client/src/lib/ics-generator.ts:37-98 | day `i` occupies one contiguous block of the events, holding exactly its own events dated base date + `i` |
| `IcsGenerator.DayLayout` | client/src/lib/ics-generator.ts:41-98 | the events of one pass of the day loop (`DayEvents`, the `LeadingEvents` followed by the activity events) are the accommodation first, then the transportation, then the activities in list order |
| `IcsGenerator.DayEventsOnDate` | client/src/lib/ics-generator.ts:46-49 | every event of a day is on that day's date, with a month between 1 and 12 |
| `IcsGenerator.ActivityEventsOnDate` | client/src/lib/ics-generator.ts:89-92 | every activity event is on the day's date |
| `IcsGenerator.AppendDayChronological` | client/src/lib/ics-generator.ts:37-39 | appending a block dated on or after everything before keeps the list in date order |
| `IcsGenerator.EventsChronological` | client/src/lib/ics-generator.ts:37-39 | the events are in non-decreasing date order |
| `IcsGenerator.EventsNotAfter` | client/src/lib/ics-generator.ts:37-39 | no event is dated after base date + (number of days - 1) |
| `IcsGenerator.AccommodationAtCheckIn` | client/src/lib/ics-generator.ts:50-51 | a check-in time `H:MM` gives start hour `H` and minute `MM` |
| `IcsGenerator.AccommodationDefaultTime` | client/src/lib/ics-generator.ts:50-51 | no check-in time (or an empty one) gives 14:00 |
| `IcsGenerator.TransportationAtDeparture` | client/src/lib/ics-generator.ts:59-68 | a departure time `H:MM` gives start hour `H` and minute `MM` |
| `IcsGenerator.TransportationDefaultTime` | client/src/lib/ics-generator.ts:59-68 | no departure time (or an empty one) gives 10:00 |
| `IcsGenerator.AccommodationAnyClock` | client/src/lib/ics-generator.ts:50-51 | for any check-in text `h:m`, the start hour and minute are `parseInt` of the two fields, NaN included, with no fallback |
| `IcsGenerator.AccommodationWithoutMinutes` | client/src/lib/ics-generator.ts:50-51 | a check-in text without a separator starts at `parseInt` of the whole text and minute NaN (`parseInt(undefined)`) |
| `IcsGenerator.TransportationAnyClock` | client/src/lib/ics-generator.ts:59-68 | for any departure text `h:m`, the start hour and minute are `parseInt` of the two fields, NaN included, with no fallback |
| `IcsGenerator.TransportationWithoutMinutes` | client/src/lib/ics-generator.ts:59-68 | a departure text without a separator starts at `parseInt` of the whole text and minute NaN |
| `IcsGenerator.UnparsableHourContrast` | client/src/lib/ics-generator.ts:50-94 | the time "ab:00" gives an accommodation hour of NaN but an activity hour of 12 |
| `IcsGenerator.ActivityAtClockTime` | client/src/lib/ics-generator.ts:76-94 | an activity at `H:MM` starts at hour `H` (12 when `H` is 0) and minute `MM` |
| `IcsGenerator.ActivityDurationOfClock` | client/src/lib/ics-generator.ts:77-85 | a duration `H:MM` lasts `H` hours and `MM` minutes; no duration gives one hour |
| `IcsGenerator.ActivityDurationAnyClock` | client/src/lib/ics-generator.ts:77-85 | any duration `h:m` lasts `Number(h)` hours and `Number(m)` minutes, NaN included |
| `Selection.Without` | client/src/components/travel/questionnaire.tsx:345 | filtering removes every occurrence of the value and keeps every other value with its count |
| `Selection.WithoutAppend` | client/src/components/ui/combobox.tsx:37 | filtering distributes over concatenation, so the remaining values keep their order |
| `Selection.WithoutAbsent` | client/src/components/ui/combobox.tsx:37 | filtering out an absent value changes nothing |
| `Selection.WithoutIdempotent` | client/src/components/travel/questionnaire.tsx:461 | filtering twice is filtering once |
| `Selection.Toggle` | client/src/components/travel/questionnaire.tsx:343-348 | a selected value is removed entirely; an unselected one is appended at the end |
| `Selection.ToggleTwiceAbsent` | client/src/components/travel/questionnaire.tsx:343-348 | toggling an unselected value twice restores the list |
| `Selection.ToggleTwicePresent` | client/src/components/travel/questionnaire.tsx:343-348 | toggling a selected value twice leaves one occurrence, at the end |
| `TravelPlanner.ClampDays` | server/lib/openai.ts:207 | the template's day count is between 1 and 30, equals the request when it is in range, and is 1 below it and 30 above it |
| `TravelPlanner.TemplateDays` | server/lib/openai.ts:207-219 | a missing (NaN) count gives an empty template; a number gives 1 to 30 days, exactly the count when it is in that range |
| `TravelPlanner.ActivityTypes` | server/lib/openai.ts:210-217 | the activity types never include "custom" and have at least four entries, so indexing modulo their length is in bounds |
| `TravelPlanner.Tabulate` | server/lib/openai.ts:219 | `Array.from({ length: k }, f)` has `k` elements |
| `TravelPlanner.TabulateAt` | server/lib/openai.ts:219 | element `i` of it is `f(i)` |
| `TravelPlanner.BasicAccommodation` | server/lib/openai.ts:221-227 | "Hotel Check-in" on day 0 and "Hotel Stay" after, at the request's coordinates, with a booking link |
| `TravelPlanner.BasicTransportation` | server/lib/openai.ts:228-235 | through `TransportTitle` and `RouteFor`: "Arrival" on day 0, "Departure" on the last day, "Local Transport" in between; an airport transfer exactly on the first and last day; a route from and to the coordinates exactly when they are given |
| `TravelPlanner.BasicActivityList` | server/lib/openai.ts:236-264 | three activities at 09:00 (3:00), 13:00 (1:00) and 15:00 (3:00); "Welcome Orientation" first, "Prepare for Departure" last; categories drawn from the activity types |
| `TravelPlanner.BasicDay` | server/lib/openai.ts:219-265 | template day `i` is numbered `i + 1` and holds that day's accommodation, transportation and activities |
| `TravelPlanner.BasicRecommendations` | server/lib/openai.ts:269-275 | the template carries five recommendations (the third lists the activities with `Join`) |
| `TravelPlanner.BasicItinerary` | server/lib/openai.ts:198-277 | the template itinerary has `TemplateDays` days and five recommendations |
| `TravelPlanner.BasicItineraryAt` | server/lib/openai.ts:219-265 | day `i` of the template itinerary is template day `i` |
| `TravelPlanner.BasicDayNumbers` | server/lib/openai.ts:219-220 | element `i` has day number `i + 1` |
| `TravelPlanner.BasicAccommodationTitles` | server/lib/openai.ts:221-222 | "Hotel Check-in" on the first day, "Hotel Stay" on every other day |
| `TravelPlanner.BasicTransportTitle` | server/lib/openai.ts:228-229 | "Arrival" on the first day, "Departure" on the last day of a longer trip, "Local Transport" in between |
| `TravelPlanner.BasicActivities` | server/lib/openai.ts:236-264 | the same for each day of the template itinerary, whose categories are never "custom" |
| `TravelPlanner.PadDay` | server/lib/openai.ts:140-176 | a padded day keeps its number and the accommodation it is given, travels by "Local Transport" and has three two-hour activities at 10:00, 14:00 and 16:00 |
| `TravelPlanner.PaddedTo` | server/lib/openai.ts:137-177 | padding reaches the requested length, keeps the returned days as a prefix, and the last day repeats the original last accommodation |
| `TravelPlanner.PaddedStep` | server/lib/openai.ts:137-176 | one more pass of the loop appends a day copying the accommodation of the last day so far |
| `TravelPlanner.Adjusted` | server/lib/openai.ts:133-182 | throws exactly when the reply has no days and at least one is requested; a NaN count changes nothing; a non-negative count gets exactly that many days, a negative one drops days from the end as `slice` does; the first days are kept unchanged |
| `TravelPlanner.AdjustedPlan` | server/lib/openai.ts:133-188 | a count of 1 to 30 comes out exact; a reply with days keeps its recommendations; a NaN count returns the reply as it is |
| `TravelPlanner.AdjustDayCount` | server/lib/openai.ts:133-188 | the loop that pads in place and then slices computes `AdjustedPlan`, including the fall-back when there is no last day |
| `TravelPlanner.GenerateTravelPlan` | server/lib/openai.ts:56-194 | no usable reply gives the template itinerary; a reply is adjusted; a request of 1 to 30 days always gets exactly that many days; without a count the reply's days (or no days) come back |
| `TravelPlanner.PaddedDay` | server/lib/openai.ts:137-176 | the padded day at position `k` is numbered `k + 1` and repeats the original last day's accommodation |
| `Questionnaire.ClearSeasonIfDated` | client/src/components/travel/questionnaire.tsx:63-69 | once both dates are set the season is cleared; otherwise nothing changes, and no other field ever changes |
| `Questionnaire.WithActivityChecked` | client/src/components/travel/questionnaire.tsx:430-435 | checking appends the value at the end; unchecking removes every occurrence and keeps the other counts |
| `Questionnaire.WithCustomActivity` | client/src/components/travel/questionnaire.tsx:456-462 | "custom" is selected exactly when the text is non-empty; every other activity keeps its count; with text, a missing "custom" is appended at the end and a present one is left alone; without text, every "custom" is filtered out |
| `Questionnaire.SeasonOfMonth` | client/src/components/travel/questionnaire.tsx:146-150 | with 0-based months, 2-4 is spring, 5-7 summer, 8-10 autumn and every other month winter, each in both directions; among real months winter is exactly December, January and February |
| `Questionnaire.CurrentSeason` | client/src/components/travel/questionnaire.tsx:140-153 | a season exists exactly when one is chosen or a start date is set; it is never empty; a chosen season wins |
| `Questionnaire.FormValid` | client/src/components/travel/questionnaire.tsx:21-33 | a form the schema accepts always has a season for the destination suggestions |
| `Questionnaire.Advances` | client/src/components/travel/questionnaire.tsx:108-131 | through `HasSelectedDates`, `HasSelectedSeason` and `HasValidTimeSelection` (lines 109-111, 136-138): step 1 advances exactly with both dates or a non-empty season, step 2 exactly with a destination; a form the schema accepts passes every guard |
| `Questionnaire.NextDisabled` | client/src/components/travel/questionnaire.tsx:485-492 | "Next" is greyed out exactly when `nextStep` would stay on the same step |
| `Questionnaire.StartDateSelectable` | client/src/components/travel/questionnaire.tsx:201-203 | a selectable start date is also a selectable end date for itself |
| `Questionnaire.EndDateSelectable` | client/src/components/travel/questionnaire.tsx:240-243 | after a start date later than today, every selectable end date is later than today too |
| `Questionnaire.Wizard.constructor` | client/src/components/travel/questionnaire.tsx:54-61 | the wizard starts at step 1 with the default form values |
| `Questionnaire.Wizard.NextStep` | client/src/components/travel/questionnaire.tsx:105-132 | the step goes up by one exactly when the current step's guard holds; the form is untouched |
| `Questionnaire.Wizard.PrevStep` | client/src/components/travel/questionnaire.tsx:134 | the step goes down by one; the form is untouched |
| `Questionnaire.Wizard.ClickDatePanel` | client/src/components/travel/questionnaire.tsx:164-168 | a click on the date panel clears a chosen season |
| `Questionnaire.Wizard.ClickSeasonPanel` | client/src/components/travel/questionnaire.tsx:262-268 | a click on the season panel clears a chosen date range |
| `Questionnaire.Wizard.SelectSeason` | client/src/components/travel/questionnaire.tsx:279-286 | choosing a season sets it and clears both dates |
| `Questionnaire.Wizard.SetStartDate` | client/src/components/travel/questionnaire.tsx:192-203 | picking a start date sets it, and a complete date range then clears the season |
| `Questionnaire.Wizard.SetEndDate` | client/src/components/travel/questionnaire.tsx:233-243 | picking an end date sets it, and a complete date range then clears the season |
| `Questionnaire.Wizard.ToggleDestination` | client/src/components/travel/questionnaire.tsx:342-348 | a destination card toggles its id in the selection |
| `Questionnaire.Wizard.SelectTravelerType` | client/src/components/travel/questionnaire.tsx:386-388 | the chosen traveler type replaces the previous one |
| `Questionnaire.Wizard.SetActivityChecked` | client/src/components/travel/questionnaire.tsx:430-435 | an activity checkbox updates the activities as `WithActivityChecked` does |
| `Questionnaire.Wizard.SetCustomActivity` | client/src/components/travel/questionnaire.tsx:456-462 | the text box stores the text and updates the activities as `WithCustomActivity` does |
| `Questionnaire.CustomActivityIdempotent` | client/src/components/travel/questionnaire.tsx:456-462 | typing the same text again changes nothing more |
| `Questionnaire.CheckThenUncheck` | client/src/components/travel/questionnaire.tsx:430-435 | checking and then unchecking a box removes that activity altogether |
| `Questionnaire.CheckThenUncheckAbsent` | client/src/components/travel/questionnaire.tsx:430-435 | for an activity not yet chosen, checking and unchecking restores the list |
| `Questionnaire.DatedSeason` | client/src/components/travel/questionnaire.tsx:140-153 | with both dates chosen the suggestions follow the start date's month |
| `Combobox.Find` | client/src/components/ui/combobox.tsx:34 | finds the first option with the value, and finds one exactly when one exists |
| `Combobox.Selected` | client/src/components/ui/combobox.tsx:34 | one badge per chosen value, in order, each the first option with that value; all are found when every value has an option |
| `Combobox.RemoveValue` | client/src/components/ui/combobox.tsx:36-38 | removing a value drops every occurrence of it and nothing else |
| `Combobox.SelectOption` | client/src/components/ui/combobox.tsx:88-92 | a chosen option is removed entirely; another is appended at the end |
| `Combobox.TriggerLabel` | client/src/components/ui/combobox.tsx:72-74 | the placeholder (or "Select options...") when nothing is chosen, else "<n> selected" |
| `Combobox.TriggerLabelCount` | client/src/components/ui/combobox.tsx:72-74 | the number in "<n> selected" reads back as the number of chosen values |
| `Combobox.RemoveValueKeepsOrder` | client/src/components/ui/combobox.tsx:36-38 | the remaining values keep their relative order |
| `Combobox.SelectTwiceRestores` | client/src/components/ui/combobox.tsx:88-92 | selecting an unchosen option twice restores the choice |
| `PlanExport.ExportActivities` | client/src/components/travel/questionnaire.tsx:85-86 | a plan day's activities go to the export one for one, each through `ExportActivity` (time, title, duration kept) |
| `PlanExport.ExportDay` | client/src/components/travel/questionnaire.tsx:85-86 | a plan day always exports with accommodation and transportation, so it gives 2 + (number of activities) events |
| `PlanExport.ExportDays` | client/src/components/travel/questionnaire.tsx:85-86 | a plan's days go to the export one for one |
| `PlanExport.ExportActivityAt` | client/src/components/travel/questionnaire.tsx:85-86 | activity `k` exports as activity `k` |
| `PlanExport.ExportDayAt` | client/src/components/travel/questionnaire.tsx:85-86 | day `i` exports as day `i` |
| `PlanExport.FiveEventsPerDay` | client/src/lib/ics-generator.ts:37-98 | days of three activities each give five events per day |
| `PlanExport.LeadingDefaults` | client/src/lib/ics-generator.ts:50-70 | a plan day's accommodation is exported at 14:00 and its transportation at 10:00, one hour each |
| `PlanExport.ActivityEventInDay` | client/src/lib/ics-generator.ts:41-98 | the event of activity `k` follows the accommodation and transportation events |
| `PlanExport.ActivityStart` | client/src/lib/ics-generator.ts:76-94 | an activity at `H:MM` lasting `D:00` starts at `H:MM` and lasts `D` hours |
| `PlanExport.ActivitySlot` | client/src/lib/ics-generator.ts:75-97 | activity `k` of a plan day is event `2 + k`, at its clock time for its duration |
| `PlanExport.TemplateSlots` | server/lib/openai.ts:236-264 | the three template activities export at 09:00 for 3 h, 13:00 for 1 h and 15:00 for 3 h |
| `PlanExport.TemplateDayEvents` | server/lib/openai.ts:219-265 | a template day exports as five events: 14:00 and 10:00 for one hour, then 09:00, 13:00 and 15:00 |
| `PlanExport.PrefixEvents` | client/src/lib/ics-generator.ts:37-98 | the first `j` days of three activities each hold `5 j` events |
| `PlanExport.ExportPrefix` | client/src/components/travel/questionnaire.tsx:85-86 | exporting a prefix of the days is the prefix of the export |
| `PlanExport.PlanEvents` | client/src/lib/ics-generator.ts:37-98 | with three activities a day, the events of day `i` are positions `5 i` to `5 i + 4`, dated `i` days after the base date |
| `PlanExport.TemplatePlanEvents` | client/src/components/travel/questionnaire.tsx:85-86 | a template plan of `n` days exports as `5 n` events, five per day, in day order |
| `PlanExport.UndefinedCountExportsNothing` | server/lib/openai.ts:207-219 | without a day count the template itinerary exports no event |

## Left out

- iCalendar serialisation (`createEvents` from the `ics` library), the `Blob` and the
  object URL: these are foreign calls. The model stops at the list of events handed to
  `createEvents`, and the promise becomes a `Result`.
- Reading the clock with `new Date()`: the base date of the export and "today" in the
  date pickers are parameters. Dates are calendar days at local midnight, so time zones
  and daylight saving are not modelled.
- The date pickers compare a day at midnight with the current instant. The model takes
  that instant to be later than midnight, so today itself cannot be picked as a start
  date. Which days are selectable is a `requires` of `SetStartDate` and `SetEndDate`,
  because the calendar does not offer the others.
- `Number(...)` forms other than an optionally signed run of decimal digits surrounded
  by white space (fractions, exponents, hexadecimal, `Infinity`) read as NaN here. The
  hex prefix of `parseInt` is not modelled. White space is the ASCII set only. Times
  in this code are digit fields, so the difference does not arise for well-formed times.
- Activity minutes whose text parses to a non-integer: numbers are integers or NaN.
- The prompt, the call to the language-model service, `JSON.parse` and the API-key check:
  `GenerateTravelPlan` takes the parsed reply as an `Option`, with `None` for every path
  that falls back before the adjustment. A reply whose itinerary is malformed in ways
  other than being empty is not modelled.
- `numberOfDays` is an integer or NaN (the missing count reads as `undefined`); a
  fractional count is not modelled.
- `specificDate` only feeds the prompt, so `Preferences` leaves it out.
- Latitude and longitude are carried as opaque `real` pairs.
- `console.log` and `console.error` output.
- The questionnaire's rendering:
  - toasts, popovers and the `endDateOpen` flag;
  - the duration text shown under the dates (`differenceInDays`);
  - the destination search query and its fetch;
  - the submission to the server and its error toast.
  The plan returned on success is followed into the export by `PlanExport`.
- The radio groups and checkbox lists only offer fixed values from the constants file.
  The model accepts any string there.
- The combobox's `open` flag and its command-palette search.
- `Combobox.Selected`: the source asserts that every chosen value has an option (the
  non-null `!`). The model returns `None` for a value without an option instead of
  failing later at render time.
- Every other file of the repository (destination search and ratings, maps, database,
  routes, static tables and presentational components).
