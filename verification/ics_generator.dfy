/**
 * Flattening a day-by-day itinerary into calendar events, as the export does before
 * handing the events to the iCalendar serialiser. Day `i` (0-based) is dated `i` days
 * after the base date; within a day the accommodation event comes first, then the
 * transportation event, then one event per activity in list order.
 */
module IcsGenerator {
  import opened Wrappers
  import opened JsText
  import opened Calendar

  datatype Accommodation = Accommodation(
    title: string, details: string, checkInTime: Option<string>, checkOutTime: Option<string>)

  /** A day's transportation is a single optional object, not a list. */
  datatype Transportation = Transportation(
    title: string, details: string, departureTime: Option<string>, arrivalTime: Option<string>)

  datatype ActivityItem = ActivityItem(time: string, title: string, duration: Option<string>)

  datatype DayItinerary = DayItinerary(
    day: int,
    accommodation: Option<Accommodation>,
    transportation: Option<Transportation>,
    activities: seq<ActivityItem>)

  /** What the export may be handed: nothing, something that is not an array, or a day list. */
  datatype ItineraryInput = Missing | NotAnArray | Days(days: seq<DayItinerary>)

  /** `[year, month (1-12), day, hour, minute]`. */
  datatype Start = Start(year: int, month: int, day: int, hour: Num, minute: Num)

  /** `{ hours, minutes? }`; `minutes` is absent when the duration text has no second field. */
  datatype Duration = Duration(hours: Num, minutes: Option<Num>)

  datatype Event = Event(title: string, description: Option<string>, start: Start, duration: Duration)

  const InvalidItinerary: string := "Invalid itinerary data"
  const OneHour: Duration := Duration(Int(1), None)

  /** The event start on `date` at the given hour and minute, with the month reported 1-based. */
  function StartOn(date: Date, hour: Num, minute: Num): (s: Start)
    requires Valid(date)
    ensures 1 <= s.month <= 12
  {
    Start(date.year, date.monthIndex + 1, date.day, hour, minute)
  }

  /** The calendar day an event starts on, back in `Date` form. */
  function EventDate(e: Event): Date {
    Date(e.start.year, e.start.month - 1, e.start.day)
  }

  /** One hour at check-in time; 14:00 when no check-in time is given. */
  function AccommodationEvent(a: Accommodation, date: Date): (e: Event)
    requires Valid(date)
    ensures e.title == a.title && e.description == Some(a.details)
    ensures e.duration == OneHour && EventDate(e) == date
  {
    var hour := if Present(a.checkInTime) then ParseIntOpt(FieldAt(Split(a.checkInTime.value, ':'), 0)) else Int(14);
    var minute := if Present(a.checkInTime) then ParseIntOpt(FieldAt(Split(a.checkInTime.value, ':'), 1)) else Int(0);
    Event(a.title, Some(a.details), StartOn(date, hour, minute), OneHour)
  }

  /** One hour at departure time; the fields "10" and "00" when no departure time is given. */
  function TransportationEvent(t: Transportation, date: Date): (e: Event)
    requires Valid(date)
    ensures e.title == t.title && e.description == Some(t.details)
    ensures e.duration == OneHour && EventDate(e) == date
  {
    var startTime := if Present(t.departureTime) then Split(t.departureTime.value, ':') else ["10", "00"];
    Event(t.title, Some(t.details),
          StartOn(date, ParseIntOpt(FieldAt(startTime, 0)), ParseIntOpt(FieldAt(startTime, 1))),
          OneHour)
  }

  /**
   * The duration of an activity: one hour unless a duration text is given; a text without
   * a separator gives hours only, with the minutes absent.
   */
  function ActivityDuration(duration: Option<string>): (d: Duration)
    ensures !Present(duration) ==> d == OneHour
    ensures Present(duration) && ':' !in duration.value ==> d == Duration(ToNumber(duration.value), None)
  {
    if Present(duration) then
      var parts := Split(duration.value, ':');
      assert ':' !in duration.value ==> parts == [duration.value] by {
        if ':' !in duration.value {
          SplitNoSep(duration.value, ':');
        }
      }
      Duration(ToNumber(parts[0]), if |parts| > 1 then Some(ToNumber(parts[1])) else None)
    else OneHour
  }

  /**
   * An activity event has no description; its start hour falls back to 12 when the
   * parsed hour is 0 or NaN and its minute to 0, so both are always numbers.
   */
  function ActivityEvent(a: ActivityItem, date: Date): (e: Event)
    requires Valid(date)
    ensures e.title == a.title && e.description == None && EventDate(e) == date
    ensures Truthy(e.start.hour) && e.start.minute.Int?
  {
    var parts := Split(a.time, ':');
    var hours := OrElse(ToNumber(parts[0]), 12);
    var minutes := if |parts| > 1 then OrElse(ToNumber(parts[1]), 0) else Int(0);
    Event(a.title, None, StartOn(date, hours, minutes), ActivityDuration(a.duration))
  }

  /** One event per activity, in list order. */
  function ActivityEvents(acts: seq<ActivityItem>, date: Date): (r: seq<Event>)
    requires Valid(date)
    ensures |r| == |acts|
    decreases |acts|
  {
    if acts == [] then []
    else ActivityEvents(acts[..|acts| - 1], date) + [ActivityEvent(acts[|acts| - 1], date)]
  }

  /** The `k`-th activity event is the event of the `k`-th activity. */
  lemma {:induction false} ActivityEventAt(acts: seq<ActivityItem>, date: Date, k: nat)
    requires Valid(date) && k < |acts|
    ensures ActivityEvents(acts, date)[k] == ActivityEvent(acts[k], date)
    decreases |acts|
  {
    if k < |acts| - 1 {
      ActivityEventAt(acts[..|acts| - 1], date, k);
    }
  }

  /** The accommodation and transportation events of a day, in that order. */
  function LeadingEvents(d: DayItinerary, date: Date): seq<Event>
    requires Valid(date)
  {
    (if d.accommodation.Some? then [AccommodationEvent(d.accommodation.value, date)] else [])
    + (if d.transportation.Some? then [TransportationEvent(d.transportation.value, date)] else [])
  }

  function DayEvents(d: DayItinerary, date: Date): seq<Event>
    requires Valid(date)
  {
    LeadingEvents(d, date) + ActivityEvents(d.activities, date)
  }

  /** [accommodation present] + [transportation present] + number of activities. */
  function EventCount(d: DayItinerary): nat {
    (if d.accommodation.Some? then 1 else 0)
    + (if d.transportation.Some? then 1 else 0)
    + |d.activities|
  }

  /** The sum of `EventCount` over a day list. */
  function TotalEvents(days: seq<DayItinerary>): nat
    decreases |days|
  {
    if days == [] then 0 else TotalEvents(days[..|days| - 1]) + EventCount(days[|days| - 1])
  }

  /**
   * The events of a whole day list, day `i` dated `i` days after `baseDate`: each day
   * contributes exactly its `EventCount` events.
   */
  function EventsFrom(days: seq<DayItinerary>, baseDate: Date): (r: seq<Event>)
    requires Valid(baseDate)
    ensures |r| == TotalEvents(days)
    decreases |days|
  {
    if days == [] then []
    else EventsFrom(days[..|days| - 1], baseDate) + DayEvents(days[|days| - 1], AddDays(baseDate, |days| - 1))
  }

  /** The outer loop over days: day `index` is dated `index` days after the base date. */
  method BuildEvents(days: seq<DayItinerary>, baseDate: Date) returns (events: seq<Event>)
    requires Valid(baseDate)
    ensures events == EventsFrom(days, baseDate)
  {
    events := [];
    var index := 0;
    while index < |days|
      invariant 0 <= index <= |days|
      invariant events == EventsFrom(days[..index], baseDate)
    {
      var currentDate := AddDays(baseDate, index);
      events := PushDayEvents(events, days[index], currentDate);
      EventsFromSnoc(days, baseDate, index);
      index := index + 1;
    }
    assert days[..index] == days;
  }

  /** The body of the loop over days: push the accommodation, the transportation, then each activity. */
  method PushDayEvents(events0: seq<Event>, day: DayItinerary, currentDate: Date) returns (events: seq<Event>)
    requires Valid(currentDate)
    ensures events == events0 + DayEvents(day, currentDate)
  {
    events := PushLeadingEvents(events0, day, currentDate);
    events := PushActivityEvents(events, day.activities, currentDate);
  }

  /** The accommodation event if the day has one, then the transportation event if it has one. */
  method PushLeadingEvents(events0: seq<Event>, day: DayItinerary, currentDate: Date) returns (events: seq<Event>)
    requires Valid(currentDate)
    ensures events == events0 + LeadingEvents(day, currentDate)
  {
    events := events0;
    if day.accommodation.Some? {
      events := events + [AccommodationEvent(day.accommodation.value, currentDate)];
    }
    if day.transportation.Some? {
      events := events + [TransportationEvent(day.transportation.value, currentDate)];
    }
  }

  /** The inner loop over a day's activities. */
  method PushActivityEvents(events0: seq<Event>, acts: seq<ActivityItem>, currentDate: Date) returns (events: seq<Event>)
    requires Valid(currentDate)
    ensures events == events0 + ActivityEvents(acts, currentDate)
  {
    events := events0;
    var k := 0;
    while k < |acts|
      invariant 0 <= k <= |acts|
      invariant events == events0 + ActivityEvents(acts[..k], currentDate)
    {
      ActivityEventsSnoc(acts, currentDate, k);
      events := events + [ActivityEvent(acts[k], currentDate)];
      k := k + 1;
    }
    assert acts[..k] == acts;
  }

  lemma ActivityEventsSnoc(acts: seq<ActivityItem>, date: Date, k: nat)
    requires Valid(date) && k < |acts|
    ensures ActivityEvents(acts[..k + 1], date) == ActivityEvents(acts[..k], date) + [ActivityEvent(acts[k], date)]
  {
    assert acts[..k + 1][..k] == acts[..k];
  }

  lemma EventsFromSnoc(days: seq<DayItinerary>, baseDate: Date, i: nat)
    requires Valid(baseDate) && i < |days|
    ensures EventsFrom(days[..i + 1], baseDate) == EventsFrom(days[..i], baseDate) + DayEvents(days[i], AddDays(baseDate, i))
  {
    assert days[..i + 1][..i] == days[..i];
  }

  /**
   * The export up to serialisation: a missing or non-array itinerary is rejected with
   * "Invalid itinerary data" and no events are built; otherwise every day is flattened.
   */
  method GenerateEvents(input: ItineraryInput, baseDate: Date) returns (r: Result<seq<Event>>)
    requires Valid(baseDate)
    ensures !input.Days? <==> r == Err(InvalidItinerary)
    ensures input.Days? ==> r == Ok(EventsFrom(input.days, baseDate))
  {
    if !input.Days? {
      return Err(InvalidItinerary);
    }
    var events := BuildEvents(input.days, baseDate);
    r := Ok(events);
  }

  // ---------------------------------------------------------------- properties

  /** The events of the first `j` days are a prefix of the events of all days. */
  lemma {:induction false} EventsOfPrefix(days: seq<DayItinerary>, baseDate: Date, j: nat)
    requires Valid(baseDate) && j <= |days|
    ensures EventsFrom(days[..j], baseDate) <= EventsFrom(days, baseDate)
    decreases |days|
  {
    if j < |days| {
      var init := days[..|days| - 1];
      assert init[..j] == days[..j];
      EventsOfPrefix(init, baseDate, j);
    } else {
      assert days[..j] == days;
    }
  }

  /**
   * Days appear in order: the events of day `i` sit right after those of days `0..i-1`,
   * and they are exactly that day's events dated `i` days after the base date.
   */
  lemma DayBlock(days: seq<DayItinerary>, baseDate: Date, i: nat)
    requires Valid(baseDate) && i < |days|
    ensures TotalEvents(days[..i]) + EventCount(days[i]) == TotalEvents(days[..i + 1])
    ensures TotalEvents(days[..i + 1]) <= |EventsFrom(days, baseDate)|
    ensures EventsFrom(days, baseDate)[TotalEvents(days[..i])..TotalEvents(days[..i + 1])]
            == DayEvents(days[i], AddDays(baseDate, i))
  {
    var pre := days[..i + 1];
    assert pre[..i] == days[..i] && pre[i] == days[i];
    EventsFromSnoc(days, baseDate, i);
    EventsOfPrefix(days, baseDate, i + 1);
    var front := EventsFrom(days[..i], baseDate);
    var block := DayEvents(days[i], AddDays(baseDate, i));
    assert EventsFrom(pre, baseDate) == front + block;
    assert |front| == TotalEvents(days[..i]) && |front + block| == TotalEvents(pre);
    assert (front + block)[|front|..] == block;
  }

  /**
   * Within a day: the accommodation event first, then the transportation event, then
   * the activity events in list order; nothing else.
   */
  lemma DayLayout(d: DayItinerary, date: Date)
    requires Valid(date)
    ensures |DayEvents(d, date)| == EventCount(d)
    ensures d.accommodation.Some? ==> DayEvents(d, date)[0] == AccommodationEvent(d.accommodation.value, date)
    ensures d.accommodation.Some? && d.transportation.Some? ==>
      DayEvents(d, date)[1] == TransportationEvent(d.transportation.value, date)
    ensures d.accommodation.None? && d.transportation.Some? ==>
      DayEvents(d, date)[0] == TransportationEvent(d.transportation.value, date)
    ensures forall k :: 0 <= k < |d.activities| ==>
      DayEvents(d, date)[EventCount(d) - |d.activities| + k] == ActivityEvent(d.activities[k], date)
  {
    var lead := LeadingEvents(d, date);
    assert |lead| == EventCount(d) - |d.activities|;
    forall k | 0 <= k < |d.activities|
      ensures DayEvents(d, date)[|lead| + k] == ActivityEvent(d.activities[k], date)
    {
      ActivityEventAt(d.activities, date, k);
    }
  }

  /** Every event of a day is dated on that day. */
  lemma DayEventsOnDate(d: DayItinerary, date: Date)
    requires Valid(date)
    ensures forall e :: e in DayEvents(d, date) ==> EventDate(e) == date && 1 <= e.start.month <= 12
  {
    ActivityEventsOnDate(d.activities, date);
  }

  lemma {:induction false} ActivityEventsOnDate(acts: seq<ActivityItem>, date: Date)
    requires Valid(date)
    ensures forall e :: e in ActivityEvents(acts, date) ==> EventDate(e) == date && 1 <= e.start.month <= 12
    decreases |acts|
  {
    if acts != [] {
      ActivityEventsOnDate(acts[..|acts| - 1], date);
    }
  }

  /** Event dates never decrease along the list. */
  predicate Chronological(events: seq<Event>) {
    forall p, q :: 0 <= p < q < |events| ==> OnOrBefore(EventDate(events[p]), EventDate(events[q]))
  }

  /** Appending a block dated `d` to a chronological list dated no later than `d` keeps it chronological. */
  lemma AppendDayChronological(front: seq<Event>, block: seq<Event>, d: Date)
    requires Chronological(front)
    requires forall e :: e in front ==> OnOrBefore(EventDate(e), d)
    requires forall e :: e in block ==> EventDate(e) == d
    ensures Chronological(front + block)
  {
  }

  /** Events never go back in time: their dates are non-decreasing along the list. */
  lemma {:induction false} EventsChronological(days: seq<DayItinerary>, baseDate: Date)
    requires Valid(baseDate)
    ensures Chronological(EventsFrom(days, baseDate))
    decreases |days|
  {
    if days != [] {
      var n := |days| - 1;
      var init := days[..n];
      var d := AddDays(baseDate, n);
      EventsChronological(init, baseDate);
      EventsNotAfter(days, baseDate);
      DayEventsOnDate(days[n], d);
      forall e | e in EventsFrom(init, baseDate) ensures OnOrBefore(EventDate(e), d) {
        assert e in EventsFrom(days, baseDate);
      }
      AppendDayChronological(EventsFrom(init, baseDate), DayEvents(days[n], d), d);
    }
  }

  /** No event of a day list is dated after its last day. */
  lemma {:induction false} EventsNotAfter(days: seq<DayItinerary>, baseDate: Date)
    requires Valid(baseDate) && days != []
    ensures forall e :: e in EventsFrom(days, baseDate) ==> OnOrBefore(EventDate(e), AddDays(baseDate, |days| - 1))
    decreases |days|
  {
    var n := |days| - 1;
    var d := AddDays(baseDate, n);
    var init := days[..n];
    var block := DayEvents(days[n], d);
    assert EventsFrom(days, baseDate) == EventsFrom(init, baseDate) + block;
    DayEventsOnDate(days[n], d);
    if n == 0 {
      assert EventsFrom(init, baseDate) == [];
    } else {
      EventsNotAfter(init, baseDate);
      var prev := AddDays(baseDate, n - 1);
      AddDaysMonotonic(baseDate, n - 1, n);
      forall e | e in EventsFrom(init, baseDate)
        ensures OnOrBefore(EventDate(e), d)
      {
        if EventDate(e) != prev {
          BeforeTransitive(EventDate(e), prev, d);
        }
      }
    }
  }

  // ---------------------------------------------------------------- start times

  /** A check-in time "H:MM" or "HH:MM" becomes the start hour and minute. */
  lemma AccommodationAtCheckIn(a: Accommodation, date: Date, h: string, m: string)
    requires Valid(date)
    requires |h| > 0 && AllDigits(h) && |m| > 0 && AllDigits(m)
    requires a.checkInTime == Some(h + ":" + m)
    ensures AccommodationEvent(a, date).start.hour == Int(DigitsValue(h))
    ensures AccommodationEvent(a, date).start.minute == Int(DigitsValue(m))
  {
    ClockTextFields(h, m);
    ParseIntDigitsThen(h, []);
    ParseIntDigitsThen(m, []);
    assert h + [] == h && m + [] == m;
  }

  /** Without a check-in time the accommodation event starts at 14:00. */
  lemma AccommodationDefaultTime(a: Accommodation, date: Date)
    requires Valid(date) && !Present(a.checkInTime)
    ensures AccommodationEvent(a, date).start.hour == Int(14)
    ensures AccommodationEvent(a, date).start.minute == Int(0)
  {
  }

  /** A departure time "H:MM" or "HH:MM" becomes the start hour and minute. */
  lemma TransportationAtDeparture(t: Transportation, date: Date, h: string, m: string)
    requires Valid(date)
    requires |h| > 0 && AllDigits(h) && |m| > 0 && AllDigits(m)
    requires t.departureTime == Some(h + ":" + m)
    ensures TransportationEvent(t, date).start.hour == Int(DigitsValue(h))
    ensures TransportationEvent(t, date).start.minute == Int(DigitsValue(m))
  {
    ClockTextFields(h, m);
    ParseIntDigitsThen(h, []);
    ParseIntDigitsThen(m, []);
    assert h + [] == h && m + [] == m;
  }

  /** Without a departure time the transportation event starts at 10:00. */
  lemma TransportationDefaultTime(t: Transportation, date: Date)
    requires Valid(date) && !Present(t.departureTime)
    ensures TransportationEvent(t, date).start.hour == Int(10)
    ensures TransportationEvent(t, date).start.minute == Int(0)
  {
    ParseIntDigitsThen("10", []);
    ParseIntDigitsThen("00", []);
    assert "10" + [] == "10" && "00" + [] == "00";
  }

  /**
   * Any check-in text "h:m" with one separator: both fields go through `parseInt` and are
   * kept as they come, NaN included; unlike an activity, nothing falls back.
   */
  lemma AccommodationAnyClock(a: Accommodation, date: Date, h: string, m: string)
    requires Valid(date)
    requires ':' !in h && ':' !in m && a.checkInTime == Some(h + ":" + m)
    ensures AccommodationEvent(a, date).start.hour == ParseInt(h)
    ensures AccommodationEvent(a, date).start.minute == ParseInt(m)
  {
    SplitCons(h, ':', m);
    SplitNoSep(m, ':');
  }

  /** A check-in text without a separator has no second field: its minute is `parseInt(undefined)`, NaN. */
  lemma AccommodationWithoutMinutes(a: Accommodation, date: Date)
    requires Valid(date)
    requires Present(a.checkInTime) && ':' !in a.checkInTime.value
    ensures AccommodationEvent(a, date).start.hour == ParseInt(a.checkInTime.value)
    ensures AccommodationEvent(a, date).start.minute == NaN
  {
    SplitNoSep(a.checkInTime.value, ':');
  }

  /** Any departure text "h:m" with one separator: both fields parsed and kept, NaN included. */
  lemma TransportationAnyClock(t: Transportation, date: Date, h: string, m: string)
    requires Valid(date)
    requires ':' !in h && ':' !in m && t.departureTime == Some(h + ":" + m)
    ensures TransportationEvent(t, date).start.hour == ParseInt(h)
    ensures TransportationEvent(t, date).start.minute == ParseInt(m)
  {
    SplitCons(h, ':', m);
    SplitNoSep(m, ':');
  }

  /** A departure text without a separator starts at minute NaN. */
  lemma TransportationWithoutMinutes(t: Transportation, date: Date)
    requires Valid(date)
    requires Present(t.departureTime) && ':' !in t.departureTime.value
    ensures TransportationEvent(t, date).start.hour == ParseInt(t.departureTime.value)
    ensures TransportationEvent(t, date).start.minute == NaN
  {
    SplitNoSep(t.departureTime.value, ':');
  }

  /**
   * The same text "ab:00" as a check-in time and as an activity time: the accommodation
   * starts at hour NaN, the activity falls back to 12.
   */
  lemma UnparsableHourContrast(a: Accommodation, x: ActivityItem, date: Date)
    requires Valid(date)
    requires a.checkInTime == Some("ab:00") && x.time == "ab:00"
    ensures AccommodationEvent(a, date).start.hour == NaN
    ensures ActivityEvent(x, date).start.hour == Int(12)
  {
    assert "ab:00" == "ab" + ":" + "00";
    AccommodationAnyClock(a, date, "ab", "00");
    ActivityClockFallbacks(x, date, "ab", "00");
    LettersAreNaN();
  }

  /** Neither `parseInt` nor `Number` reads a number from "ab". */
  lemma LettersAreNaN()
    ensures ParseInt("ab") == NaN && ToNumber("ab") == NaN
  {
    var ab := "ab";
    assert !IsSpace(ab[0]) && !IsSpace(ab[1]) && !IsDigit(ab[0]);
    assert TrimStart(ab) == ab && TrimEnd(ab) == ab;
    assert SignAndBody(ab) == (false, ab);
    assert !AllDigits(ab);
  }

  /**
   * An activity at "H:MM" starts at that hour and minute, except that hour 0 becomes 12:
   * an activity just after midnight is exported at noon.
   */
  lemma ActivityAtClockTime(a: ActivityItem, date: Date, h: string, m: string)
    requires Valid(date)
    requires |h| > 0 && AllDigits(h) && |m| > 0 && AllDigits(m)
    requires a.time == h + ":" + m
    ensures ActivityEvent(a, date).start.hour == Int(if DigitsValue(h) == 0 then 12 else DigitsValue(h))
    ensures ActivityEvent(a, date).start.minute == Int(DigitsValue(m))
  {
    ClockTextFields(h, m);
    ToNumberDigits(h);
    ToNumberDigits(m);
  }

  /**
   * Any time "h:m" with one separator: an hour field that is not a number or is 0 falls
   * back to 12, a minute field that is not a number or is 0 falls back to 0 ("ab:00" starts
   * at 12:00).
   */
  lemma ActivityClockFallbacks(a: ActivityItem, date: Date, h: string, m: string)
    requires Valid(date)
    requires ':' !in h && ':' !in m && a.time == h + ":" + m
    ensures ActivityEvent(a, date).start.hour == if Truthy(ToNumber(h)) then ToNumber(h) else Int(12)
    ensures ActivityEvent(a, date).start.minute == if Truthy(ToNumber(m)) then ToNumber(m) else Int(0)
  {
    SplitCons(h, ':', m);
    SplitNoSep(m, ':');
  }

  /** A time with no separator at all ("9") is read as an hour only, at minute 0. */
  lemma ActivityWithoutMinutes(a: ActivityItem, date: Date)
    requires Valid(date)
    requires ':' !in a.time
    ensures ActivityEvent(a, date).start.hour == if Truthy(ToNumber(a.time)) then ToNumber(a.time) else Int(12)
    ensures ActivityEvent(a, date).start.minute == Int(0)
  {
    SplitNoSep(a.time, ':');
  }

  /** Any duration "h:m" with one separator: both fields go through `Number`, minutes present. */
  lemma ActivityDurationAnyClock(a: ActivityItem, date: Date, h: string, m: string)
    requires Valid(date)
    requires ':' !in h && ':' !in m && a.duration == Some(h + ":" + m)
    ensures ActivityEvent(a, date).duration == Duration(ToNumber(h), Some(ToNumber(m)))
  {
    SplitCons(h, ':', m);
    SplitNoSep(m, ':');
  }

  /** A duration "H:MM" becomes that many hours and minutes; no duration means one hour. */
  lemma ActivityDurationOfClock(a: ActivityItem, date: Date, h: string, m: string)
    requires Valid(date)
    requires |h| > 0 && AllDigits(h) && |m| > 0 && AllDigits(m)
    ensures a.duration == Some(h + ":" + m) ==>
      ActivityEvent(a, date).duration == Duration(Int(DigitsValue(h)), Some(Int(DigitsValue(m))))
    ensures !Present(a.duration) ==> ActivityEvent(a, date).duration == OneHour
  {
    ClockTextFields(h, m);
    ToNumberDigits(h);
    ToNumberDigits(m);
  }
}
