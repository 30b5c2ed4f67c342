/**
 * The path from a generated plan to the calendar: when plan generation succeeds the
 * questionnaire hands the plan's itinerary straight to the calendar export. A plan day
 * carries no check-in, check-out, departure or arrival times, so those read as absent.
 * The questionnaire's request carries no day count, so on that path the template
 * itinerary is empty and exports no event, and a service reply passes through with
 * however many days it has; the lemmas over a counted template cover a request that
 * does carry one.
 */
module PlanExport {
  import opened Wrappers
  import opened JsText
  import opened Calendar
  import opened IcsGenerator
  import TravelPlanner

  function ExportActivity(a: TravelPlanner.PlanActivity): ActivityItem {
    ActivityItem(a.time, a.title, Some(a.duration))
  }

  function ExportActivities(acts: seq<TravelPlanner.PlanActivity>): (r: seq<ActivityItem>)
    ensures |r| == |acts|
    decreases |acts|
  {
    if acts == [] then []
    else ExportActivities(acts[..|acts| - 1]) + [ExportActivity(acts[|acts| - 1])]
  }

  /** A plan day as the export reads it: accommodation and transportation always present. */
  function ExportDay(d: TravelPlanner.PlanDay): (r: DayItinerary)
    ensures r.accommodation.Some? && r.transportation.Some?
    ensures |r.activities| == |d.activities|
    ensures EventCount(r) == 2 + |d.activities|
  {
    DayItinerary(
      d.day,
      Some(Accommodation(d.accommodation.title, d.accommodation.details, None, None)),
      Some(Transportation(d.transportation.title, d.transportation.details, None, None)),
      ExportActivities(d.activities))
  }

  function ExportDays(days: seq<TravelPlanner.PlanDay>): (r: seq<DayItinerary>)
    ensures |r| == |days|
    decreases |days|
  {
    if days == [] then [] else ExportDays(days[..|days| - 1]) + [ExportDay(days[|days| - 1])]
  }

  lemma {:induction false} ExportActivityAt(acts: seq<TravelPlanner.PlanActivity>, k: nat)
    requires k < |acts|
    ensures ExportActivities(acts)[k] == ExportActivity(acts[k])
    decreases |acts|
  {
    if k < |acts| - 1 {
      ExportActivityAt(acts[..|acts| - 1], k);
    }
  }

  lemma {:induction false} ExportDayAt(days: seq<TravelPlanner.PlanDay>, i: nat)
    requires i < |days|
    ensures ExportDays(days)[i] == ExportDay(days[i])
    decreases |days|
  {
    if i < |days| - 1 {
      ExportDayAt(days[..|days| - 1], i);
    }
  }

  /** Days with three activities each give five events a day. */
  lemma {:induction false} FiveEventsPerDay(days: seq<TravelPlanner.PlanDay>)
    requires forall i :: 0 <= i < |days| ==> |days[i].activities| == 3
    ensures TotalEvents(ExportDays(days)) == 5 * |days|
    decreases |days|
  {
    if days != [] {
      var init := days[..|days| - 1];
      assert ExportDays(days)[..|days| - 1] == ExportDays(init);
      FiveEventsPerDay(init);
    }
  }

  /**
   * A plan day without times exports its accommodation first, at the 14:00 default, then
   * its transportation at the 10:00 default, each for one hour.
   */
  lemma LeadingDefaults(d: TravelPlanner.PlanDay, date: Date)
    requires Valid(date)
    ensures var evs := DayEvents(ExportDay(d), date);
      && |evs| == 2 + |d.activities|
      && evs[0].start.hour == Int(14) && evs[0].start.minute == Int(0) && evs[0].duration == OneHour
      && evs[1].start.hour == Int(10) && evs[1].start.minute == Int(0) && evs[1].duration == OneHour
  {
    var x := ExportDay(d);
    DayLayout(x, date);
    AccommodationDefaultTime(x.accommodation.value, date);
    TransportationDefaultTime(x.transportation.value, date);
  }

  /** Activity `k` of a plan day at "H:MM" lasting "D:00" is event `2 + k`, at H:MM for D hours. */
  lemma ActivitySlot(d: TravelPlanner.PlanDay, date: Date, k: nat, h: string, m: string, dh: string)
    requires Valid(date) && k < |d.activities|
    requires |h| > 0 && AllDigits(h) && |m| > 0 && AllDigits(m) && |dh| > 0 && AllDigits(dh)
    requires DigitsValue(h) != 0
    requires d.activities[k].time == h + ":" + m && d.activities[k].duration == dh + ":" + "00"
    ensures var evs := DayEvents(ExportDay(d), date);
      && |evs| == 2 + |d.activities|
      && evs[2 + k].start.hour == Int(DigitsValue(h))
      && evs[2 + k].start.minute == Int(DigitsValue(m))
      && evs[2 + k].duration == Duration(Int(DigitsValue(dh)), Some(Int(0)))
  {
    var x := ExportDay(d);
    var a := x.activities[k];
    ExportActivityAt(d.activities, k);
    assert a.time == h + ":" + m && a.duration == Some(dh + ":" + "00");
    ActivityStart(a, date, h, m, dh);
    ActivityEventInDay(x, date, k);
    assert DayEvents(x, date)[2 + k] == ActivityEvent(a, date);
  }

  /** The event of activity `k` follows the accommodation and transportation events. */
  lemma ActivityEventInDay(x: DayItinerary, date: Date, k: nat)
    requires Valid(date) && k < |x.activities|
    ensures |DayEvents(x, date)| == EventCount(x)
    ensures DayEvents(x, date)[EventCount(x) - |x.activities| + k] == ActivityEvent(x.activities[k], date)
  {
    assert |LeadingEvents(x, date)| == EventCount(x) - |x.activities|;
    ActivityEventAt(x.activities, date, k);
  }

  /** An activity at "H:MM" lasting "D:00" starts at H:MM and lasts D hours. */
  lemma ActivityStart(a: ActivityItem, date: Date, h: string, m: string, dh: string)
    requires Valid(date)
    requires |h| > 0 && AllDigits(h) && |m| > 0 && AllDigits(m) && |dh| > 0 && AllDigits(dh)
    requires DigitsValue(h) != 0
    requires a.time == h + ":" + m && a.duration == Some(dh + ":" + "00")
    ensures ActivityEvent(a, date).start.hour == Int(DigitsValue(h))
    ensures ActivityEvent(a, date).start.minute == Int(DigitsValue(m))
    ensures ActivityEvent(a, date).duration == Duration(Int(DigitsValue(dh)), Some(Int(0)))
  {
    ActivityAtClockTime(a, date, h, m);
    ActivityDurationOfClock(a, date, dh, "00");
  }

  /**
   * A template day exports as five events on its date: check-in at 14:00 and transport
   * at 10:00 (one hour each, the defaults), then the activities at 09:00 for 3 hours,
   * 13:00 for 1 hour and 15:00 for 3 hours. The export keeps list order, so the events
   * of a day are not in time order.
   */
  lemma TemplateDayEvents(p: TravelPlanner.Preferences, types: seq<string>, n: int, i: nat, date: Date)
    requires |types| > 0 && Valid(date)
    ensures var evs := DayEvents(ExportDay(TravelPlanner.BasicDay(p, types, n, i)), date);
      && |evs| == 5
      && evs[0].start.hour == Int(14) && evs[0].start.minute == Int(0) && evs[0].duration == OneHour
      && evs[1].start.hour == Int(10) && evs[1].start.minute == Int(0) && evs[1].duration == OneHour
      && evs[2].start.hour == Int(9) && evs[2].start.minute == Int(0)
      && evs[2].duration == Duration(Int(3), Some(Int(0)))
      && evs[3].start.hour == Int(13) && evs[3].start.minute == Int(0)
      && evs[3].duration == Duration(Int(1), Some(Int(0)))
      && evs[4].start.hour == Int(15) && evs[4].start.minute == Int(0)
      && evs[4].duration == Duration(Int(3), Some(Int(0)))
  {
    var d := TravelPlanner.BasicDay(p, types, n, i);
    LeadingDefaults(d, date);
    TemplateSlots(d, date);
  }

  /** The three activity events of a day whose activities sit at the template's times. */
  lemma TemplateSlots(d: TravelPlanner.PlanDay, date: Date)
    requires Valid(date) && |d.activities| == 3
    requires d.activities[0].time == "09:00" && d.activities[0].duration == "3:00"
    requires d.activities[1].time == "13:00" && d.activities[1].duration == "1:00"
    requires d.activities[2].time == "15:00" && d.activities[2].duration == "3:00"
    ensures var evs := DayEvents(ExportDay(d), date);
      && |evs| == 5
      && evs[2].start.hour == Int(9) && evs[2].start.minute == Int(0)
      && evs[2].duration == Duration(Int(3), Some(Int(0)))
      && evs[3].start.hour == Int(13) && evs[3].start.minute == Int(0)
      && evs[3].duration == Duration(Int(1), Some(Int(0)))
      && evs[4].start.hour == Int(15) && evs[4].start.minute == Int(0)
      && evs[4].duration == Duration(Int(3), Some(Int(0)))
  {
    MorningSlot(d, date);
    MiddaySlot(d, date);
    AfternoonSlot(d, date);
  }

  lemma MorningSlot(d: TravelPlanner.PlanDay, date: Date)
    requires Valid(date) && |d.activities| > 0
    requires d.activities[0].time == "09:00" && d.activities[0].duration == "3:00"
    ensures var evs := DayEvents(ExportDay(d), date);
      && evs[2].start.hour == Int(9) && evs[2].start.minute == Int(0)
      && evs[2].duration == Duration(Int(3), Some(Int(0)))
  {
    assert "09:00" == "09" + ":" + "00" && "3:00" == "3" + ":" + "00";
    ActivitySlot(d, date, 0, "09", "00", "3");
  }

  lemma MiddaySlot(d: TravelPlanner.PlanDay, date: Date)
    requires Valid(date) && |d.activities| > 1
    requires d.activities[1].time == "13:00" && d.activities[1].duration == "1:00"
    ensures var evs := DayEvents(ExportDay(d), date);
      && evs[3].start.hour == Int(13) && evs[3].start.minute == Int(0)
      && evs[3].duration == Duration(Int(1), Some(Int(0)))
  {
    assert "13:00" == "13" + ":" + "00" && "1:00" == "1" + ":" + "00";
    ActivitySlot(d, date, 1, "13", "00", "1");
  }

  lemma AfternoonSlot(d: TravelPlanner.PlanDay, date: Date)
    requires Valid(date) && |d.activities| > 2
    requires d.activities[2].time == "15:00" && d.activities[2].duration == "3:00"
    ensures var evs := DayEvents(ExportDay(d), date);
      && evs[4].start.hour == Int(15) && evs[4].start.minute == Int(0)
      && evs[4].duration == Duration(Int(3), Some(Int(0)))
  {
    assert "15:00" == "15" + ":" + "00" && "3:00" == "3" + ":" + "00";
    ActivitySlot(d, date, 2, "15", "00", "3");
  }

  /**
   * Plan days of three activities each export as five events a day: the events of day
   * `i` are those at positions `5 i` to `5 i + 4`, dated `i` days after the base date.
   */
  lemma {:induction false} PlanEvents(plan: seq<TravelPlanner.PlanDay>, baseDate: Date, i: nat)
    requires Valid(baseDate) && i < |plan|
    requires forall k :: 0 <= k < |plan| ==> |plan[k].activities| == 3
    ensures var days := ExportDays(plan);
      && |EventsFrom(days, baseDate)| == 5 * |plan|
      && EventsFrom(days, baseDate)[5 * i .. 5 * i + 5] == DayEvents(days[i], AddDays(baseDate, i))
  {
    var days := ExportDays(plan);
    PrefixEvents(plan, i);
    PrefixEvents(plan, i + 1);
    PrefixEvents(plan, |plan|);
    assert days[..|plan|] == days;
    DayBlock(days, baseDate, i);
    assert TotalEvents(days[..i]) == 5 * i && TotalEvents(days[..i + 1]) == 5 * i + 5;
  }

  /** The first `j` exported days of three activities each hold `5 j` events. */
  lemma {:induction false} PrefixEvents(plan: seq<TravelPlanner.PlanDay>, j: nat)
    requires j <= |plan|
    requires forall k :: 0 <= k < |plan| ==> |plan[k].activities| == 3
    ensures TotalEvents(ExportDays(plan)[..j]) == 5 * j
  {
    ExportPrefix(plan, j);
    FiveEventsPerDay(plan[..j]);
  }

  lemma {:induction false} ExportPrefix(plan: seq<TravelPlanner.PlanDay>, j: nat)
    requires j <= |plan|
    ensures ExportDays(plan)[..j] == ExportDays(plan[..j])
    decreases |plan|
  {
    if j < |plan| {
      var init := plan[..|plan| - 1];
      assert init[..j] == plan[..j];
      ExportPrefix(init, j);
    } else {
      assert plan[..j] == plan;
    }
  }

  /** Without a day count the template itinerary exports no event at all. */
  lemma UndefinedCountExportsNothing(p: TravelPlanner.Preferences, baseDate: Date)
    requires Valid(baseDate) && p.numberOfDays.NaN?
    ensures EventsFrom(ExportDays(TravelPlanner.BasicItinerary(p).itinerary), baseDate) == []
  {
    assert TravelPlanner.BasicItinerary(p).itinerary == [];
  }

  /** A template plan of `n` days exports as `5 n` events, five per day in day order. */
  lemma {:induction false} TemplatePlanEvents(p: TravelPlanner.Preferences, baseDate: Date, i: nat)
    requires Valid(baseDate)
    requires i < |TravelPlanner.BasicItinerary(p).itinerary|
    ensures var days := ExportDays(TravelPlanner.BasicItinerary(p).itinerary);
      && |EventsFrom(days, baseDate)| == 5 * |days|
      && EventsFrom(days, baseDate)[5 * i .. 5 * i + 5] == DayEvents(days[i], AddDays(baseDate, i))
  {
    var plan := TravelPlanner.BasicItinerary(p).itinerary;
    forall k | 0 <= k < |plan|
      ensures |plan[k].activities| == 3
    {
      TravelPlanner.BasicActivities(p, k);
    }
    PlanEvents(plan, baseDate, i);
  }
}
