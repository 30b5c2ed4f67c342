/**
 * The travel questionnaire: a four-step wizard over a form store. Step 1 picks either a
 * date range or a season (choosing one clears the other), step 2 the destinations,
 * step 3 the traveler type and step 4 the activities.
 */
module Questionnaire {
  import opened Wrappers
  import opened JsText
  import opened Calendar
  import Selection

  /** The form store's values; a date picked in a calendar is a day at local midnight. */
  datatype FormValues = FormValues(
    startDate: Option<Date>,
    endDate: Option<Date>,
    season: Option<string>,
    destinations: seq<string>,
    travelerType: Option<string>,
    activities: seq<string>,
    customActivity: Option<string>)

  const DefaultValues: FormValues := FormValues(None, None, None, [], None, [], Some(""))

  /** The last day the calendars offer. */
  const LastSelectableDate: Date := Date(2025, 11, 31)

  predicate HasSelectedDates(f: FormValues) {
    f.startDate.Some? && f.endDate.Some?
  }

  predicate HasSelectedSeason(f: FormValues) {
    Present(f.season)
  }

  predicate HasValidTimeSelection(f: FormValues) {
    HasSelectedDates(f) || HasSelectedSeason(f)
  }

  /**
   * The schema with its refinement: a time selection, a destination, a traveler type, an
   * activity. A valid form always has a season to suggest destinations for.
   */
  predicate FormValid(f: FormValues): (ok: bool)
    ensures ok ==> CurrentSeason(f).Some?
  {
    && HasValidTimeSelection(f)
    && |f.destinations| >= 1
    && f.travelerType.Some?
    && |f.activities| >= 1
  }

  /**
   * The guard `nextStep` checks before moving on from `step`: from step 1 only with a date
   * range or a season, from step 2 only with a destination. A form that would pass the
   * schema passes every step's guard.
   */
  predicate Advances(step: int, f: FormValues): (ok: bool)
    ensures step == 1 ==> (ok <==> (f.startDate.Some? && f.endDate.Some?) || Present(f.season))
    ensures step == 2 ==> (ok <==> f.destinations != [])
    ensures FormValid(f) ==> ok
  {
    if step == 1 then HasValidTimeSelection(f)
    else if step == 2 then |f.destinations| != 0
    else true
  }

  /** When the "Next" button is greyed out: exactly when `nextStep` would stay put. */
  predicate NextDisabled(step: int, f: FormValues): (disabled: bool)
    ensures disabled <==> !Advances(step, f)
  {
    || (step == 1 && !HasValidTimeSelection(f))
    || (step == 2 && |f.destinations| == 0)
  }

  /**
   * The calendars compare a day at midnight with the current instant, taken here to be
   * later than midnight of `today`: today itself is no longer selectable.
   */
  predicate StartDateSelectable(d: Date, today: Date): (ok: bool)
    ensures ok ==> EndDateSelectable(d, Some(d), today)
  {
    Before(today, d) && OnOrBefore(d, LastSelectableDate)
  }

  /**
   * An end date may fall on the start date, or after today when no start is chosen; after
   * a start that is later than today it is always later than today too.
   */
  predicate EndDateSelectable(d: Date, startDate: Option<Date>, today: Date): (ok: bool)
    ensures ok && startDate.Some? && Before(today, startDate.value) ==> Before(today, d)
  {
    && (if startDate.Some? then OnOrBefore(startDate.value, d) else Before(today, d))
    && OnOrBefore(d, LastSelectableDate)
  }

  /** The effect run when a date changes: a complete date range clears the season. */
  function ClearSeasonIfDated(f: FormValues): (r: FormValues)
    ensures HasSelectedDates(r) ==> r.season.None?
    ensures !HasSelectedDates(f) ==> r == f
    ensures r.(season := f.season) == f
  {
    if HasSelectedDates(f) then f.(season := None) else f
  }

  /** Checking a box appends its value; unchecking removes every occurrence. */
  function WithActivityChecked(activities: seq<string>, value: string, checked: bool): (r: seq<string>)
    ensures checked ==> |r| == |activities| + 1 && r[..|activities|] == activities && r[|activities|] == value
    ensures !checked ==> value !in r && multiset(r) == multiset(activities)[value := 0]
  {
    if checked then activities + [value] else Selection.Without(activities, value)
  }

  /**
   * Typing custom text adds "custom" once when it is missing; clearing the text removes
   * it; every other activity is left as it was.
   */
  function WithCustomActivity(activities: seq<string>, text: string): (r: seq<string>)
    ensures text != "" <==> "custom" in r
    ensures forall v :: v != "custom" ==> multiset(r)[v] == multiset(activities)[v]
    ensures text != "" && "custom" in activities ==> r == activities
    ensures text != "" && "custom" !in activities ==> r == activities + ["custom"]
    ensures text == "" ==> r == Selection.Without(activities, "custom")
  {
    if text != "" && "custom" !in activities then activities + ["custom"]
    else if text == "" then Selection.Without(activities, "custom")
    else activities
  }

  /** 0-based month to season: March to May spring, June to August summer, September to November autumn. */
  function SeasonOfMonth(month: int): (s: string)
    ensures s == "spring" <==> 2 <= month <= 4
    ensures s == "summer" <==> 5 <= month <= 7
    ensures s == "autumn" <==> 8 <= month <= 10
    ensures s == "winter" <==> !(2 <= month <= 10)
    ensures 0 <= month < 12 ==> (s == "winter" <==> month == 11 || month == 0 || month == 1)
  {
    if 2 <= month <= 4 then "spring"
    else if 5 <= month <= 7 then "summer"
    else if 8 <= month <= 10 then "autumn"
    else "winter"
  }

  /** The season the destination suggestions are for: the chosen one, else the start date's. */
  function CurrentSeason(f: FormValues): (r: Option<string>)
    ensures r.Some? <==> HasSelectedSeason(f) || f.startDate.Some?
    ensures r.Some? ==> r.value != ""
    ensures HasSelectedSeason(f) ==> r == f.season
  {
    if HasSelectedSeason(f) then f.season
    else if f.startDate.Some? then Some(SeasonOfMonth(f.startDate.value.monthIndex))
    else None
  }

  class Wizard {
    var step: int
    var form: FormValues

    /** The step is one of the four, and a chosen season never sits beside a chosen date. */
    ghost predicate Valid()
      reads this
    {
      && 1 <= step <= 4
      && (HasSelectedSeason(form) ==> form.startDate.None? && form.endDate.None?)
    }

    constructor()
      ensures Valid() && step == 1 && form == DefaultValues
    {
      step := 1;
      form := DefaultValues;
    }

    /** "Next": moves on only when the current step's guard holds. */
    method NextStep()
      requires Valid() && step < 4
      modifies this
      ensures Valid() && form == old(form)
      ensures step == if Advances(old(step), form) then old(step) + 1 else old(step)
    {
      if step == 1 {
        var hasValidTimeSelection := HasSelectedDates(form) || HasSelectedSeason(form);
        if !hasValidTimeSelection {
          return;
        }
      } else if step == 2 {
        if |form.destinations| == 0 {
          return;
        }
      }
      step := step + 1;
    }

    /** "Previous". */
    method PrevStep()
      requires Valid() && step > 1
      modifies this
      ensures Valid() && form == old(form) && step == old(step) - 1
    {
      step := step - 1;
    }

    /** A click on the date panel while a season is chosen clears the season. */
    method ClickDatePanel()
      requires Valid()
      modifies this
      ensures Valid() && step == old(step)
      ensures form == if HasSelectedSeason(old(form)) then old(form).(season := None) else old(form)
    {
      if HasSelectedSeason(form) {
        form := form.(season := None);
      }
    }

    /** A click on the season panel while a date range is chosen clears both dates. */
    method ClickSeasonPanel()
      requires Valid()
      modifies this
      ensures Valid() && step == old(step)
      ensures form == if HasSelectedDates(old(form)) then old(form).(startDate := None, endDate := None) else old(form)
    {
      if HasSelectedDates(form) {
        form := form.(startDate := None);
        form := form.(endDate := None);
      }
    }

    /** Choosing a season (offered only while no date range is chosen) clears both dates. */
    method SelectSeason(s: string)
      requires Valid() && !HasSelectedDates(form)
      modifies this
      ensures Valid() && step == old(step)
      ensures form == old(form).(season := Some(s), startDate := None, endDate := None)
    {
      form := form.(season := Some(s));
      form := form.(startDate := None);
      form := form.(endDate := None);
    }

    /** Picking (or clearing) the start date, offered only while no season is chosen. */
    method SetStartDate(d: Option<Date>, today: Date)
      requires Valid() && !HasSelectedSeason(form)
      requires d.Some? ==> StartDateSelectable(d.value, today)
      modifies this
      ensures Valid() && step == old(step)
      ensures form == ClearSeasonIfDated(old(form).(startDate := d))
    {
      form := form.(startDate := d);
      form := ClearSeasonIfDated(form);
    }

    /** Picking (or clearing) the end date, offered only while no season is chosen. */
    method SetEndDate(d: Option<Date>, today: Date)
      requires Valid() && !HasSelectedSeason(form)
      requires d.Some? ==> EndDateSelectable(d.value, form.startDate, today)
      modifies this
      ensures Valid() && step == old(step)
      ensures form == ClearSeasonIfDated(old(form).(endDate := d))
    {
      form := form.(endDate := d);
      form := ClearSeasonIfDated(form);
    }

    /** A destination card: deselects a chosen id, selects any other. */
    method ToggleDestination(id: string)
      requires Valid()
      modifies this
      ensures Valid() && step == old(step)
      ensures form == old(form).(destinations := Selection.Toggle(old(form).destinations, id))
    {
      form := form.(destinations := Selection.Toggle(form.destinations, id));
    }

    method SelectTravelerType(t: string)
      requires Valid()
      modifies this
      ensures Valid() && step == old(step)
      ensures form == old(form).(travelerType := Some(t))
    {
      form := form.(travelerType := Some(t));
    }

    /** An activity checkbox. */
    method SetActivityChecked(value: string, checked: bool)
      requires Valid()
      modifies this
      ensures Valid() && step == old(step)
      ensures form == old(form).(activities := WithActivityChecked(old(form).activities, value, checked))
    {
      var updated := if checked then form.activities + [value] else Selection.Without(form.activities, value);
      form := form.(activities := updated);
    }

    /** The custom-activity text box. */
    method SetCustomActivity(text: string)
      requires Valid()
      modifies this
      ensures Valid() && step == old(step)
      ensures form == old(form).(customActivity := Some(text),
                                 activities := WithCustomActivity(old(form).activities, text))
    {
      form := form.(customActivity := Some(text));
      if text != "" && "custom" !in form.activities {
        form := form.(activities := form.activities + ["custom"]);
      } else if text == "" {
        form := form.(activities := Selection.Without(form.activities, "custom"));
      }
    }
  }

  // ---------------------------------------------------------------- properties


  /** Typing the same text again changes nothing more. */
  lemma CustomActivityIdempotent(activities: seq<string>, text: string)
    ensures WithCustomActivity(WithCustomActivity(activities, text), text) == WithCustomActivity(activities, text)
  {
    if text == "" {
      Selection.WithoutIdempotent(activities, "custom");
    }
  }

  /** Checking then unchecking a box removes that activity altogether. */
  lemma {:induction false} CheckThenUncheck(activities: seq<string>, value: string)
    ensures WithActivityChecked(WithActivityChecked(activities, value, true), value, false)
            == Selection.Without(activities, value)
  {
    Selection.WithoutAppend(activities, [value], value);
    assert Selection.Without([value], value) == [];
  }

  /** For an activity not yet chosen, checking and unchecking its box restores the list. */
  lemma CheckThenUncheckAbsent(activities: seq<string>, value: string)
    requires value !in activities
    ensures WithActivityChecked(WithActivityChecked(activities, value, true), value, false) == activities
  {
    CheckThenUncheck(activities, value);
    Selection.WithoutAbsent(activities, value);
  }

  /** Once both dates are chosen the suggestions follow the start date's month. */
  lemma DatedSeason(f: FormValues)
    requires HasSelectedDates(f)
    ensures CurrentSeason(ClearSeasonIfDated(f)) == Some(SeasonOfMonth(f.startDate.value.monthIndex))
  {
  }
}
