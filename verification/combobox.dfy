/**
 * The multi-select combobox: the chosen values shown as badges, a toggle per option and
 * a trigger label counting the choices.
 */
module Combobox {
  import opened Wrappers
  import opened JsText
  import Selection

  /** An option; `text` is what the list and the badges show. */
  datatype ComboboxOption = ComboboxOption(value: string, text: string)

  predicate HasOption(options: seq<ComboboxOption>, v: string) {
    exists o :: o in options && o.value == v
  }

  /** `options.find(opt => opt.value === v)`: the first option with that value. */
  function Find(options: seq<ComboboxOption>, v: string): (r: Option<ComboboxOption>)
    ensures r.Some? ==> r.value in options && r.value.value == v
    ensures r.Some? <==> HasOption(options, v)
    ensures r.Some? ==> exists k :: 0 <= k < |options| && options[k] == r.value
                                   && forall j :: 0 <= j < k ==> options[j].value != v
  {
    if options == [] then None
    else if options[0].value == v then Some(options[0])
    else Find(options[1..], v)
  }

  /**
   * The badges: one option per chosen value, in the order of the values. The source
   * asserts every lookup succeeds; a value with no option gives None here.
   */
  function Selected(value: seq<string>, options: seq<ComboboxOption>): (r: seq<Option<ComboboxOption>>)
    ensures |r| == |value|
    ensures forall i :: 0 <= i < |r| ==> r[i] == Find(options, value[i])
    ensures forall i :: 0 <= i < |r| && r[i].Some? ==> r[i].value.value == value[i] && r[i].value in options
    ensures (forall v :: v in value ==> HasOption(options, v)) ==> forall i :: 0 <= i < |r| ==> r[i].Some?
  {
    if value == [] then []
    else
      var init := value[..|value| - 1];
      var rest := Selected(init, options);
      assert forall i :: 0 <= i < |init| ==> init[i] == value[i];
      var last := Find(options, value[|value| - 1]);
      rest + [last]
  }

  /** A badge's remove button. */
  function RemoveValue(value: seq<string>, v: string): (r: seq<string>)
    ensures v !in r
    ensures forall w :: w != v ==> multiset(r)[w] == multiset(value)[w]
  {
    Selection.Without(value, v)
  }

  /** Choosing an option in the list: deselects it when chosen, else appends it. */
  function SelectOption(value: seq<string>, v: string): (r: seq<string>)
    ensures v in value ==> r == RemoveValue(value, v)
    ensures v !in value ==> r == value + [v]
  {
    Selection.Toggle(value, v)
  }

  /** The trigger's text: the placeholder (or "Select options...") when nothing is chosen. */
  function TriggerLabel(value: seq<string>, placeholder: Option<string>): (caption: string)
    ensures value == [] && Present(placeholder) ==> caption == placeholder.value
    ensures value == [] && !Present(placeholder) ==> caption == "Select options..."
    ensures value != [] ==> caption == NatToString(|value|) + " selected"
  {
    if |value| == 0 then (if Present(placeholder) then placeholder.value else "Select options...")
    else NatToString(|value|) + " selected"
  }

  /** The count in "<n> selected" reads back as the number of chosen values. */
  lemma TriggerLabelCount(value: seq<string>, placeholder: Option<string>)
    requires value != []
    ensures ParseInt(TriggerLabel(value, placeholder)) == Int(|value|)
  {
    ParseIntDigitsThen(NatToString(|value|), " selected");
  }

  /** Removing one value keeps the others in their order. */
  lemma RemoveValueKeepsOrder(a: seq<string>, b: seq<string>, v: string)
    ensures RemoveValue(a + b, v) == RemoveValue(a, v) + RemoveValue(b, v)
  {
    Selection.WithoutAppend(a, b, v);
  }

  /** Selecting an option that was not chosen and selecting it again restores the choice. */
  lemma SelectTwiceRestores(value: seq<string>, v: string)
    requires v !in value
    ensures SelectOption(SelectOption(value, v), v) == value
  {
    Selection.ToggleTwiceAbsent(value, v);
  }
}
