/**
 * The Android view manager: registers the view under its name, converts the
 * `menuOptions` prop and declares the direct event the view can raise.
 */
module ViewManager {
  import opened Wrappers
  import TextSelectionHost

  const NAME := "SelectableTextView"

  function GetName(): (name: string)
    ensures name == "SelectableTextView"
  {
    NAME
  }

  /** The direct-event table: native `topSelection` is delivered to the `onSelection` prop. */
  function ExportedCustomDirectEventTypeConstants(): (constants: map<string, map<string, string>>)
    ensures constants.Keys == {"topSelection"}
    ensures constants["topSelection"].Keys == {"registrationName"}
    ensures constants["topSelection"]["registrationName"] == "onSelection"
  {
    map["topSelection" := map["registrationName" := "onSelection"]]
  }

  /** The prop array converted element by element; a null element becomes the empty string. */
  function ConvertMenuOptions(menuOptions: seq<Option<string>>): (options: seq<string>)
    ensures |options| == |menuOptions|
    ensures forall i :: 0 <= i < |menuOptions| ==>
      menuOptions[i] == Some(options[i]) || (menuOptions[i] == None && options[i] == "")
  {
    seq(|menuOptions|, i requires 0 <= i < |menuOptions| => menuOptions[i].GetOr(""))
  }

  /** The array a JavaScript `string[]` arrives as: no null elements. */
  function FromStrings(options: seq<string>): (menuOptions: seq<Option<string>>)
    ensures |menuOptions| == |options|
    ensures forall i :: 0 <= i < |options| ==> menuOptions[i] == Some(options[i])
  {
    seq(|options|, i requires 0 <= i < |options| => Some(options[i]))
  }

  /** Converting an array without nulls gives back the original strings, in order. */
  lemma ConvertRoundTrip(options: seq<string>)
    ensures ConvertMenuOptions(FromStrings(options)) == options
  {
  }

  /** Converting only ever writes "" where an element was null or was itself "". */
  lemma ConvertEmptyOnlyFromNullOrEmpty(menuOptions: seq<Option<string>>, i: int)
    requires 0 <= i < |menuOptions|
    ensures ConvertMenuOptions(menuOptions)[i] == "" <==> menuOptions[i] == None || menuOptions[i] == Some("")
  {
  }

  /**
   * The `menuOptions` prop setter: a null array is ignored; otherwise the converted
   * array is handed to the view once, which stores it and rescans its children.
   */
  method SetMenuOptions(view: TextSelectionHost.SelectableTextView, menuOptions: Option<seq<Option<string>>>)
    requires view.Valid()
    modifies view`menuOptions, view`textView, view`configureCount, view.BindingFootprint()
    ensures view.Valid()
    ensures menuOptions.None? ==> unchanged(view) && unchanged(view.BindingFootprint())
    ensures menuOptions.Some? ==>
      && view.menuOptions == ConvertMenuOptions(menuOptions.value)
      && view.configureCount == old(view.configureCount) + 1
      && view.BoundPerScan(old(view.textView))
    ensures view.ChildContentUnchanged()
  {
    if menuOptions.Some? {
      var raw := menuOptions.value;
      var options := ConvertMenuOptions(raw);
      view.SetMenuOptions(options);
    }
  }
}
