/** The first-run rule of `init`: open the configuration dialog unprompted. */
module Startup {
  import opened Wrappers
  import Settings
  import Json
  import Menu
  import Config

  /**
   * The dialog is scheduled when nothing is saved but dashboards were
   * discovered, which is exactly when the menu falls back to discovery.
   */
  function AutoOpen(saved: seq<string>, available: seq<string>): (open: bool)
    ensures open <==> Menu.ChooseSource(saved, available).DiscoveredList?
  {
    |saved| == 0 && |available| > 0
  }

  /**
   * The nudge fires only while no list is stored: a stored list that reads
   * back non-empty suppresses it, so after any accepted Save it never fires.
   */
  lemma NoAutoOpenAfterSave(names: seq<string>, available: seq<string>)
    requires names != []
    ensures !AutoOpen(Settings.NamesFromSetting(Some(Json.Encode(names))), available)
  {
    Settings.LoadAfterSave(names);
  }

  /**
   * The dialog the nudge opens, with boxes as the dialog's constructor
   * renders them: the menu lists the discovered names, no box is ticked, and
   * saving the dialog untouched is rejected with the inline error.
   */
  lemma AutoOpenedDialog(saved: seq<string>, available: seq<string>, boxes: seq<Config.Checkbox>)
    requires AutoOpen(saved, available)
    requires |boxes| == |available|
    requires forall i :: 0 <= i < |boxes| ==> boxes[i].value == available[i]
    requires forall i :: 0 <= i < |boxes| ==> (boxes[i].checked <==> available[i] in saved)
    ensures Menu.ChooseSource(saved, available) == Menu.DiscoveredList(available)
    ensures forall i :: 0 <= i < |boxes| ==> !boxes[i].checked
    ensures Config.Validate(Config.SelectedNames(Config.CheckboxList(boxes))) == Config.Rejected(Config.NoSelectionError)
  {
    Config.EmptySelectionIffNoneTicked(boxes);
  }
}
