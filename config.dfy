/**
 * `openConfigureDialog`: checkboxes for the discovered dashboards, or a
 * textarea when nothing was discovered, and the Save rule that rejects an
 * empty selection and otherwise writes the list through `saveDashboards`.
 */
module Config {
  import opened Wrappers
  import opened Sequences
  import Text
  import Settings
  import Json
  import Toasts

  /** One rendered checkbox: the name it carries and whether it is ticked. */
  datatype Checkbox = Checkbox(value: string, checked: bool)

  /**
   * The `available.forEach` loop: box i carries `available[i]` and is
   * pre-ticked exactly when that name is in the saved list.
   */
  method RenderCheckboxes(available: seq<string>, saved: seq<string>) returns (boxes: seq<Checkbox>)
    ensures |boxes| == |available|
    ensures forall i :: 0 <= i < |boxes| ==> boxes[i].value == available[i]
    ensures forall i :: 0 <= i < |boxes| ==> (boxes[i].checked <==> available[i] in saved)
  {
    boxes := [];
    var i := 0;
    while i < |available|
      invariant i <= |available| && |boxes| == i
      invariant forall k :: 0 <= k < i ==> boxes[k] == Checkbox(available[k], available[k] in saved)
    {
      var name := available[i];
      boxes := boxes + [Checkbox(name, name in saved)];
      i := i + 1;
    }
  }

  /**
   * The value the browser reads back from the markup `value="${name}"`:
   * the attribute ends at the first double quote of the name.
   */
  function ValueAsParsed(name: string): (v: string)
    ensures |v| <= |name| && v == name[..|v|]
    ensures '"' !in v
    ensures '"' !in name ==> v == name
    decreases |name|
  {
    if name == [] || name[0] == '"' then [] else [name[0]] + ValueAsParsed(name[1..])
  }

  /** The same loop as the markup is written: each box's value is what the attribute parses to. */
  method RenderCheckboxesAsWritten(available: seq<string>, saved: seq<string>) returns (boxes: seq<Checkbox>)
    ensures |boxes| == |available|
    ensures forall i :: 0 <= i < |boxes| ==> boxes[i].value == ValueAsParsed(available[i])
    ensures forall i :: 0 <= i < |boxes| ==> (boxes[i].checked <==> available[i] in saved)
  {
    boxes := [];
    var i := 0;
    while i < |available|
      invariant i <= |available| && |boxes| == i
      invariant forall k :: 0 <= k < i ==> boxes[k] == Checkbox(ValueAsParsed(available[k]), available[k] in saved)
    {
      var name := available[i];
      boxes := boxes + [Checkbox(ValueAsParsed(name), name in saved)];
      i := i + 1;
    }
  }

  lemma QuotedValue()
    ensures ValueAsParsed("Q1 \"final\"") == "Q1 "
  {
    var n := "Q1 \"final\"";
    assert n[3] == '"';
    assert n[1..][2..] == n[3..];
    assert ValueAsParsed(n[3..]) == [];
    assert ValueAsParsed(n[2..]) == " ";
    assert ValueAsParsed(n[1..]) == "1 ";
  }

  /**
   * As written, a discovered and saved dashboard named `Q1 "final"` is
   * pre-ticked, yet saving the dialog untouched stores `Q1 ` instead.
   */
  lemma QuotedNameTruncated(boxes: seq<Checkbox>)
    requires |boxes| == 1
    requires boxes[0].value == ValueAsParsed("Q1 \"final\"")
    requires boxes[0].checked <==> "Q1 \"final\"" in ["Q1 \"final\""]
    ensures CheckedValues(boxes) == ["Q1 "]
    ensures CheckedValues(boxes) != ["Q1 \"final\""]
  {
    var n := "Q1 \"final\"";
    QuotedValue();
    assert boxes[0].checked;
    assert boxes[1..] == [];
    assert CheckedValues(boxes[1..]) == [];
    assert "Q1 " != n by {
      assert |"Q1 "| != |n|;
    }
  }

  function Values(boxes: seq<Checkbox>): (vs: seq<string>)
    ensures |vs| == |boxes|
    ensures forall i :: 0 <= i < |boxes| ==> vs[i] == boxes[i].value
  {
    seq(|boxes|, i requires 0 <= i < |boxes| => boxes[i].value)
  }

  /**
   * Line 178-179: the values of the ticked boxes in checkbox order. They
   * form a subsequence of all the values, and each comes from a ticked box.
   */
  function CheckedValues(boxes: seq<Checkbox>): (names: seq<string>)
    ensures IsSubsequence(names, Values(boxes))
    ensures forall n :: n in names ==> exists i :: 0 <= i < |boxes| && boxes[i].checked && boxes[i].value == n
    decreases |boxes|
  {
    if boxes == [] then []
    else
      var rest := CheckedValues(boxes[1..]);
      assert Values(boxes) == [boxes[0].value] + Values(boxes[1..]);
      SubsequenceCons(rest, Values(boxes[1..]), boxes[0].value, boxes[0].checked);
      if boxes[0].checked then [boxes[0].value] + rest else rest
  }

  /** Collecting works box by box, so the selection keeps checkbox order and multiplicity. */
  lemma {:induction false} CheckedValuesAppend(a: seq<Checkbox>, b: seq<Checkbox>)
    ensures CheckedValues(a + b) == CheckedValues(a) + CheckedValues(b)
    decreases |a|
  {
    if a == [] {
      assert a + b == b;
    } else {
      assert (a + b)[0] == a[0];
      assert (a + b)[1..] == a[1..] + b;
      CheckedValuesAppend(a[1..], b);
    }
  }

  /** One box contributes its value exactly when it is ticked. */
  lemma CheckedValuesSingle(box: Checkbox)
    ensures CheckedValues([box]) == if box.checked then [box.value] else []
  {
    assert [box][1..] == [];
  }

  /** Nothing is selected exactly when no box is ticked. */
  lemma {:induction false} EmptySelectionIffNoneTicked(boxes: seq<Checkbox>)
    ensures CheckedValues(boxes) == [] <==> forall i :: 0 <= i < |boxes| ==> !boxes[i].checked
    decreases |boxes|
  {
    if boxes != [] {
      EmptySelectionIffNoneTicked(boxes[1..]);
      assert forall i :: 1 <= i < |boxes| ==> boxes[i] == boxes[1..][i - 1];
    }
  }

  /** Every ticked box's value is among the selected names. */
  lemma {:induction false} CheckedBoxSelected(boxes: seq<Checkbox>, i: nat)
    requires i < |boxes| && boxes[i].checked
    ensures boxes[i].value in CheckedValues(boxes)
    decreases |boxes|
  {
    if i > 0 {
      CheckedBoxSelected(boxes[1..], i - 1);
    }
  }

  /**
   * Saving the dialog as it opened: the selection is the discovered names
   * that were saved before, in discovery order, and nothing else.
   */
  lemma UneditedSelection(available: seq<string>, saved: seq<string>, boxes: seq<Checkbox>)
    requires |boxes| == |available|
    requires forall i :: 0 <= i < |boxes| ==> boxes[i].value == available[i]
    requires forall i :: 0 <= i < |boxes| ==> (boxes[i].checked <==> available[i] in saved)
    ensures IsSubsequence(CheckedValues(boxes), available)
    ensures forall n :: n in CheckedValues(boxes) <==> n in available && n in saved
  {
    assert Values(boxes) == available;
    forall n | n in available && n in saved
      ensures n in CheckedValues(boxes)
    {
      var i :| 0 <= i < |available| && available[i] == n;
      CheckedBoxSelected(boxes, i);
    }
  }

  /** Ticking and unticking changes no value, so any selection is a subsequence of the discovered names. */
  lemma EditedSelection(available: seq<string>, boxes: seq<Checkbox>)
    requires Values(boxes) == available
    ensures IsSubsequence(CheckedValues(boxes), available)
  {
  }

  /** A name as the textarea yields it: non-empty and already trimmed. */
  predicate IsCleanName(x: string) {
    x != "" && Text.Trim(x) == x
  }

  /** Line 184 after the split: each line trimmed, empty results dropped. */
  function CleanLines(lines: seq<string>): (names: seq<string>)
    ensures forall i :: 0 <= i < |names| ==> IsCleanName(names[i])
    decreases |lines|
  {
    if lines == [] then []
    else
      var t := Text.Trim(lines[0]);
      var rest := CleanLines(lines[1..]);
      if t == "" then rest
      else
        Text.TrimIdempotent(lines[0]);
        assert IsCleanName(t);
        [t] + rest
  }

  /** Textarea mode: `value.split('\n').map(s => s.trim()).filter(Boolean)`. */
  function ParseNames(text: string): (names: seq<string>)
    ensures forall i :: 0 <= i < |names| ==> IsCleanName(names[i])
  {
    CleanLines(Text.Split(text))
  }

  lemma {:induction false} CleanLinesAppend(a: seq<string>, b: seq<string>)
    ensures CleanLines(a + b) == CleanLines(a) + CleanLines(b)
    decreases |a|
  {
    if a == [] {
      assert a + b == b;
    } else {
      assert (a + b)[1..] == a[1..] + b;
      CleanLinesAppend(a[1..], b);
    }
  }

  /**
   * Lines are read in order and independently: the names of two blocks of
   * text joined by a line break are the names of the first followed by those
   * of the second, so repeated names are all kept.
   */
  lemma ParseNamesAtBreak(a: string, b: string)
    ensures ParseNames(a + "\n" + b) == ParseNames(a) + ParseNames(b)
  {
    Text.SplitAtBreak(a, b);
    CleanLinesAppend(Text.Split(a), Text.Split(b));
  }

  /** A single line yields its trim, or nothing when it is blank. */
  lemma ParseNamesSingleLine(line: string)
    requires '\n' !in line
    ensures ParseNames(line) == if Text.Trim(line) == "" then [] else [Text.Trim(line)]
  {
    Text.SplitNoBreak(line);
    var lines := [line];
    assert lines[0] == line && lines[1..] == [];
    assert CleanLines(lines[1..]) == [];
  }

  /** Cleaning keeps a list of names that are already trimmed and non-empty. */
  lemma {:induction false} CleanLinesKeepsTrimmed(xs: seq<string>)
    requires forall i :: 0 <= i < |xs| ==> IsCleanName(xs[i])
    ensures CleanLines(xs) == xs
    decreases |xs|
  {
    if xs != [] {
      CleanLinesKeepsTrimmed(xs[1..]);
      assert xs == [xs[0]] + xs[1..];
    }
  }

  /**
   * The textarea opens holding the saved names one per line; saving it
   * untouched gives the saved list back when every name is non-empty,
   * trimmed and free of line breaks.
   */
  lemma ParseJoinedNames(saved: seq<string>)
    requires forall i :: 0 <= i < |saved| ==> IsCleanName(saved[i]) && '\n' !in saved[i]
    ensures ParseNames(Text.Join(saved)) == saved
  {
    if saved != [] {
      Text.SplitJoin(saved);
      CleanLinesKeepsTrimmed(saved);
    }
  }

  /** The pieces of an all-whitespace text are all whitespace. */
  lemma {:induction false} SplitBlank(s: string)
    requires Text.Blank(s)
    ensures forall i :: 0 <= i < |Text.Split(s)| ==> Text.Blank(Text.Split(s)[i])
    decreases |s|
  {
    if s != [] {
      SplitBlank(s[1..]);
    }
  }

  /** A text with a non-whitespace character has a piece with one. */
  lemma {:induction false} SplitNonBlank(s: string)
    requires !Text.Blank(s)
    ensures exists i :: 0 <= i < |Text.Split(s)| && !Text.Blank(Text.Split(s)[i])
    decreases |s|
  {
    var rest := Text.Split(s[1..]);
    if Text.IsWhitespace(s[0]) {
      assert !Text.Blank(s[1..]) by {
        var k :| 0 <= k < |s| && !Text.IsWhitespace(s[k]);
        assert s[1..][k - 1] == s[k];
      }
      SplitNonBlank(s[1..]);
      var i :| 0 <= i < |rest| && !Text.Blank(rest[i]);
      if s[0] == '\n' {
        assert Text.Split(s)[i + 1] == rest[i];
      } else if i == 0 {
        assert ([s[0]] + rest[0])[1..] == rest[0];
        assert !Text.Blank(Text.Split(s)[0]) by {
          var k :| 0 <= k < |rest[0]| && !Text.IsWhitespace(rest[0][k]);
          assert Text.Split(s)[0][k + 1] == rest[0][k];
        }
      } else {
        assert Text.Split(s)[i] == rest[i];
      }
    } else {
      assert Text.Split(s)[0][0] == s[0];
    }
  }

  lemma {:induction false} CleanLinesEmptyIffBlank(lines: seq<string>)
    ensures CleanLines(lines) == [] <==> forall i :: 0 <= i < |lines| ==> Text.Blank(lines[i])
    decreases |lines|
  {
    if lines != [] {
      Text.TrimEmptyIffBlank(lines[0]);
      CleanLinesEmptyIffBlank(lines[1..]);
      assert forall i :: 1 <= i < |lines| ==> lines[i] == lines[1..][i - 1];
    }
  }

  /** The textarea gives no names exactly when all of it is whitespace (line breaks included). */
  lemma ParseNamesEmptyIffBlank(text: string)
    ensures ParseNames(text) == [] <==> Text.Blank(text)
  {
    CleanLinesEmptyIffBlank(Text.Split(text));
    if Text.Blank(text) {
      SplitBlank(text);
    } else {
      SplitNonBlank(text);
    }
  }

  /** What the dialog shows: checkboxes when dashboards were discovered, else the textarea. */
  datatype Entry = CheckboxList(boxes: seq<Checkbox>) | TextArea(text: string)

  /** The names a Save click collects from the dialog's current contents. */
  function SelectedNames(entry: Entry): (names: seq<string>)
    ensures entry.CheckboxList? ==> IsSubsequence(names, Values(entry.boxes))
    ensures entry.TextArea? ==> forall i :: 0 <= i < |names| ==> IsCleanName(names[i])
  {
    match entry
    case CheckboxList(boxes) => CheckedValues(boxes)
    case TextArea(text) => ParseNames(text)
  }

  const NoSelectionError := "Please select at least one dashboard."

  /** The validation step of Save. */
  datatype Validation = Rejected(error: string) | Accepted(names: seq<string>)

  /** An empty selection is rejected with the inline error; a non-empty one goes on unchanged. */
  function Validate(names: seq<string>): (v: Validation)
    ensures v.Rejected? <==> |names| == 0
    ensures v.Rejected? ==> v.error == NoSelectionError
    ensures v.Accepted? ==> v.names == names
  {
    if |names| == 0 then Rejected(NoSelectionError) else Accepted(names)
  }

  /** "Saved N dashboard(s)!" */
  function SavedToast(count: nat): (t: Toasts.Toast)
    ensures !t.isError && t.durationMs == Toasts.DefaultDurationMs
    ensures |t.message| > 20
    ensures t.message[..6] == "Saved " && t.message[|t.message| - 14..] == " dashboard(s)!"
    ensures t.message[6..|t.message| - 14] == Text.Decimal(count)
  {
    Toasts.Info("Saved " + Text.Decimal(count) + " dashboard(s)!")
  }

  /** How the host's `saveAsync` settled: committed, or rejected with a message. */
  datatype SaveOutcome = Committed | Failed(reason: string)

  /** The open dialog: its entry widgets, the inline error slot and the settings it saves to. */
  class ConfigDialog {
    var open: bool
    var entry: Entry
    var error: Option<string>
    const store: Settings.SettingsStore

    /**
     * Opening: checkboxes when `available` is non-empty (pre-ticked from the
     * saved list), else a textarea holding the saved names one per line.
     */
    constructor (store: Settings.SettingsStore, available: seq<string>)
      ensures this.store == store && open && error == None
      ensures |available| > 0 ==> entry.CheckboxList?
      ensures |available| > 0 ==> |entry.boxes| == |available|
      ensures |available| > 0 ==> forall i :: 0 <= i < |available| ==>
        entry.boxes[i].value == available[i] && (entry.boxes[i].checked <==> available[i] in store.SavedDashboards())
      ensures |available| == 0 ==> entry == TextArea(Text.Join(store.SavedDashboards()))
    {
      var saved := store.SavedDashboards();
      if |available| > 0 {
        var boxes := RenderCheckboxes(available, saved);
        entry := CheckboxList(boxes);
      } else {
        entry := TextArea(Text.Join(saved));
      }
      this.store := store;
      open := true;
      error := None;
    }

    /** The user ticks or unticks box i. */
    method SetChecked(i: nat, checked: bool)
      requires entry.CheckboxList? && i < |entry.boxes|
      modifies this
      ensures entry == CheckboxList(old(entry.boxes)[i := Checkbox(old(entry.boxes[i].value), checked)])
      ensures Values(entry.boxes) == Values(old(entry.boxes))
      ensures open == old(open) && error == old(error)
    {
      var boxes := entry.boxes;
      entry := CheckboxList(boxes[i := Checkbox(boxes[i].value, checked)]);
    }

    /** The user edits the textarea. */
    method SetText(text: string)
      requires entry.TextArea?
      modifies this
      ensures entry == TextArea(text)
      ensures open == old(open) && error == old(error)
    {
      entry := TextArea(text);
    }

    /** Cancel: the overlay goes and nothing is saved. */
    method Cancel()
      modifies this
      ensures !open && entry == old(entry) && error == old(error)
    {
      open := false;
    }

    /**
     * Save. An empty selection shows the inline error and leaves the
     * settings untouched. Otherwise the selection is written to the settings
     * unchanged; a committed save closes the dialog with a toast counting the
     * names, a failed one keeps it open with the failure shown inline.
     */
    method Save(outcome: SaveOutcome) returns (toast: Option<Toasts.Toast>)
      requires open
      modifies this, store
      ensures entry == old(entry)
      ensures SelectedNames(entry) == [] ==>
        open && error == Some(NoSelectionError) && toast == None && store.entries == old(store.entries)
      ensures SelectedNames(entry) != [] ==>
        store.entries == old(store.entries)[Settings.DashboardNamesKey := Json.Encode(SelectedNames(entry))] &&
        store.SavedDashboards() == SelectedNames(entry)
      ensures SelectedNames(entry) != [] && outcome.Committed? ==>
        !open && error == old(error) && toast == Some(SavedToast(|SelectedNames(entry)|))
      ensures SelectedNames(entry) != [] && outcome.Failed? ==>
        open && error == Some("Save failed: " + outcome.reason) && toast == None
    {
      var names := SelectedNames(entry);
      var v := Validate(names);
      if v.Rejected? {
        error := Some(v.error);
        toast := None;
      } else {
        store.SaveDashboards(v.names);
        if outcome.Committed? {
          open := false;
          toast := Some(SavedToast(|v.names|));
        } else {
          error := Some("Save failed: " + outcome.reason);
          toast := None;
        }
      }
    }
  }
}
