/**
 * The failure handling of `navigateToDashboard`: the case-insensitive
 * "Did you mean" suggestion, the toasts of the three ways the activation
 * call can settle, and `restoreTitle`.
 */
module Navigation {
  import opened Wrappers
  import Text
  import Toasts

  predicate SameIgnoringCase(a: string, b: string) {
    Text.Lower(a) == Text.Lower(b)
  }

  /** Index of the first of `available[from..]` equal to `name` ignoring case. */
  function FindFrom(available: seq<string>, name: string, from: nat): (r: Option<nat>)
    requires from <= |available|
    ensures r.Some? ==> from <= r.value < |available| && SameIgnoringCase(available[r.value], name)
    ensures r.Some? ==> forall j :: from <= j < r.value ==> !SameIgnoringCase(available[j], name)
    ensures r.None? ==> forall j :: from <= j < |available| ==> !SameIgnoringCase(available[j], name)
    decreases |available| - from
  {
    if from == |available| then None
    else if SameIgnoringCase(available[from], name) then Some(from)
    else FindFrom(available, name, from + 1)
  }

  /** `availableDashboards.find(d => d.toLowerCase() === name.toLowerCase())`. */
  function Suggestion(available: seq<string>, name: string): (r: Option<string>)
    ensures r.Some? ==> exists i :: (0 <= i < |available| && available[i] == r.value &&
      SameIgnoringCase(available[i], name) && forall j :: 0 <= j < i ==> !SameIgnoringCase(available[j], name))
    ensures r.None? ==> forall j :: 0 <= j < |available| ==> !SameIgnoringCase(available[j], name)
  {
    match FindFrom(available, name, 0)
    case None => None
    case Some(i) => Some(available[i])
  }

  /** The closing sentence of the failure toast. */
  datatype Hint = DidYouMean(suggestion: string) | MatchExactly

  /** `if (suggestion && suggestion !== name)`: the empty string is falsy. */
  function HintFor(available: seq<string>, name: string): (h: Hint)
    ensures h.DidYouMean? ==> h.suggestion in available && h.suggestion != name && SameIgnoringCase(h.suggestion, name)
  {
    match Suggestion(available, name)
    case Some(s) => if s != "" && s != name then DidYouMean(s) else MatchExactly
    case None => MatchExactly
  }

  const CheckExactly := " Check that the name matches exactly (case-sensitive)."

  function FailureMessage(name: string, hint: Hint): (m: string)
    ensures var head := "Could not navigate to \"" + name + "\".";
      |head| < |m| && m[..|head|] == head
  {
    "Could not navigate to \"" + name + "\"." +
    match hint
    case DidYouMean(s) => " Did you mean \"" + s + "\"?"
    case MatchExactly => CheckExactly
  }

  /**
   * A suggestion is offered exactly when the first discovered name that
   * equals `name` ignoring case differs from `name`, and it is that name;
   * the falsy-string test changes nothing, since only an empty `name`
   * matches an empty discovered name.
   */
  lemma HintIff(available: seq<string>, name: string)
    ensures HintFor(available, name).DidYouMean? <==>
      Suggestion(available, name).Some? && Suggestion(available, name).value != name
    ensures HintFor(available, name).DidYouMean? ==>
      HintFor(available, name).suggestion == Suggestion(available, name).value
  {
    if Suggestion(available, name) == Some("") {
      assert |Text.Lower(name)| == |Text.Lower("")|;
    }
  }

  /** When the first case-insensitive match in discovery order differs from the name, it is the one suggested. */
  lemma FirstCaseVariantSuggested(available: seq<string>, name: string, i: nat)
    requires i < |available| && SameIgnoringCase(available[i], name) && available[i] != name
    requires forall j :: 0 <= j < i ==> !SameIgnoringCase(available[j], name)
    ensures HintFor(available, name) == DidYouMean(available[i])
  {
    HintIff(available, name);
    var k :| (0 <= k < |available| && available[k] == Suggestion(available, name).value &&
      SameIgnoringCase(available[k], name) && forall j :: 0 <= j < k ==> !SameIgnoringCase(available[j], name));
    assert k == i;
  }

  predicate EndsWith(s: string, suffix: string) {
    |suffix| <= |s| && s[|s| - |suffix|..] == suffix
  }

  /**
   * The toast always opens with the failed name; it ends by asking for an
   * exact, case-sensitive name exactly when no suggestion is offered, and
   * otherwise ends by asking about the suggestion.
   */
  lemma MessageEnding(available: seq<string>, name: string)
    ensures var m := FailureMessage(name, HintFor(available, name));
      && m[..|"Could not navigate to \"" + name + "\"."|] == "Could not navigate to \"" + name + "\"."
      && (EndsWith(m, CheckExactly) <==> HintFor(available, name).MatchExactly?)
      && (HintFor(available, name).DidYouMean? ==>
            EndsWith(m, " Did you mean \"" + HintFor(available, name).suggestion + "\"?"))
  {
    var m := FailureMessage(name, HintFor(available, name));
    var head := "Could not navigate to \"" + name + "\".";
    match HintFor(available, name)
    case MatchExactly =>
      assert m == head + CheckExactly;
      assert m[|m| - |CheckExactly|..] == CheckExactly;
    case DidYouMean(s) =>
      var tail := " Did you mean \"" + s + "\"?";
      assert m == head + tail;
      assert m[|m| - |tail|..] == tail;
      assert m[|m| - 1] == '?';
      assert CheckExactly[|CheckExactly| - 1] == '.';
  }

  /** How the activation call was observed to settle. */
  datatype Settlement = Activated | Rejected | TimedOut

  const NavigatingTitle := "Navigating..."
  const DefaultTitle := "Dashboard"

  /**
   * `restoreTitle`: the host's current dashboard name, "Dashboard" when it
   * is empty; when reading it throws (`None`) the title is left as it is.
   */
  function RestoredTitle(title: string, hostName: Option<string>): (r: string)
    ensures hostName == None ==> r == title
    ensures hostName.Some? ==> r == (if hostName.value == "" then DefaultTitle else hostName.value)
  {
    match hostName
    case None => title
    case Some(n) => if n == "" then DefaultTitle else n
  }

  /** The title shown and the toast raised once navigation has settled. */
  datatype View = View(title: string, toast: Toasts.Toast)

  /**
   * Each handler of the activation call, run with "Navigating..." on screen:
   * success shows the target's name; failure restores the title and explains,
   * suggesting a case variant when there is one; the timeout restores the
   * title and warns.
   */
  function Settle(settlement: Settlement, name: string, available: seq<string>, hostName: Option<string>): (v: View)
    ensures settlement == Activated ==> v.title == name && !v.toast.isError
    ensures settlement == Activated ==> v.toast == Toasts.Info("Navigated to " + name)
    ensures settlement == TimedOut ==>
      v.toast == Toasts.Toast("Navigation to \"" + name + "\" timed out. The dashboard name may not match exactly.", true, 6000)
    ensures settlement != Activated ==> v.title == RestoredTitle(NavigatingTitle, hostName) && v.toast.isError
    ensures settlement == Rejected ==> v.toast == Toasts.Toast(FailureMessage(name, HintFor(available, name)), true, 8000)
  {
    match settlement
    case Activated => View(name, Toasts.Info("Navigated to " + name))
    case Rejected =>
      View(RestoredTitle(NavigatingTitle, hostName), Toasts.Toast(FailureMessage(name, HintFor(available, name)), true, 8000))
    case TimedOut =>
      View(RestoredTitle(NavigatingTitle, hostName),
           Toasts.Toast("Navigation to \"" + name + "\" timed out. The dashboard name may not match exactly.", true, 6000))
  }

  /** What a navigation click does before the activation call is issued. */
  datatype Start = Unavailable(toast: Toasts.Toast) | Pending(title: string)

  /**
   * Without a workbook nothing is attempted and an error toast appears;
   * otherwise the title shows "Navigating..." while the call is pending.
   */
  function StartNavigation(hasWorkbook: bool): (s: Start)
    ensures s.Unavailable? <==> !hasWorkbook
    ensures s.Unavailable? ==> s.toast == Toasts.Toast("Workbook unavailable.", true, Toasts.DefaultDurationMs)
    ensures s.Pending? ==> s.title == NavigatingTitle
  {
    if !hasWorkbook then Unavailable(Toasts.Toast("Workbook unavailable.", true, Toasts.DefaultDurationMs))
    else Pending(NavigatingTitle)
  }
}
