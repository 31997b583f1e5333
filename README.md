# Dashboard navigation widget: a Dafny model

This project models the list and string logic of a dashboard-navigation extension for a
visual-analytics host (`navigation.js`). The widget keeps a saved list of dashboard names in
the host's settings and discovers the workbook's published dashboards. It offers the names in
a Navigate dropdown, edits the list in a configuration dialog (checkboxes or a textarea), and
explains a failed navigation with a case-insensitive "Did you mean" suggestion.

Modules, leaf first:

- `Wrappers`: `Option`.
- `Sequences`: the subsequence relation.
- `Text`: `trim` (exact ECMAScript whitespace set), `split('\n')`, `join('\n')`, ASCII `toLowerCase`, decimal counts.
- `Json`: `JSON.stringify` of a string array, and the part of `JSON.parse` that reads one back. The
  round trip is proved.
- `Settings`: `getSavedDashboards` / `saveDashboards`. The host settings are a class holding a
  `map<string, string>`.
- `Discovery`: `getAvailableDashboards`.
- `Toasts`: the toast record.
- `Config`: `openConfigureDialog`. The checkbox loop is a method. Textarea parsing and save validation
  are functions; the open dialog, with its Save and Cancel, is the class `ConfigDialog`.
- `Menu`: `renderSheets` is a method with a loop over a `Dropdown` object; `loadDashboards` chooses
  the source.
- `Dropdowns`: `closeAllDropdowns` / `toggleDropdown`, a class over a `map<string, bool>` of
  `show` flags.
- `Navigation`: the suggestion lookup, the failure message, the three settle handlers and `restoreTitle`.
- `Startup`: the first-run auto-open rule of `init`.

Host calls are inputs to the model:
- the raw setting string;
- the workbook's sheet list;
- the outcome of `saveAsync`;
- how `activateSheetAsync` settled;
- the host's current dashboard name.

Behaviour of the code worth noting:

- `restoreTitle` swallows every exception (navigation.js:210-215). When the host's name cannot be
  read, the title stays "Navigating..."; it does not fall back to "Dashboard". "Dashboard" is used
  only when the name is empty (`Navigation.RestoredTitle`).
- This file has no standalone mode. When `initializeAsync` rejects, init shows an error toast
  (navigation.js:407-410), and the 500 ms standalone nudge does not exist.
- `saveDashboards` calls `settings.set` before `saveAsync` (navigation.js:72-73). A rejected commit
  therefore still leaves the new list in the in-session settings. `ConfigDialog.Save` states
  exactly that.
- Nothing guards against a late settlement after the 8000 ms timeout has fired (navigation.js:229-243).
  The model claims no "fires once" property.

## Model

| member | source | states |
|---|---|---|
| Text.TrimStart | navigation.js:184 | what is removed is all whitespace; what is kept is a suffix starting with non-whitespace |
| Text.TrimEnd | navigation.js:184 | what is removed is all whitespace; what is kept is a prefix ending with non-whitespace |
| Text.Trim | navigation.js:184 | the trim neither starts nor ends with whitespace |
| Text.TrimIsSlice | navigation.js:184 | the trim is a slice of the input with only whitespace cut from either side |
| Text.TrimIdempotent | navigation.js:184 | trimming twice equals trimming once |
| Text.TrimEmptyIffBlank | navigation.js:184 | a line trims to "" exactly when it is all whitespace |
| Text.Split | navigation.js:184 | `split('\n')` yields at least one piece, and no piece holds a line break |
| Text.SplitAtBreak | navigation.js:184 | splitting `a + "\n" + b` splits `a` and `b` separately and concatenates |
| Text.Join | navigation.js:137 | the empty list joins to ""; the text starts with the first name; for newline-free names it holds a line break exactly when there are two names or more |
| Text.Decimal | navigation.js:199 | a count renders as a non-empty string of decimal digits with no leading zero |
| Text.DecimalValue | navigation.js:199 | those digits read back, most significant first, as the count |
| Text.SplitJoin | navigation.js:137 | splitting the `join('\n')` of one or more newline-free names gives those names back |
| Text.Lower | navigation.js:84 | same length, each ASCII capital becomes its lower-case letter, and every other character is unchanged |
| Json.Encode | navigation.js:72 | the serialised list is never empty and starts with `[`, so the `raw ?` test passes it |
| Json.Decode | navigation.js:64 | only a text holding `[` parses, so the empty string and anything that is not an array are rejected |
| Json.DecodeEncode | navigation.js:64 | `JSON.parse(JSON.stringify(xs))` is `xs` for every list of strings |
| Json.EncodeInjective | navigation.js:72 | different lists are stored as different strings |
| Settings.NamesFromSetting | navigation.js:61-69 | a missing or empty setting gives []; a value the parser rejects gives []; otherwise the parsed list |
| Settings.LoadAfterSave | navigation.js:63-72 | loading what `saveDashboards` wrote yields the saved list |
| Settings.SettingsStore.Get | navigation.js:63 | `get` finds a value exactly when the key is set |
| Settings.SettingsStore.Set | navigation.js:72 | `set` changes that key only |
| Settings.SettingsStore.SavedDashboards | navigation.js:61-69 | a missing or empty `dashboardNames` setting gives []; otherwise the list read from the stored string |
| Settings.SettingsStore.SaveDashboards | navigation.js:71-74 | only the `dashboardNames` entry changes, and it now reads back as the saved list |
| Discovery.DashboardNames | navigation.js:83-85 | the filter-then-map never yields more names than there are sheets |
| Discovery.DiscoveredIsDashboard | navigation.js:83-85 | each discovered name is the name of a sheet whose lower-cased type is "dashboard" |
| Discovery.AvailableDashboards | navigation.js:77-93 | no workbook, or no sheet information, gives []; otherwise the result is the filter-then-map of the published sheets |
| Discovery.DashboardNamesAppend | navigation.js:83-85 | discovery distributes over concatenation, so host order is kept |
| Discovery.DashboardNamesSingle | navigation.js:84 | one sheet is kept, as its name, exactly when it is a dashboard |
| Discovery.DashboardDiscovered | navigation.js:83-85 | every dashboard sheet's name is discovered |
| Discovery.NoOtherTypes | navigation.js:84 | a name carried by no dashboard sheet is never discovered |
| Discovery.DashboardTypeIgnoresCase | navigation.js:84 | "Dashboard" and "DASHBOARD" sheets are kept, in order, and a worksheet is not |
| Config.RenderCheckboxes | navigation.js:117-125 | box i carries available[i] and is pre-ticked exactly when that name is in the saved list |
| Config.ValueAsParsed | navigation.js:121 | the attribute value parsed from `value="${name}"` is the name up to its first double quote; it is the whole name when the name has none |
| Config.RenderCheckboxesAsWritten | navigation.js:117-125 | as written, box i's value is ValueAsParsed(available[i]); it is ticked exactly when available[i] is saved |
| Config.QuotedNameTruncated | navigation.js:121 | as written, saving an untouched dialog for a saved dashboard `Q1 "final"` stores `Q1 ` |
| Config.CheckedValues | navigation.js:178-179 | the selected names form a subsequence of the box values, and each comes from a ticked box |
| Config.CheckedValuesAppend | navigation.js:178-179 | collecting the ticked values of two runs of boxes gives the first run's followed by the second's, so checkbox order and repeats are kept |
| Config.CheckedValuesSingle | navigation.js:178-179 | one box contributes its value exactly when it is ticked |
| Config.EmptySelectionIffNoneTicked | navigation.js:178-190 | the checkbox selection is empty exactly when no box is ticked |
| Config.CheckedBoxSelected | navigation.js:178-179 | every ticked box's value is selected |
| Config.UneditedSelection | navigation.js:117-179 | saving the dialog untouched selects exactly the discovered names that were saved, as a subsequence of discovery order |
| Config.EditedSelection | navigation.js:178-179 | whatever the user ticks, the selection is a subsequence of the discovered names |
| Config.CleanLines | navigation.js:184 | every kept entry is non-empty and already trimmed |
| Config.ParseNames | navigation.js:184 | textarea parsing yields only non-empty, trimmed names |
| Config.ParseNamesSingleLine | navigation.js:184 | a line without a break yields its trim, or nothing when the trim is empty |
| Config.CleanLinesAppend | navigation.js:184 | cleaning distributes over concatenation of line lists |
| Config.ParseNamesAtBreak | navigation.js:184 | names come in line order and each line counts on its own, so duplicates are kept |
| Config.ParseJoinedNames | navigation.js:137 | a textarea pre-filled with clean, newline-free saved names parses back to that list |
| Config.ParseNamesEmptyIffBlank | navigation.js:184 | the textarea yields no names exactly when it is all whitespace |
| Config.SelectedNames | navigation.js:176-186 | in checkbox mode the names are a subsequence of the box values; in textarea mode each name is non-empty and trimmed |
| Config.Validate | navigation.js:190-194 | rejects exactly the empty list, with "Please select at least one dashboard."; otherwise passes the list on unchanged |
| Config.SavedToast | navigation.js:199 | an information toast with the default duration reading "Saved ", the count in decimal, then " dashboard(s)!" |
| Config.ConfigDialog.constructor | navigation.js:96-139 | checkbox mode when dashboards were discovered, pre-ticked from the saved list; otherwise a textarea holding the saved names joined by line breaks |
| Config.ConfigDialog.SetChecked | navigation.js:121 | ticking changes one box's flag and no value |
| Config.ConfigDialog.SetText | navigation.js:133 | editing replaces the textarea text |
| Config.ConfigDialog.Cancel | navigation.js:170 | cancel closes the dialog and saves nothing |
| Config.ConfigDialog.Save | navigation.js:172-206 | an empty selection shows the inline error and leaves the settings alone; otherwise the selection is written unchanged; a commit closes the dialog with "Saved N dashboard(s)!"; a rejection keeps it open with "Save failed: …" |
| Menu.Without | navigation.js:269 | the remaining names are a subsequence of the input; a name remains exactly when it is in the input and is not the current one |
| Menu.WithoutAppend | navigation.js:269 | the filter distributes over concatenation, so relative order is kept |
| Menu.WithoutAbsent | navigation.js:269 | a list without the current name is kept whole |
| Menu.Rendered | navigation.js:265-303 | the menu has at least three children and ends with the separator and the edit entry; its first child is the notice when no name remains, else the first remaining name |
| Menu.RenderedTargets | navigation.js:269-286 | the navigable entries of the rendered menu are exactly the filtered names, in order |
| Menu.RenderedShape | navigation.js:265-303 | the menu is exactly the notice, the separator and the edit entry when no name remains; the notice appears only then; otherwise the remaining names, in order, are followed only by the separator and the edit entry; the current dashboard is never offered |
| Menu.RenderedLabels | navigation.js:271-296 | the menu reads the remaining names in order, or "No other dashboards" when none remain, and ends with "⚙ Edit navigation list" |
| Menu.RenderSheets | navigation.js:265-303 | after the append loop, the dropdown's children are the rendered menu |
| Menu.ChooseSource | navigation.js:312-324 | the saved list itself is chosen exactly when it is non-empty; the discovered list itself exactly when saved is empty and discovery is not |
| Menu.Listing | navigation.js:312-331 | every listing has at least two entries; the last is the set-up entry for the prompt and the edit entry otherwise |
| Menu.SourcePreference | navigation.js:305-331 | a non-empty saved list is listed even when discovery found names; discovery is used only when nothing is saved; the set-up prompt appears exactly when both are empty; the last entry always opens the dialog |
| Menu.SavedListExample | navigation.js:312-315 | with saved Sales and Ops, discovered Sales, Ops and HR, on Sales: the menu is Ops, separator, edit entry |
| Menu.LoadDashboards | navigation.js:305-340 | without the dropdown element nothing happens; otherwise the dropdown shows the listing for the chosen source |
| Dropdowns.AllClosed | navigation.js:25-27 | same dropdowns, none shown |
| Dropdowns.Toggled | navigation.js:29-35 | an unknown id changes nothing; otherwise the target flips and all the others are closed |
| Dropdowns.ToggleLeavesAtMostOne | navigation.js:32-34 | after toggling a known id, at most one dropdown is shown |
| Dropdowns.ToggleKeepsAtMostOne | navigation.js:29-35 | toggling any id keeps at most one dropdown shown |
| Dropdowns.ToggleTwice | navigation.js:32-34 | toggling one id twice restores its flag and leaves all others closed |
| Dropdowns.ToggleSwitches | navigation.js:33-34 | opening a second dropdown closes the one that was open |
| Dropdowns.DropdownFlags.CloseAll | navigation.js:25-27 | the loop clears every `show` flag and keeps the set of dropdowns |
| Dropdowns.DropdownFlags.Toggle | navigation.js:29-35 | the new flags are Toggled of the old ones |
| Navigation.FindFrom | navigation.js:249-251 | returns the first index, at or after the start, that matches ignoring case; None when nothing there matches |
| Navigation.Suggestion | navigation.js:249-251 | `find` returns the first discovered name equal to the target ignoring case, or none when no name matches |
| Navigation.HintFor | navigation.js:249-258 | a suggested name is a discovered name, differs from the target and equals it ignoring case |
| Navigation.HintIff | navigation.js:254-258 | a suggestion is offered exactly when the first case-insensitive match differs from the name, and it is that match; the falsy-string test changes nothing |
| Navigation.FirstCaseVariantSuggested | navigation.js:249-255 | when the first case-insensitive match differs from the name, that match is suggested |
| Navigation.FailureMessage | navigation.js:253-258 | the message starts with `Could not navigate to "name".` and has more after it |
| Navigation.MessageEnding | navigation.js:253-258 | the toast starts with `Could not navigate to "name".`; it ends with the case-sensitive advice exactly when nothing is suggested, and otherwise with `Did you mean "s"?` |
| Navigation.RestoredTitle | navigation.js:210-215 | the host's name, or "Dashboard" when that name is empty; the title is unchanged when reading the name throws |
| Navigation.StartNavigation | navigation.js:220-226 | without a workbook only the error toast "Workbook unavailable." appears; otherwise the title shows "Navigating..." |
| Navigation.Settle | navigation.js:229-261 | success shows the target's name with the toast "Navigated to name"; rejection and timeout restore the title with an error toast; rejection's 8-second toast carries the suggestion message; the timeout's 6-second toast says the navigation timed out and the name may not match exactly |
| Startup.AutoOpen | navigation.js:402 | the dialog opens by itself exactly when the menu would fall back to discovery |
| Startup.NoAutoOpenAfterSave | navigation.js:398-405 | once a non-empty list has been saved, the dialog no longer opens by itself |
| Startup.AutoOpenedDialog | navigation.js:399-404 | for boxes rendered as the dialog's constructor renders them on first run, the menu lists the discovered names, no box is ticked, and an untouched Save is rejected with the inline error |

## Findings

| source | as written | input that shows it | evidently intended | confidence | as-written member | corrected member |
|---|---|---|---|---|---|---|
| navigation.js:121 | the name is spliced unescaped into `value="${name}"`; the browser ends the attribute at the first `"` | a saved and discovered dashboard `Q1 "final"`: the box is pre-ticked, but an untouched Save stores `Q1 ` (lemma Config.QuotedNameTruncated) | each checkbox's value is the dashboard's name | high for names containing `"`; not executed | Config.RenderCheckboxesAsWritten | Config.RenderCheckboxes |

The dialog (`Config.ConfigDialog.constructor`) uses the corrected rendering. `Config.UneditedSelection`
proves the intended property for it: an untouched Save keeps exactly the saved names that were
discovered.

## Left out

- DOM construction and styling: toast markup, the overlay HTML, `cssText` and `innerHTML`
  (navigation.js:6-23, 106-166). These are presentation only. The menu is a sequence of item
  records and a toast is a record.
- Timers: toast auto-removal (navigation.js:22), the 400 ms auto-open delay (navigation.js:404), and
  the 8000 ms timeout's race with the activation promise (navigation.js:229-243). `Navigation.Settle`
  models each handler as it runs. Which handler runs, and how often, is an input.
- Host API calls are inputs, and their failures are reduced to those inputs:
  - `initializeAsync`, `saveAsync`, `activateSheetAsync` and the `dashboardContent` / `environment`
    reads.
  - A throwing `settings.get` (navigation.js:63), which the source catches as [], is treated as a
    missing setting.
  - Exceptions from the workbook getters (navigation.js:89-92) are not modelled beyond "no workbook"
    and "no sheet information".
- `setup` (title and user-name display, navigation.js:343-359), `attachListeners` (navigation.js:361-385),
  `setupHelp`, the help-menu mail and external-link handlers and the global click listener
  (navigation.js:37-58) are event glue and static links.
- `Json.Decode` differs from `JSON.parse` in three ways:
  - It reads only JSON arrays of strings. A stored value that is valid JSON of another shape
    (`{}` or `[1]`) is returned as-is by the source; the model treats it as a parse failure, so the
    saved list is [].
  - It rejects `\u` escapes of surrogate code points, which `JSON.parse` pairs into one character.
  - Dafny characters are Unicode scalar values, so names holding lone UTF-16 surrogates cannot be
    expressed.
- `toLowerCase` is ASCII only (`Text.Lower`). In the discovery test against "dashboard" this matters
  only if some non-ASCII character lower-cases to one of its letters. In the suggestion lookup,
  names that differ only in non-ASCII case are not matched.
- `String(s.sheetType)` coercion: sheet types are modelled as strings.
- HTML parsing of the textarea pre-fill (navigation.js:137): character references are decoded, an
  embedded `</textarea>` ends the element, and a leading line break is dropped. The model takes the
  joined text verbatim.
- Config.ValueAsParsed: models only the end of the attribute at the first `"`. The browser also
  decodes character references in the value (`A&amp;B` reads back as `A&B`), which the model
  does not; its ensures hold for the markup as modelled, not for names holding `&`.
- Config.RenderCheckboxesAsWritten: the text after the first `"` of a name is parsed as further
  attributes, so a name such as `x" checked y="` pre-ticks its box even when it is not saved. The
  model keeps the `saved.includes` rule for the tick; only the truncated value is modelled.
- Config.ConfigDialog.constructor: builds the boxes with the corrected `Config.RenderCheckboxes`,
  so each box carries the whole name. As written (navigation.js:121) a name holding `"` is read
  back truncated; that case is modelled separately under Findings.
- Closing every dropdown from event handlers: `navigateToDashboard` (navigation.js:219) and the
  mousedown handlers of the edit entry and the set-up button (navigation.js:299, 336) call
  `closeAllDropdowns` first. The close itself is `Dropdowns.DropdownFlags.CloseAll`; the handlers
  that call it are event glue and are not modelled.
- Removing an already open dialog before opening a new one (navigation.js:97-98) is left out: the
  model has one dialog object.
