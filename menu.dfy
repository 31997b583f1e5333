/**
 * The Navigate dropdown: `renderSheets` lists every name but the current
 * dashboard's and ends with the link into the configuration dialog;
 * `loadDashboards` picks the saved list, else the discovered one, else a
 * set-up prompt.
 */
module Menu {
  import opened Sequences
  import Settings
  import Discovery

  /** One child of the dropdown element. */
  datatype MenuItem =
    | Dashboard(name: string)   // a navigable entry labelled with the name
    | Disabled(text: string)    // a greyed-out notice
    | Separator
    | EditList                  // "⚙ Edit navigation list"
    | SetUpNavigation           // "⚙ Set up navigation"

  const NoOtherDashboards := "No other dashboards"
  const NotConfigured := "No dashboards configured yet."

  /** The text each item shows. */
  function Label(item: MenuItem): string {
    match item
    case Dashboard(name) => name
    case Disabled(text) => text
    case Separator => ""
    case EditList => "\U{2699} Edit navigation list"
    case SetUpNavigation => "\U{2699} Set up navigation"
  }

  /**
   * `names.filter(n => n !== currentName)`: every occurrence of the current
   * name is dropped, the others stay in order.
   */
  function Without(names: seq<string>, current: string): (r: seq<string>)
    ensures IsSubsequence(r, names)
    ensures forall n :: n in r <==> n in names && n != current
    decreases |names|
  {
    if names == [] then []
    else
      var rest := Without(names[1..], current);
      SubsequenceCons(rest, names[1..], names[0], names[0] != current);
      assert names == [names[0]] + names[1..];
      if names[0] != current then [names[0]] + rest else rest
  }

  /** The filter works element by element. */
  lemma {:induction false} WithoutAppend(a: seq<string>, b: seq<string>, current: string)
    ensures Without(a + b, current) == Without(a, current) + Without(b, current)
    decreases |a|
  {
    if a == [] {
      assert a + b == b;
    } else {
      assert (a + b)[1..] == a[1..] + b;
      WithoutAppend(a[1..], b, current);
    }
  }

  /** A list that does not mention the current dashboard is listed whole. */
  lemma {:induction false} WithoutAbsent(names: seq<string>, current: string)
    requires current !in names
    ensures Without(names, current) == names
    decreases |names|
  {
    if names != [] {
      assert forall n :: n in names[1..] ==> n in names;
      WithoutAbsent(names[1..], current);
      assert names == [names[0]] + names[1..];
    }
  }

  function DashboardItems(names: seq<string>): (items: seq<MenuItem>)
    ensures |items| == |names|
    ensures forall i :: 0 <= i < |names| ==> items[i] == Dashboard(names[i])
  {
    seq(|names|, i requires 0 <= i < |names| => Dashboard(names[i]))
  }

  /** The children `renderSheets` leaves in the dropdown. */
  function Rendered(names: seq<string>, current: string): (items: seq<MenuItem>)
    ensures |items| >= 3 && items[|items| - 2..] == [Separator, EditList]
    ensures Without(names, current) == [] ==> items[0] == Disabled(NoOtherDashboards)
    ensures Without(names, current) != [] ==> items[0] == Dashboard(Without(names, current)[0])
  {
    var filtered := Without(names, current);
    (if filtered == [] then [Disabled(NoOtherDashboards)] else DashboardItems(filtered)) + [Separator, EditList]
  }

  /** The names of the navigable entries of a menu, in menu order. */
  function Targets(items: seq<MenuItem>): (names: seq<string>)
    decreases |items|
  {
    if items == [] then []
    else (if items[0].Dashboard? then [items[0].name] else []) + Targets(items[1..])
  }

  lemma {:induction false} TargetsAppend(a: seq<MenuItem>, b: seq<MenuItem>)
    ensures Targets(a + b) == Targets(a) + Targets(b)
    decreases |a|
  {
    if a == [] {
      assert a + b == b;
    } else {
      assert (a + b)[1..] == a[1..] + b;
      TargetsAppend(a[1..], b);
    }
  }

  lemma {:induction false} TargetsOfDashboardItems(names: seq<string>)
    ensures Targets(DashboardItems(names)) == names
    decreases |names|
  {
    if names != [] {
      TargetsOfDashboardItems(names[1..]);
      assert DashboardItems(names)[1..] == DashboardItems(names[1..]);
      assert names == [names[0]] + names[1..];
    }
  }

  /** The navigable entries of the rendered menu are the filtered names, in order. */
  lemma RenderedTargets(names: seq<string>, current: string)
    ensures Targets(Rendered(names, current)) == Without(names, current)
  {
    var filtered := Without(names, current);
    var head := if filtered == [] then [Disabled(NoOtherDashboards)] else DashboardItems(filtered);
    TargetsAppend(head, [Separator, EditList]);
    assert Targets([Separator, EditList]) == [];
    if filtered != [] {
      TargetsOfDashboardItems(filtered);
    }
  }

  /**
   * The rendered menu: it holds the single "No other dashboards" notice
   * exactly when no name remains, it always ends with a separator and the
   * edit-list entry, and it never offers the current dashboard.
   */
  lemma RenderedShape(names: seq<string>, current: string)
    ensures Without(names, current) == [] <==> Rendered(names, current) == [Disabled(NoOtherDashboards), Separator, EditList]
    ensures Disabled(NoOtherDashboards) in Rendered(names, current) <==> Without(names, current) == []
    ensures Without(names, current) != [] ==>
      |Rendered(names, current)| == |Without(names, current)| + 2 &&
      Rendered(names, current)[..|Without(names, current)|] == DashboardItems(Without(names, current))
    ensures |Rendered(names, current)| >= 3
    ensures Rendered(names, current)[|Rendered(names, current)| - 2..] == [Separator, EditList]
    ensures Dashboard(current) !in Rendered(names, current)
  {
    var filtered := Without(names, current);
    var r := Rendered(names, current);
    if filtered != [] {
      assert r[0] == Dashboard(filtered[0]);
    }
    assert r[|r| - 2..] == [Separator, EditList];
  }

  /**
   * What the rendered menu reads: the remaining names in order, or the
   * "No other dashboards" notice when none remain, and last the edit entry.
   */
  lemma RenderedLabels(names: seq<string>, current: string)
    ensures var items, w := Rendered(names, current), Without(names, current);
      && Label(items[|items| - 1]) == "\U{2699} Edit navigation list"
      && (w == [] ==> Label(items[0]) == NoOtherDashboards)
      && forall i :: 0 <= i < |w| ==> Label(items[i]) == w[i]
  {
    var items, w := Rendered(names, current), Without(names, current);
    RenderedShape(names, current);
    if w != [] {
      assert forall i :: 0 <= i < |w| ==> items[i] == items[..|w|][i];
    }
  }

  /** The dropdown element whose children the widget replaces. */
  class Dropdown {
    var items: seq<MenuItem>

    constructor ()
      ensures items == []
    {
      items := [];
    }
  }

  /** `renderSheets`: clears the dropdown and appends its children one by one. */
  method RenderSheets(dd: Dropdown, names: seq<string>, current: string)
    modifies dd
    ensures dd.items == Rendered(names, current)
  {
    dd.items := [];
    var filtered := Without(names, current);
    if |filtered| == 0 {
      dd.items := dd.items + [Disabled(NoOtherDashboards)];
    } else {
      var i := 0;
      while i < |filtered|
        invariant i <= |filtered|
        invariant dd.items == DashboardItems(filtered[..i])
      {
        dd.items := dd.items + [Dashboard(filtered[i])];
        i := i + 1;
      }
      assert filtered[..i] == filtered;
    }
    dd.items := dd.items + [Separator];
    dd.items := dd.items + [EditList];
  }

  /** Where the menu's names come from. */
  datatype Source = SavedList(names: seq<string>) | DiscoveredList(names: seq<string>) | SetupPrompt

  /** The choice in `loadDashboards`. */
  function ChooseSource(saved: seq<string>, available: seq<string>): (source: Source)
    ensures source.SavedList? <==> saved != []
    ensures source.DiscoveredList? <==> saved == [] && available != []
    ensures source.SavedList? ==> source.names == saved
    ensures source.DiscoveredList? ==> source.names == available
  {
    if |saved| > 0 then SavedList(saved)
    else if |available| > 0 then DiscoveredList(available)
    else SetupPrompt
  }

  /** The menu for a chosen source. */
  function Listing(source: Source, current: string): (items: seq<MenuItem>)
    ensures |items| >= 2
    ensures items[|items| - 1] == if source.SetupPrompt? then SetUpNavigation else EditList
  {
    match source
    case SavedList(names) => Rendered(names, current)
    case DiscoveredList(names) => Rendered(names, current)
    case SetupPrompt => [Disabled(NotConfigured), SetUpNavigation]
  }

  /**
   * A non-empty saved list wins over discovery; discovery fills in only for
   * an empty saved list; the set-up prompt appears exactly when both are
   * empty. Whatever the source, the last entry opens the configuration dialog.
   */
  lemma SourcePreference(saved: seq<string>, available: seq<string>, current: string)
    ensures var items := Listing(ChooseSource(saved, available), current);
      && (saved != [] ==> Targets(items) == Without(saved, current))
      && (saved == [] && available != [] ==> Targets(items) == Without(available, current))
      && (items == [Disabled(NotConfigured), SetUpNavigation] <==> saved == [] && available == [])
      && (items[|items| - 1] == EditList || items[|items| - 1] == SetUpNavigation)
  {
    var items := Listing(ChooseSource(saved, available), current);
    if saved != [] {
      RenderedShape(saved, current);
      RenderedTargets(saved, current);
    } else if available != [] {
      RenderedShape(available, current);
      RenderedTargets(available, current);
    }
  }

  /** The saved-versus-discovered example: saved Sales and Ops while on Sales lists only Ops. */
  lemma SavedListExample()
    ensures Listing(ChooseSource(["Sales", "Ops"], ["Sales", "Ops", "HR"]), "Sales") == [Dashboard("Ops"), Separator, EditList]
  {
    assert Without(["Sales", "Ops"], "Sales") == ["Ops"] by {
      assert ["Sales", "Ops"][1..] == ["Ops"];
      assert ["Ops"][1..] == [];
    }
  }

  /**
   * `loadDashboards`: nothing without the dropdown element; otherwise the
   * listing for the saved names, falling back to the workbook's dashboards.
   */
  method LoadDashboards(dd: Dropdown?, current: string, store: Settings.SettingsStore, wb: Discovery.Workbook)
    modifies dd
    ensures dd != null ==> dd.items == Listing(ChooseSource(store.SavedDashboards(), Discovery.AvailableDashboards(wb)), current)
  {
    if dd == null {
      return;
    }
    var saved := store.SavedDashboards();
    if |saved| > 0 {
      RenderSheets(dd, saved, current);
      return;
    }
    var available := Discovery.AvailableDashboards(wb);
    if |available| > 0 {
      RenderSheets(dd, available, current);
      return;
    }
    dd.items := [Disabled(NotConfigured), SetUpNavigation];
  }
}
