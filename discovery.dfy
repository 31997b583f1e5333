/**
 * `getAvailableDashboards`: the names of the workbook's published sheets
 * whose type, lower-cased, is "dashboard", in the host's order.
 */
module Discovery {
  import opened Wrappers
  import Text

  /** One entry of `publishedSheetsInfo`. */
  datatype SheetInfo = SheetInfo(name: string, sheetType: string)

  /**
   * What the host exposes: no workbook at all, or a workbook whose
   * `publishedSheetsInfo` may be missing.
   */
  datatype Workbook = NoWorkbook | Workbook(published: Option<seq<SheetInfo>>)

  const DashboardType := "dashboard"

  predicate IsDashboard(s: SheetInfo) {
    Text.Lower(s.sheetType) == DashboardType
  }

  /** The filter-then-map over the published sheets. */
  function DashboardNames(sheets: seq<SheetInfo>): (names: seq<string>)
    ensures |names| <= |sheets|
    decreases |sheets|
  {
    if sheets == [] then []
    else if IsDashboard(sheets[0]) then [sheets[0].name] + DashboardNames(sheets[1..])
    else DashboardNames(sheets[1..])
  }

  /** `getAvailableDashboards`: empty without a workbook or without sheet information. */
  function AvailableDashboards(wb: Workbook): (names: seq<string>)
    ensures wb.NoWorkbook? || wb.published.None? ==> names == []
    ensures wb.Workbook? && wb.published.Some? ==> names == DashboardNames(wb.published.value)
  {
    match wb
    case NoWorkbook => []
    case Workbook(None) => []
    case Workbook(Some(sheets)) => DashboardNames(sheets)
  }

  /** Discovery runs over the list piece by piece, so it keeps the host's order. */
  lemma {:induction false} DashboardNamesAppend(a: seq<SheetInfo>, b: seq<SheetInfo>)
    ensures DashboardNames(a + b) == DashboardNames(a) + DashboardNames(b)
    decreases |a|
  {
    if a == [] {
      assert a + b == b;
    } else {
      var ab := a + b;
      assert ab[0] == a[0];
      assert ab[1..] == a[1..] + b;
      DashboardNamesAppend(a[1..], b);
      if IsDashboard(a[0]) {
        assert DashboardNames(ab) == [a[0].name] + (DashboardNames(a[1..]) + DashboardNames(b));
      }
    }
  }

  /** One sheet is kept exactly when it is a dashboard. */
  lemma DashboardNamesSingle(s: SheetInfo)
    ensures DashboardNames([s]) == if IsDashboard(s) then [s.name] else []
  {
  }

  /** Every discovered name is the name of a dashboard sheet. */
  lemma {:induction false} DiscoveredIsDashboard(sheets: seq<SheetInfo>, n: string)
    requires n in DashboardNames(sheets)
    ensures exists i :: 0 <= i < |sheets| && IsDashboard(sheets[i]) && sheets[i].name == n
    decreases |sheets|
  {
    if !(IsDashboard(sheets[0]) && sheets[0].name == n) {
      DiscoveredIsDashboard(sheets[1..], n);
      var i :| 0 <= i < |sheets[1..]| && IsDashboard(sheets[1..][i]) && sheets[1..][i].name == n;
      assert sheets[i + 1] == sheets[1..][i];
    }
  }

  /** Every dashboard's name is discovered. */
  lemma {:induction false} DashboardDiscovered(sheets: seq<SheetInfo>, i: nat)
    requires i < |sheets| && IsDashboard(sheets[i])
    ensures sheets[i].name in DashboardNames(sheets)
    decreases |sheets|
  {
    if i > 0 {
      DashboardDiscovered(sheets[1..], i - 1);
    }
  }

  /** A name none of whose sheets is a dashboard is never discovered. */
  lemma NoOtherTypes(sheets: seq<SheetInfo>, n: string)
    requires forall i :: 0 <= i < |sheets| && sheets[i].name == n ==> !IsDashboard(sheets[i])
    ensures n !in DashboardNames(sheets)
  {
    if n in DashboardNames(sheets) {
      DiscoveredIsDashboard(sheets, n);
    }
  }

  /** "Dashboard" in any ASCII capitalisation lower-cases to the type the filter looks for. */
  lemma LowerDashboard(t: string)
    requires |t| == 9 && Text.LowerChar(t[0]) == 'd' && Text.LowerChar(t[1]) == 'a' && Text.LowerChar(t[2]) == 's'
    requires Text.LowerChar(t[3]) == 'h' && Text.LowerChar(t[4]) == 'b' && Text.LowerChar(t[5]) == 'o'
    requires Text.LowerChar(t[6]) == 'a' && Text.LowerChar(t[7]) == 'r' && Text.LowerChar(t[8]) == 'd'
    ensures Text.Lower(t) == DashboardType
  {
  }

  /** The comparison ignores ASCII case: "Dashboard" and "DASHBOARD" sheets count, a worksheet does not. */
  lemma DashboardTypeIgnoresCase()
    ensures DashboardNames([SheetInfo("Sales", "Dashboard"), SheetInfo("Map", "worksheet"), SheetInfo("Ops", "DASHBOARD")]) == ["Sales", "Ops"]
  {
    var a, b, c := SheetInfo("Sales", "Dashboard"), SheetInfo("Map", "worksheet"), SheetInfo("Ops", "DASHBOARD");
    LowerDashboard(a.sheetType);
    LowerDashboard(c.sheetType);
    assert !IsDashboard(b) by {
      assert Text.Lower(b.sheetType)[0] == 'w';
    }
    DashboardNamesAppend([a], [b, c]);
    DashboardNamesAppend([b], [c]);
    assert [a] + [b, c] == [a, b, c];
    assert [b] + [c] == [b, c];
  }
}
