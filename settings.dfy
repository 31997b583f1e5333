/**
 * The persisted dashboard list. The host's settings are a string-to-string
 * map the widget writes with `set` and reads with `get`; the list lives under
 * one key, serialised with `JSON.stringify`.
 */
module Settings {
  import opened Wrappers
  import Json

  const DashboardNamesKey := "dashboardNames"

  /**
   * `getSavedDashboards` on the raw setting: a missing or empty setting gives
   * the empty list, and so does a value `JSON.parse` rejects; otherwise the
   * parsed list.
   */
  function NamesFromSetting(raw: Option<string>): (names: seq<string>)
    ensures raw == None || raw == Some("") ==> names == []
    ensures raw.Some? && Json.Decode(raw.value) == None ==> names == []
    ensures raw.Some? && Json.Decode(raw.value).Some? ==> names == Json.Decode(raw.value).value
  {
    match raw
    case None => []
    case Some(s) =>
      if s == "" then []
      else match Json.Decode(s)
        case None => []
        case Some(xs) => xs
  }

  /** Reading back what `saveDashboards` wrote gives the saved list. */
  lemma LoadAfterSave(names: seq<string>)
    ensures NamesFromSetting(Some(Json.Encode(names))) == names
  {
    Json.DecodeEncode(names);
  }

  /** The host's in-session settings. */
  class SettingsStore {
    var entries: map<string, string>

    constructor (initial: map<string, string>)
      ensures entries == initial
    {
      entries := initial;
    }

    function Get(key: string): (r: Option<string>)
      reads this
      ensures r.Some? <==> key in entries
      ensures r.Some? ==> r.value == entries[key]
    {
      if key in entries then Some(entries[key]) else None
    }

    method Set(key: string, value: string)
      modifies this
      ensures entries == old(entries)[key := value]
    {
      entries := entries[key := value];
    }

    /** `getSavedDashboards`. */
    function SavedDashboards(): (names: seq<string>)
      reads this
      ensures DashboardNamesKey !in entries || entries[DashboardNamesKey] == "" ==> names == []
      ensures DashboardNamesKey in entries ==> names == NamesFromSetting(Some(entries[DashboardNamesKey]))
    {
      NamesFromSetting(Get(DashboardNamesKey))
    }

    /**
     * `saveDashboards`: writes the serialised list under its key and nothing
     * else; the list is read back unchanged. The commit to the host that
     * follows (`saveAsync`) is outside the model; its outcome is an input of
     * the configuration dialog.
     */
    method SaveDashboards(names: seq<string>)
      modifies this
      ensures entries == old(entries)[DashboardNamesKey := Json.Encode(names)]
      ensures SavedDashboards() == names
    {
      Set(DashboardNamesKey, Json.Encode(names));
      LoadAfterSave(names);
    }
  }
}
