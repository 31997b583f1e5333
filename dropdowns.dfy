/**
 * The open/closed state of the page's dropdowns, keyed by element id: the
 * `show` class of each `.dropdown` element.
 */
module Dropdowns {

  /** `closeAllDropdowns` as a value: the same dropdowns, none shown. */
  function AllClosed(shown: map<string, bool>): (r: map<string, bool>)
    ensures r.Keys == shown.Keys
    ensures forall k :: k in r ==> !r[k]
  {
    map k | k in shown :: false
  }

  /**
   * `toggleDropdown(id)` as a value. An unknown id changes nothing;
   * otherwise every dropdown is closed and the target is shown exactly when
   * it was hidden before.
   */
  function Toggled(shown: map<string, bool>, id: string): (r: map<string, bool>)
    ensures r.Keys == shown.Keys
    ensures id !in shown ==> r == shown
    ensures id in shown ==> r[id] == !shown[id]
    ensures id in shown ==> forall k :: k in r && k != id ==> !r[k]
  {
    if id !in shown then shown else AllClosed(shown)[id := !shown[id]]
  }

  predicate AtMostOneOpen(shown: map<string, bool>) {
    forall a, b :: a in shown && b in shown && shown[a] && shown[b] ==> a == b
  }

  /** After a toggle at most one dropdown is shown, whatever was shown before. */
  lemma ToggleLeavesAtMostOne(shown: map<string, bool>, id: string)
    requires id in shown
    ensures AtMostOneOpen(Toggled(shown, id))
  {
  }

  /** The page never has two dropdowns shown once it has at most one. */
  lemma ToggleKeepsAtMostOne(shown: map<string, bool>, id: string)
    requires AtMostOneOpen(shown)
    ensures AtMostOneOpen(Toggled(shown, id))
  {
  }

  /** Clicking the same button twice puts its dropdown back as it was and leaves every other one closed. */
  lemma ToggleTwice(shown: map<string, bool>, id: string)
    requires id in shown
    ensures Toggled(Toggled(shown, id), id) == AllClosed(shown)[id := shown[id]]
  {
    var once := Toggled(shown, id);
    var twice := Toggled(once, id);
    assert forall k :: k in twice ==> twice[k] == AllClosed(shown)[id := shown[id]][k];
  }

  /** Opening one dropdown closes the one that was open. */
  lemma ToggleSwitches(shown: map<string, bool>, from: string, to: string)
    requires AtMostOneOpen(shown)
    requires from in shown && to in shown && from != to && shown[from]
    ensures Toggled(shown, to)[to] && !Toggled(shown, to)[from]
  {
  }

  /** The dropdown elements of the page. */
  class DropdownFlags {
    var shown: map<string, bool>

    constructor (ids: set<string>)
      ensures shown == map k | k in ids :: false
    {
      shown := map k | k in ids :: false;
    }

    /** `closeAllDropdowns`: removes `show` from every dropdown, one at a time. */
    method CloseAll()
      modifies this
      ensures shown == AllClosed(old(shown))
    {
      var pending := shown.Keys;
      while pending != {}
        invariant shown.Keys == old(shown).Keys
        invariant pending <= shown.Keys
        invariant forall k :: k in shown && k !in pending ==> !shown[k]
        decreases pending
      {
        var k :| k in pending;
        shown := shown[k := false];
        pending := pending - {k};
      }
      assert forall k :: k in shown ==> shown[k] == AllClosed(old(shown))[k];
    }

    /** `toggleDropdown(id)`. */
    method Toggle(id: string)
      modifies this
      ensures shown == Toggled(old(shown), id)
    {
      if id !in shown {
        return;
      }
      var isOpen := shown[id];
      CloseAll();
      if !isOpen {
        shown := shown[id := true];
      }
      assert forall k :: k in shown ==> shown[k] == Toggled(old(shown), id)[k];
    }
  }
}
