/**
 * Yield-based instrument selection, as a function of what the trading page
 * shows. An observation that is None stands for an element the page could
 * not provide (the source's lookups raise and the check answers False).
 */
module YieldSelection {
  import opened Wrappers

  /** The payout the bot insists on. */
  const TargetPayout: string := "+92%"

  /**
   * One row of the instrument catalog: its name and payout (None when the
   * element could not be read, so the row is skipped) and whether clicking
   * it and closing the catalog succeeded. The click and the close are one
   * flag: a row whose click succeeds but whose close fails is a failed row
   * here, so the instrument the page switched to in that case is not
   * recorded as a selection (the state fields are the same either way).
   */
  datatype CatalogItem = CatalogItem(name: Option<string>, payout: Option<string>, selectOk: bool)

  /** What the page shows when the yield is checked. `catalog` is None when
   *  the catalog could not be opened or listed. */
  datatype UiView = UiView(payout: Option<string>, displayed: Option<string>, catalog: Option<seq<CatalogItem>>)

  /** The outcome of a catalog scan: the active instrument code afterwards
   *  and the name of the row that was selected, if any. */
  datatype ScanResult = ScanResult(active: Option<string>, selected: Option<string>)

  /** What one yield check decides: whether trading may go on, whether the
   *  trade state was reset, the new active code, whether a switch started
   *  (its time is recorded) and the catalog row that was selected. */
  datatype YieldResult = YieldResult(ok: bool, reset: bool, active: Option<string>, switched: bool, selected: Option<string>)

  /** A row pays the target payout and its name names a known instrument. */
  predicate Qualifies(item: CatalogItem, currencies: map<string, string>)
  {
    item.name.Some? && item.payout == Some(TargetPayout) && item.name.value in currencies
  }

  /**
   * The catalog scan. A qualifying row makes its code active before it is
   * clicked; if the click fails the scan goes on with that code still
   * active; the first row whose click succeeds ends the scan.
   */
  function Scan(items: seq<CatalogItem>, currencies: map<string, string>, active: Option<string>): (r: ScanResult)
    ensures r.selected.Some? ==> r.selected.value in currencies && r.active == Some(currencies[r.selected.value])
    ensures r.selected.Some? ==>
              exists i :: 0 <= i < |items| && items[i].name == r.selected && Qualifies(items[i], currencies) && items[i].selectOk
    decreases |items|
  {
    if items == [] then ScanResult(active, None)
    else
      var item := items[0];
      if Qualifies(item, currencies) then
        var code := currencies[item.name.value];
        if item.selectOk then ScanResult(Some(code), Some(item.name.value))
        else Scan(items[1..], currencies, Some(code))
      else Scan(items[1..], currencies, active)
  }

  /** Row j is the first qualifying row whose selection succeeds. */
  predicate IsFirstSelectable(items: seq<CatalogItem>, currencies: map<string, string>, j: int)
  {
    0 <= j < |items| && Qualifies(items[j], currencies) && items[j].selectOk &&
    forall k :: 0 <= k < j ==> !(Qualifies(items[k], currencies) && items[k].selectOk)
  }

  /** The iteration over the catalog rows, with its early exit. */
  method FindBestCurrency(items: seq<CatalogItem>, currencies: map<string, string>, active: Option<string>)
    returns (newActive: Option<string>, selected: Option<string>)
    ensures ScanResult(newActive, selected) == Scan(items, currencies, active)
  {
    newActive, selected := active, None;
    var i := 0;
    while i < |items|
      invariant 0 <= i <= |items|
      invariant Scan(items[i..], currencies, newActive) == Scan(items, currencies, active)
      invariant selected == None
    {
      var item := items[i];
      assert items[i..][1..] == items[i + 1..];
      if item.name.Some? && item.payout.Some? {
        if item.payout.value == TargetPayout {
          var name := item.name.value;
          if name in currencies {
            newActive := Some(currencies[name]);
            if item.selectOk {
              selected := Some(name);
              break;
            }
          }
        }
      }
      i := i + 1;
    }
  }

  /** The scan selects the first qualifying row whose click succeeds and
   *  makes its code active. */
  lemma {:induction false} ScanSelectsFirst(items: seq<CatalogItem>, currencies: map<string, string>,
                                            active: Option<string>, j: int)
    requires IsFirstSelectable(items, currencies, j)
    ensures Scan(items, currencies, active) ==
            ScanResult(Some(currencies[items[j].name.value]), Some(items[j].name.value))
    decreases j
  {
    if j > 0 {
      assert !(Qualifies(items[0], currencies) && items[0].selectOk);
      var next := if Qualifies(items[0], currencies) then Some(currencies[items[0].name.value]) else active;
      assert IsFirstSelectable(items[1..], currencies, j - 1) by {
        forall k | 0 <= k < j - 1 ensures !(Qualifies(items[1..][k], currencies) && items[1..][k].selectOk) {
          assert items[1..][k] == items[k + 1];
        }
      }
      ScanSelectsFirst(items[1..], currencies, next, j - 1);
    }
  }

  /** Without a qualifying row whose click succeeds nothing is selected; the
   *  active code then changes only to the code of a qualifying row. */
  lemma {:induction false} ScanWithoutSelectable(items: seq<CatalogItem>, currencies: map<string, string>,
                                                 active: Option<string>)
    requires forall k :: 0 <= k < |items| ==> !(Qualifies(items[k], currencies) && items[k].selectOk)
    ensures Scan(items, currencies, active).selected == None
    ensures Scan(items, currencies, active).active == active ||
            exists k :: 0 <= k < |items| && Qualifies(items[k], currencies) &&
                        Scan(items, currencies, active).active == Some(currencies[items[k].name.value])
    ensures (forall k :: 0 <= k < |items| ==> !Qualifies(items[k], currencies)) ==>
            Scan(items, currencies, active).active == active
    decreases |items|
  {
    if items != [] {
      var next := if Qualifies(items[0], currencies) then Some(currencies[items[0].name.value]) else active;
      forall k | 0 <= k < |items[1..]| ensures !(Qualifies(items[1..][k], currencies) && items[1..][k].selectOk) {
        assert items[1..][k] == items[k + 1];
      }
      ScanWithoutSelectable(items[1..], currencies, next);
      var r := Scan(items, currencies, active);
      if r.active != next {
        var k :| 0 <= k < |items[1..]| && Qualifies(items[1..][k], currencies) &&
                 r.active == Some(currencies[items[1..][k].name.value]);
        assert items[1..][k] == items[k + 1];
      }
      if forall k :: 0 <= k < |items| ==> !Qualifies(items[k], currencies) {
        forall k | 0 <= k < |items[1..]| ensures !Qualifies(items[1..][k], currencies) {
          assert items[1..][k] == items[k + 1];
        }
      }
    }
  }

  /** Every code the scan leaves active, other than the one it started
   *  with, is a value of the currency map. */
  lemma {:induction false} ScanActiveIsKnown(items: seq<CatalogItem>, currencies: map<string, string>,
                                             active: Option<string>)
    ensures var r := Scan(items, currencies, active);
            r.active == active || (r.active.Some? && r.active.value in currencies.Values)
    ensures var r := Scan(items, currencies, active);
            r.selected.Some? ==> r.selected.value in currencies && r.active == Some(currencies[r.selected.value])
    decreases |items|
  {
    if items != [] {
      if Qualifies(items[0], currencies) {
        var code := currencies[items[0].name.value];
        assert code in currencies.Values;
        ScanActiveIsKnown(items[1..], currencies, Some(code));
      } else {
        ScanActiveIsKnown(items[1..], currencies, active);
      }
    }
  }

  /**
   * The yield check. When the displayed payout is not the target the trade
   * state is reset and the catalog is scanned; when it is the target, the
   * displayed instrument is adopted if it differs from the active one (a
   * switch made outside the bot), and an unknown instrument clears the
   * active code.
   */
  function EnsureTargetYield(ui: UiView, currencies: map<string, string>, active: Option<string>): (r: YieldResult)
    ensures r.ok ==> r.active.Some? && r.active.value in currencies.Values
    ensures r.switched ==> r.ok && r.reset
    ensures r.selected.Some? <==> r.ok && ui.payout != Some(TargetPayout)
    ensures ui.payout.None? ==> r == YieldResult(false, false, active, false, None)
    ensures r.reset <==> (ui.payout.Some? && ui.payout != Some(TargetPayout)) || (r.switched && ui.payout == Some(TargetPayout))
  {
    match ui.payout
    case None => YieldResult(false, false, active, false, None)
    case Some(payout) =>
      if payout != TargetPayout then
        match ui.catalog
        case None => YieldResult(false, true, active, false, None)
        case Some(items) =>
          var s := Scan(items, currencies, active);
          ScanActiveIsKnown(items, currencies, active);
          YieldResult(s.selected.Some?, true, s.active, s.selected.Some?, s.selected)
      else
        match ui.displayed
        case None => YieldResult(false, false, active, false, None)
        case Some(name) =>
          if name in currencies then
            var code := currencies[name];
            assert code in currencies.Values;
            if active != Some(code) then YieldResult(true, true, Some(code), true, None)
            else YieldResult(true, false, active, false, None)
          else YieldResult(false, false, None, false, None)
  }

  /** Below-target payout: the first qualifying row whose click succeeds is
   *  adopted and starts a switch. */
  lemma BelowTargetSelectsFirstQualifying(ui: UiView, currencies: map<string, string>, active: Option<string>, j: int)
    requires ui.payout.Some? && ui.payout != Some(TargetPayout) && ui.catalog.Some?
    requires IsFirstSelectable(ui.catalog.value, currencies, j)
    ensures var name := ui.catalog.value[j].name.value;
            EnsureTargetYield(ui, currencies, active) ==
            YieldResult(true, true, Some(currencies[name]), true, Some(name))
  {
    ScanSelectsFirst(ui.catalog.value, currencies, active, j);
  }

  /** Below-target payout with no row that qualifies and can be selected:
   *  the check fails after resetting the trade state, and when no row
   *  qualifies at all the active code is untouched. */
  lemma BelowTargetWithoutMatchFails(ui: UiView, currencies: map<string, string>, active: Option<string>)
    requires ui.payout.Some? && ui.payout != Some(TargetPayout) && ui.catalog.Some?
    requires forall k :: 0 <= k < |ui.catalog.value| ==>
               !(Qualifies(ui.catalog.value[k], currencies) && ui.catalog.value[k].selectOk)
    ensures var r := EnsureTargetYield(ui, currencies, active);
            !r.ok && r.reset && !r.switched && r.selected == None
    ensures (forall k :: 0 <= k < |ui.catalog.value| ==> !Qualifies(ui.catalog.value[k], currencies)) ==>
            EnsureTargetYield(ui, currencies, active).active == active
  {
    ScanWithoutSelectable(ui.catalog.value, currencies, active);
  }

  /** Target payout: the displayed instrument decides. An instrument other
   *  than the active one is adopted with a reset and a switch; the active
   *  one changes nothing; an unknown name clears the active code and fails. */
  lemma AtTargetFollowsDisplayed(ui: UiView, currencies: map<string, string>, active: Option<string>)
    requires ui.payout == Some(TargetPayout) && ui.displayed.Some?
    ensures var name := ui.displayed.value;
            var r := EnsureTargetYield(ui, currencies, active);
            (name in currencies && active != Some(currencies[name]) ==>
               r == YieldResult(true, true, Some(currencies[name]), true, None)) &&
            (name in currencies && active == Some(currencies[name]) ==>
               r == YieldResult(true, false, active, false, None)) &&
            (name !in currencies ==> r == YieldResult(false, false, None, false, None))
  {
  }
}
