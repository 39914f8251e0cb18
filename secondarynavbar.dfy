/** The secondary navigation bar: the route's path prefix picks one of four
    fixed tab lists, a missing active tab defaults to the first one, and
    the button of the active tab is highlighted. */
module SecondaryNavbar {
  import opened Wrappers
  import opened Text

  datatype NavItem = NavItem(id: string, labelText: string)

  const KpiNavItems: seq<NavItem> := [
    NavItem("goodProduction", "Good production rate"),
    NavItem("productionRate", "Production Rate"),
    NavItem("failureFrequency", "failure frequency")
  ]

  const ErrorsNavItems: seq<NavItem> := [
    NavItem("suggestedActions", "Suggested actions list"),
    NavItem("deviceErrors", "device errors list")
  ]

  const ConfigNavItems: seq<NavItem> := [
    NavItem("deviceList", "Device List"),
    NavItem("twinSettings", "Twin Settings"),
    NavItem("connections", "Connections"),
    NavItem("userAccess", "User access policies")
  ]

  const DeviceDetailNavItems: seq<NavItem> := [
    NavItem("temperature", "temperature"),
    NavItem("productionRate", "production rate"),
    NavItem("status", "Status")
  ]

  predicate HasNavBar(path: string) {
    StartsWith(path, "/kpi") || StartsWith(path, "/errors")
    || StartsWith(path, "/configuration") || StartsWith(path, "/device/")
  }

  /** The if/else chain: the first matching prefix picks the list; any
      other path shows no bar. */
  function SelectNavItems(path: string): (items: Option<seq<NavItem>>)
    ensures items.Some? <==> HasNavBar(path)
    ensures StartsWith(path, "/kpi") ==> items == Some(KpiNavItems)
    ensures StartsWith(path, "/errors") ==> items == Some(ErrorsNavItems)
    ensures StartsWith(path, "/configuration") ==> items == Some(ConfigNavItems)
    ensures StartsWith(path, "/device/") ==> items == Some(DeviceDetailNavItems)
    ensures items.Some? ==> |items.value| > 0
  {
    PrefixesExclusive(path);
    if StartsWith(path, "/kpi") then Some(KpiNavItems)
    else if StartsWith(path, "/errors") then Some(ErrorsNavItems)
    else if StartsWith(path, "/configuration") then Some(ConfigNavItems)
    else if StartsWith(path, "/device/") then Some(DeviceDetailNavItems)
    else None
  }

  /** No path starts with two of the four prefixes, so the order of the
      tests never decides which list is shown. */
  lemma PrefixesExclusive(path: string)
    ensures !(StartsWith(path, "/kpi") && StartsWith(path, "/errors"))
    ensures !(StartsWith(path, "/kpi") && StartsWith(path, "/configuration"))
    ensures !(StartsWith(path, "/kpi") && StartsWith(path, "/device/"))
    ensures !(StartsWith(path, "/errors") && StartsWith(path, "/configuration"))
    ensures !(StartsWith(path, "/errors") && StartsWith(path, "/device/"))
    ensures !(StartsWith(path, "/configuration") && StartsWith(path, "/device/"))
  {
    if |path| >= 2 {
      assert StartsWith(path, "/kpi") ==> path[1] == 'k';
      assert StartsWith(path, "/errors") ==> path[1] == 'e';
      assert StartsWith(path, "/configuration") ==> path[1] == 'c';
      assert StartsWith(path, "/device/") ==> path[1] == 'd';
    }
  }

  predicate DistinctIds(items: seq<NavItem>) {
    forall i, j :: 0 <= i < j < |items| ==> items[i].id != items[j].id
  }

  datatype Button = Button(id: string, labelText: string, highlighted: bool)

  /** The buttons, one per item, highlighted when the item is the active tab. */
  function Buttons(items: seq<NavItem>, activeTab: Option<string>): (buttons: seq<Button>)
    ensures |buttons| == |items|
    ensures forall k :: 0 <= k < |buttons| ==>
              && buttons[k].id == items[k].id && buttons[k].labelText == items[k].labelText
              && (buttons[k].highlighted <==> activeTab == Some(items[k].id))
  {
    seq(|items|, k requires 0 <= k < |items| => Button(items[k].id, items[k].labelText, activeTab == Some(items[k].id)))
  }

  /** With distinct ids, at most one button is highlighted, and one is
      exactly when the active tab names an item. */
  lemma AtMostOneHighlighted(items: seq<NavItem>, activeTab: Option<string>)
    requires DistinctIds(items)
    ensures var buttons := Buttons(items, activeTab);
            forall i, j :: 0 <= i < j < |buttons| ==> !(buttons[i].highlighted && buttons[j].highlighted)
    ensures (exists k :: 0 <= k < |items| && Buttons(items, activeTab)[k].highlighted)
            <==> activeTab.Some? && exists k :: 0 <= k < |items| && items[k].id == activeTab.value
  {
  }

  /** Every list the bar can show has distinct ids. */
  lemma NavListsDistinct(path: string)
    requires HasNavBar(path)
    ensures DistinctIds(SelectNavItems(path).value)
  {
  }

  /** `navItems.length === 0 ? null : <bar>`. */
  function NavBar(items: seq<NavItem>, activeTab: Option<string>): (view: Option<seq<Button>>)
    ensures view.None? <==> items == []
    ensures view.Some? ==> view.value == Buttons(items, activeTab)
  {
    if |items| == 0 then None else Some(Buttons(items, activeTab))
  }

  /** The parent page's `activeTab` state, which the bar reads and sets. */
  class TabHost {
    var activeTab: Option<string>

    constructor (initial: Option<string>)
      ensures activeTab == initial
    {
      activeTab := initial;
    }

    /** One render of the bar at `path`. The buttons are highlighted
        against the tab as it was; the default tab set here shows from the
        next render on. A path without a bar changes nothing. */
    method Render(path: string) returns (view: Option<seq<Button>>)
      modifies this
      ensures SelectNavItems(path).None? ==> view.None? && activeTab == old(activeTab)
      ensures SelectNavItems(path).Some? ==>
                var items := SelectNavItems(path).value;
                && view == NavBar(items, old(activeTab))
                && activeTab == (if old(activeTab).None? then Some(items[0].id) else old(activeTab))
    {
      var navItems := SelectNavItems(path);
      if navItems.None? {
        return None;
      }
      var items := navItems.value;
      var shown := activeTab;
      if activeTab.None? && |items| > 0 {
        activeTab := Some(items[0].id);
      }
      view := NavBar(items, shown);
    }

    /** A click on a button makes its item the active tab. */
    method Click(id: string)
      modifies this
      ensures activeTab == Some(id)
    {
      activeTab := Some(id);
    }
  }

  /** Rendering twice at a bar path: the second render highlights the
      first item when no tab was set. */
  method RenderTwice(path: string) returns (second: Option<seq<Button>>)
    requires HasNavBar(path)
    ensures second.Some? && |second.value| > 0 && second.value[0].highlighted
  {
    var host := new TabHost(None);
    var first := host.Render(path);
    second := host.Render(path);
  }
}
