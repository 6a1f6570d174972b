/** Tabs (components/Tabs.tsx): which tab is active at first, the click that
    changes it, and the content shown for the active id. The content of a
    tab is opaque here, so the module is generic in its type. */
module Tabs {
  import opened Options

  datatype Tab<C> = Tab(id: string, caption: string, content: C)

  /** `defaultTab || tabs[0]?.id || ''`. */
  function InitialTab<C>(tabs: seq<Tab<C>>, defaultTab: Option<string>): (r: string)
    ensures defaultTab.Some? && defaultTab.value != "" ==> r == defaultTab.value
    ensures (defaultTab.None? || defaultTab.value == "") && |tabs| > 0 ==> r == tabs[0].id
    ensures (defaultTab.None? || defaultTab.value == "") && |tabs| == 0 ==> r == ""
  {
    if defaultTab.Some? && defaultTab.value != "" then defaultTab.value
    else if |tabs| > 0 then tabs[0].id
    else ""
  }

  /** `tabs.find(tab => tab.id === activeTab)?.content`. */
  function ActiveContent<C>(tabs: seq<Tab<C>>, active: string): (r: Option<C>)
    ensures r.None? <==> forall i :: 0 <= i < |tabs| ==> tabs[i].id != active
  {
    if |tabs| == 0 then None
    else if tabs[0].id == active then Some(tabs[0].content)
    else
      var rest := ActiveContent(tabs[1..], active);
      assert forall i :: 1 <= i < |tabs| ==> tabs[i] == tabs[1..][i - 1];
      rest
  }

  /** The content shown is that of the first tab with the active id. */
  lemma {:induction false} ActiveContentFirst<C>(tabs: seq<Tab<C>>, i: nat)
    requires i < |tabs|
    requires forall j :: 0 <= j < i ==> tabs[j].id != tabs[i].id
    ensures ActiveContent(tabs, tabs[i].id) == Some(tabs[i].content)
  {
    if i > 0 {
      assert tabs[1..][i - 1] == tabs[i];
      forall j | 0 <= j < i - 1
        ensures tabs[1..][j].id != tabs[1..][i - 1].id
      {
        assert tabs[1..][j] == tabs[j + 1];
      }
      ActiveContentFirst(tabs[1..], i - 1);
    }
  }

  /** The tab bar's state: the tabs it was given and the active id. */
  class TabBar<C> {
    const tabs: seq<Tab<C>>
    var active: string

    constructor (tabs: seq<Tab<C>>, defaultTab: Option<string>)
      ensures this.tabs == tabs && active == InitialTab(tabs, defaultTab)
    {
      this.tabs := tabs;
      active := InitialTab(tabs, defaultTab);
    }

    /** The content rendered below the tab bar (none when no id matches). */
    function Shown(): Option<C>
      reads this
    {
      ActiveContent(tabs, active)
    }

    /** A click on a tab makes it active, so its content is shown unless an
        earlier tab has the same id. */
    method Click(i: nat)
      requires i < |tabs|
      modifies this
      ensures active == tabs[i].id
      ensures (forall j :: 0 <= j < i ==> tabs[j].id != tabs[i].id) ==> Shown() == Some(tabs[i].content)
    {
      active := tabs[i].id;
      if forall j :: 0 <= j < i ==> tabs[j].id != tabs[i].id {
        ActiveContentFirst(tabs, i);
      }
    }
  }
}
