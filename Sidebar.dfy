/** The sidebar's tab list: the tab record shared by the whole shell, the
    split of the tabs into a pinned group shown first and an unpinned group
    shown after it, the close affordance, and the pinned flag the tab context
    menu is opened with. */
module Sidebar {
  import opened Common

  /** A tab record. The source's `pinned` is optional; an absent flag reads as
      false everywhere (filters, `!t.pinned`, `?.pinned || false`), so it is a
      plain bool here with false for "absent". The icon is presentation only. */
  datatype Tab = Tab(id: int, title: string, url: string, pinned: bool)

  function IsPinned(t: Tab): bool { t.pinned }

  function IsUnpinned(t: Tab): bool { !t.pinned }

  /** Array.prototype.findIndex by id: the first tab carrying `id`. */
  function FindIndex(tabs: seq<Tab>, id: int): (r: Option<nat>)
    ensures r.Some? ==> r.value < |tabs| && tabs[r.value].id == id
    ensures r.Some? ==> forall j :: 0 <= j < r.value ==> tabs[j].id != id
    ensures r.None? ==> forall j :: 0 <= j < |tabs| ==> tabs[j].id != id
  {
    if tabs == [] then None
    else if tabs[0].id == id then Some(0)
    else
      match FindIndex(tabs[1..], id)
      case None => None
      case Some(k) => Some(k + 1)
  }

  /** Array.prototype.find by id: the first tab carrying the id. */
  function FindTab(tabs: seq<Tab>, id: int): (r: Option<Tab>)
    ensures r.Some? ==> r.value in tabs && r.value.id == id
    ensures r.None? <==> forall j :: 0 <= j < |tabs| ==> tabs[j].id != id
    ensures forall j :: 0 <= j < |tabs| && tabs[j].id == id && (forall k :: 0 <= k < j ==> tabs[k].id != id) ==>
      r == Some(tabs[j])
    ensures r.Some? ==> FindIndex(tabs, id).Some? && r.value == tabs[FindIndex(tabs, id).value]
  {
    match FindIndex(tabs, id)
    case None => None
    case Some(k) => Some(tabs[k])
  }

  /** The pinned group: every pinned tab and nothing else. */
  function PinnedTabs(tabs: seq<Tab>): (r: seq<Tab>)
    ensures forall i :: 0 <= i < |r| ==> r[i] in tabs && r[i].pinned
    ensures forall i :: 0 <= i < |tabs| && tabs[i].pinned ==> tabs[i] in r
  {
    Filter(tabs, IsPinned)
  }

  /** The unpinned group: every unpinned tab and nothing else. */
  function UnpinnedTabs(tabs: seq<Tab>): (r: seq<Tab>)
    ensures forall i :: 0 <= i < |r| ==> r[i] in tabs && !r[i].pinned
    ensures forall i :: 0 <= i < |tabs| && !tabs[i].pinned ==> tabs[i] in r
  {
    Filter(tabs, IsUnpinned)
  }

  /** Both groups keep the tab list's order: grouping a concatenation is
      concatenating the groups. */
  lemma GroupsKeepOrder(a: seq<Tab>, b: seq<Tab>)
    ensures PinnedTabs(a + b) == PinnedTabs(a) + PinnedTabs(b)
    ensures UnpinnedTabs(a + b) == UnpinnedTabs(a) + UnpinnedTabs(b)
  {
    FilterConcat(a, b, IsPinned);
    FilterConcat(a, b, IsUnpinned);
  }

  /** The order in which the sidebar lists the tabs: the pinned group, then
      the unpinned group. It shows every tab exactly once, and no pinned tab
      comes after an unpinned one. */
  function DisplayOrder(tabs: seq<Tab>): (r: seq<Tab>)
    ensures |r| == |tabs|
    ensures multiset(r) == multiset(tabs)
    ensures forall i, j :: 0 <= i < j < |r| && r[j].pinned ==> r[i].pinned
    ensures r == PinnedTabs(tabs) + UnpinnedTabs(tabs)
  {
    FilterPartition(tabs, IsPinned, IsUnpinned);
    PinnedTabs(tabs) + UnpinnedTabs(tabs)
  }

  /** Every tab is listed in exactly one group: as many times in the display
      as it occurs in the tab list, and in the group its flag names. */
  lemma EachTabInOneGroup(tabs: seq<Tab>, t: Tab)
    requires t in tabs
    ensures multiset(DisplayOrder(tabs))[t] == multiset(tabs)[t]
    ensures t in PinnedTabs(tabs) <==> t.pinned
    ensures t in UnpinnedTabs(tabs) <==> !t.pinned
  {
  }

  /** The close button of a tab item is rendered only for unpinned tabs. */
  predicate HasCloseButton(t: Tab) {
    !t.pinned
  }

  /** Close buttons appear exactly on the tabs of the unpinned group. */
  lemma CloseButtonsOnUnpinnedGroup(tabs: seq<Tab>, t: Tab)
    requires t in tabs
    ensures HasCloseButton(t) <==> t in UnpinnedTabs(tabs)
    ensures t in PinnedTabs(tabs) ==> !HasCloseButton(t)
  {
  }

  /** The pinned flag the tab context menu is opened with: that of the first
      tab carrying the id, and false when there is none. */
  function ContextMenuIsPinned(tabs: seq<Tab>, id: int): (b: bool)
    ensures (forall j :: 0 <= j < |tabs| ==> tabs[j].id != id) ==> !b
    ensures b ==> exists j :: 0 <= j < |tabs| && tabs[j].id == id && tabs[j].pinned
    ensures forall j :: 0 <= j < |tabs| && tabs[j].id == id && (forall k :: 0 <= k < j ==> tabs[k].id != id) ==>
      (b <==> tabs[j].pinned)
  {
    match FindTab(tabs, id)
    case None => false
    case Some(t) => t.pinned
  }
}
