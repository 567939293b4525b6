/** The top-level component's tab registry: an ordered list of tabs and the
    id of the active one, the operations the sidebar, the address bar and the
    keyboard handler invoke on them, the one-shot navigation command addressed
    to the active tab, and the navigation state shown by the top bar.

    Each operation is a pure updater over the registry value (what the source
    passes to its state setters) and a method of `AppState` that applies it.
    Fresh tab ids (the source's `Date.now()`) are parameters. */
module App {
  import opened Common
  import opened Sidebar
  import Shortcuts
  import SettingsModal

  /** The internal address of the home surface. */
  const HomeUrl: string := "mix://home"

  datatype NavKind = Back | Forward | Reload | Stop | DevTools

  /** A navigation command addressed to one tab. The source tells a new
      command from an old one by object identity; `serial` plays that part. */
  datatype NavAction = NavAction(kind: NavKind, tabId: int, serial: nat)

  /** What the top bar shows of the active tab's view. */
  datatype NavState = NavState(canGoBack: bool, canGoForward: bool, isLoading: bool)

  /** The registry value: tabs in order and the active tab's id. */
  datatype Registry = Registry(tabs: seq<Tab>, activeTabId: int)

  function Ids(tabs: seq<Tab>): set<int> {
    set t | t in tabs :: t.id
  }

  predicate UniqueIds(tabs: seq<Tab>) {
    forall i, j :: 0 <= i < j < |tabs| ==> tabs[i].id != tabs[j].id
  }

  /** The registry is never empty and ids identify tabs. */
  predicate ValidRegistry(r: Registry) {
    |r.tabs| > 0 && UniqueIds(r.tabs)
  }

  function OtherId(id: int): Tab -> bool {
    (t: Tab) => t.id != id
  }

  function KeptByCloseOthers(id: int): Tab -> bool {
    (t: Tab) => t.id == id || t.pinned
  }

  /** Two tab lists that agree on ids position by position agree on
      uniqueness. */
  lemma SameIdsKeepUnique(a: seq<Tab>, b: seq<Tab>)
    requires |a| == |b| && forall i :: 0 <= i < |a| ==> a[i].id == b[i].id
    requires UniqueIds(a)
    ensures UniqueIds(b) && Ids(b) == Ids(a)
  {
    forall x | x in Ids(b) ensures x in Ids(a) {
      var t :| t in b && t.id == x;
      var i :| 0 <= i < |b| && b[i] == t;
      assert a[i] in a;
    }
    forall x | x in Ids(a) ensures x in Ids(b) {
      var t :| t in a && t.id == x;
      var i :| 0 <= i < |a| && a[i] == t;
      assert b[i] in b;
    }
  }

  /** Any part of a list with unique ids has unique ids. */
  lemma {:induction false} FilterKeepsUnique(tabs: seq<Tab>, p: Tab -> bool)
    ensures UniqueIds(tabs) ==> UniqueIds(Filter(tabs, p))
    decreases |tabs|
  {
    if tabs != [] && UniqueIds(tabs) {
      assert UniqueIds(tabs[1..]) by {
        forall i, j | 0 <= i < j < |tabs[1..]| ensures tabs[1..][i].id != tabs[1..][j].id {
          assert tabs[1..][i] == tabs[i + 1] && tabs[1..][j] == tabs[j + 1];
        }
      }
      FilterKeepsUnique(tabs[1..], p);
      var rest := Filter(tabs[1..], p);
      forall j | 0 <= j < |rest| ensures rest[j].id != tabs[0].id {
        var k :| 0 <= k < |tabs[1..]| && tabs[1..][k] == rest[j];
        assert tabs[k + 1] == rest[j];
      }
      if p(tabs[0]) {
        assert Filter(tabs, p) == [tabs[0]] + rest;
        ConsUnique(tabs[0], rest);
      } else {
        assert Filter(tabs, p) == rest;
      }
    }
  }

  /** A tab whose id the unique-id list does not carry can go in front. */
  lemma ConsUnique(t: Tab, rest: seq<Tab>)
    requires UniqueIds(rest)
    requires forall j :: 0 <= j < |rest| ==> rest[j].id != t.id
    ensures UniqueIds([t] + rest)
  {
    var r := [t] + rest;
    forall i, j | 0 <= i < j < |r| ensures r[i].id != r[j].id {
      assert r[j] == rest[j - 1];
      if i > 0 {
        assert r[i] == rest[i - 1];
      }
    }
  }

  // ---------------------------------------------------------------------
  // Updaters
  // ---------------------------------------------------------------------

  /** handleAddTab: one home tab titled "New Tab" is appended, after all the
      existing tabs, and becomes active. */
  function AddedTab(r: Registry, freshId: int): (r': Registry)
    ensures |r'.tabs| == |r.tabs| + 1 && r'.tabs[..|r.tabs|] == r.tabs
    ensures r'.tabs[|r.tabs|] == Tab(freshId, "New Tab", HomeUrl, false)
    ensures r'.activeTabId == freshId
    ensures ValidRegistry(r) && freshId !in Ids(r.tabs) ==> ValidRegistry(r')
  {
    var t := Tab(freshId, "New Tab", HomeUrl, false);
    assert forall i :: 0 <= i < |r.tabs| ==> r.tabs[i] in r.tabs;
    Registry(r.tabs + [t], freshId)
  }

  /** handleRemoveTab: the tabs carrying the id are filtered out. If nothing
      remains, a single fresh "Home" tab is created and made active; else, if
      the removed tab was the active one, the last remaining tab becomes
      active, and otherwise the active id is kept. */
  function RemovedTab(r: Registry, id: int, freshId: int): (r': Registry)
    ensures |r'.tabs| >= 1
    ensures Filter(r.tabs, OtherId(id)) == [] ==>
      r' == Registry([Tab(freshId, "Home", HomeUrl, false)], freshId)
    ensures Filter(r.tabs, OtherId(id)) != [] ==>
      (forall i :: 0 <= i < |r'.tabs| ==> r'.tabs[i] in r.tabs && r'.tabs[i].id != id) &&
      (forall i :: 0 <= i < |r.tabs| && r.tabs[i].id != id ==> r.tabs[i] in r'.tabs)
    ensures Filter(r.tabs, OtherId(id)) != [] ==> r'.tabs == Filter(r.tabs, OtherId(id))
    ensures Filter(r.tabs, OtherId(id)) != [] && r.activeTabId == id ==>
      r'.activeTabId == r'.tabs[|r'.tabs| - 1].id
    ensures Filter(r.tabs, OtherId(id)) != [] && r.activeTabId != id ==>
      r'.activeTabId == r.activeTabId
    ensures r.activeTabId == id ==> r'.activeTabId in Ids(r'.tabs)
    ensures ValidRegistry(r) ==> ValidRegistry(r')
  {
    var kept := Filter(r.tabs, OtherId(id));
    if kept == [] then
      var home := Tab(freshId, "Home", HomeUrl, false);
      assert home in [home];
      Registry([home], freshId)
    else
      FilterKeepsUnique(r.tabs, OtherId(id));
      assert kept[|kept| - 1] in kept;
      Registry(kept, if r.activeTabId == id then kept[|kept| - 1].id else r.activeTabId)
  }

  /** Removing a tab from the middle of a list with unique ids leaves exactly
      the tabs before it followed by the tabs after it. */
  lemma RemoveKeepsOrder(r: Registry, before: seq<Tab>, t: Tab, after: seq<Tab>, freshId: int)
    requires r.tabs == before + [t] + after
    requires UniqueIds(r.tabs)
    requires before + after != []
    ensures RemovedTab(r, t.id, freshId).tabs == before + after
  {
    var p := OtherId(t.id);
    OthersKept(r.tabs, before, t, after);
    var kept := Filter(r.tabs, p);
    assert kept == before + after by {
      FilterKeepsAll(before, p);
      FilterKeepsAll(after, p);
      FilterSingleton(t, p);
      FilterConcat(before, [t], p);
      assert Filter(before + [t], p) == before;
      FilterConcat(before + [t], after, p);
    }
    assert RemovedTab(r, t.id, freshId).tabs == kept;
  }

  /** Removing an id no tab carries keeps the list as it is, in order. This
      happens after "close others" on an unknown id, which still makes that
      id the active one: closing the active tab then removes nothing, and
      activates the last tab. */
  lemma RemoveUnknownKeepsTabs(r: Registry, id: int, freshId: int)
    requires id !in Ids(r.tabs) && r.tabs != []
    ensures RemovedTab(r, id, freshId).tabs == r.tabs
    ensures r.activeTabId == id ==> RemovedTab(r, id, freshId).activeTabId == r.tabs[|r.tabs| - 1].id
    ensures r.activeTabId != id ==> RemovedTab(r, id, freshId).activeTabId == r.activeTabId
  {
    var p := OtherId(id);
    forall i | 0 <= i < |r.tabs|
      ensures p(r.tabs[i])
    {
      assert r.tabs[i] in r.tabs;
    }
    FilterKeepsAll(r.tabs, p);
  }

  lemma OthersKept(tabs: seq<Tab>, before: seq<Tab>, t: Tab, after: seq<Tab>)
    requires tabs == before + [t] + after
    requires UniqueIds(tabs)
    ensures forall i :: 0 <= i < |before| ==> OtherId(t.id)(before[i])
    ensures forall i :: 0 <= i < |after| ==> OtherId(t.id)(after[i])
    ensures !OtherId(t.id)(t)
  {
    assert tabs[|before|] == t;
    forall i | 0 <= i < |before| ensures before[i].id != t.id {
      assert tabs[i] == before[i];
    }
    forall i | 0 <= i < |after| ensures after[i].id != t.id {
      assert tabs[|before| + 1 + i] == after[i];
    }
  }

  /** handleUpdateTabTitle: the tabs carrying the id get the new title;
      nothing else changes. */
  function Retitled(tabs: seq<Tab>, id: int, title: string): (r: seq<Tab>)
    ensures |r| == |tabs|
    ensures forall i :: 0 <= i < |tabs| ==>
      r[i].id == tabs[i].id && r[i].url == tabs[i].url && r[i].pinned == tabs[i].pinned
    ensures forall i :: 0 <= i < |tabs| ==>
      r[i].title == if tabs[i].id == id then title else tabs[i].title
  {
    seq(|tabs|, i requires 0 <= i < |tabs| =>
      if tabs[i].id == id then tabs[i].(title := title) else tabs[i])
  }

  /** handleNavigate: the active tab gets the url and the title "Loading...";
      nothing else changes. */
  function Navigated(tabs: seq<Tab>, activeTabId: int, url: string): (r: seq<Tab>)
    ensures |r| == |tabs|
    ensures forall i :: 0 <= i < |tabs| ==> r[i].id == tabs[i].id && r[i].pinned == tabs[i].pinned
    ensures forall i :: 0 <= i < |tabs| && tabs[i].id != activeTabId ==> r[i] == tabs[i]
    ensures forall i :: 0 <= i < |tabs| && tabs[i].id == activeTabId ==>
      r[i].url == url && r[i].title == "Loading..."
  {
    seq(|tabs|, i requires 0 <= i < |tabs| =>
      if tabs[i].id == activeTabId then tabs[i].(url := url, title := "Loading...") else tabs[i])
  }

  /** handleTogglePin: the tabs carrying the id have their pinned flag
      flipped; nothing else changes. */
  function PinToggled(tabs: seq<Tab>, id: int): (r: seq<Tab>)
    ensures |r| == |tabs|
    ensures forall i :: 0 <= i < |tabs| ==>
      r[i].id == tabs[i].id && r[i].title == tabs[i].title && r[i].url == tabs[i].url
    ensures forall i :: 0 <= i < |tabs| ==>
      r[i].pinned == if tabs[i].id == id then !tabs[i].pinned else tabs[i].pinned
  {
    seq(|tabs|, i requires 0 <= i < |tabs| =>
      if tabs[i].id == id then tabs[i].(pinned := !tabs[i].pinned) else tabs[i])
  }

  /** Toggling the pin of the same tab twice restores every tab. */
  lemma PinToggleTwice(tabs: seq<Tab>, id: int)
    ensures PinToggled(PinToggled(tabs, id), id) == tabs
  {
    var r := PinToggled(PinToggled(tabs, id), id);
    forall i | 0 <= i < |tabs| ensures r[i] == tabs[i] {
    }
  }

  /** handleCloseOthers: with no tab carrying the id the list is kept;
      otherwise exactly the target and the pinned tabs stay, in their order.
      The active id becomes the given id in both cases. */
  function OthersClosed(r: Registry, id: int): (r': Registry)
    ensures r'.activeTabId == id
    ensures FindTab(r.tabs, id).None? ==> r'.tabs == r.tabs
    ensures FindTab(r.tabs, id).Some? ==>
      r'.tabs == Filter(r.tabs, KeptByCloseOthers(id)) &&
      (forall i :: 0 <= i < |r'.tabs| ==> r'.tabs[i] in r.tabs && (r'.tabs[i].id == id || r'.tabs[i].pinned)) &&
      (forall i :: 0 <= i < |r.tabs| && (r.tabs[i].id == id || r.tabs[i].pinned) ==> r.tabs[i] in r'.tabs) &&
      id in Ids(r'.tabs)
    ensures ValidRegistry(r) ==> ValidRegistry(r')
  {
    match FindTab(r.tabs, id)
    case None => Registry(r.tabs, id)
    case Some(keep) =>
      var kept := Filter(r.tabs, KeptByCloseOthers(id));
      var k :| 0 <= k < |r.tabs| && r.tabs[k] == keep;
      assert KeptByCloseOthers(id)(r.tabs[k]);
      FilterKeepsUnique(r.tabs, KeptByCloseOthers(id));
      Registry(kept, id)
  }

  /** handleDuplicate: a copy of the first tab carrying the id, with a fresh
      id and the same title, url and pinned flag, is inserted right after it;
      every other tab stays where it was. Without such a tab nothing changes. */
  function Duplicated(tabs: seq<Tab>, id: int, freshId: int): (r: seq<Tab>)
    ensures FindIndex(tabs, id).None? ==> r == tabs
    ensures FindIndex(tabs, id).Some? ==>
      var k := FindIndex(tabs, id).value;
      |r| == |tabs| + 1 && r[..k + 1] == tabs[..k + 1] && r[k + 2..] == tabs[k + 1..] &&
      r[k + 1] == Tab(freshId, tabs[k].title, tabs[k].url, tabs[k].pinned)
    ensures UniqueIds(tabs) && freshId !in Ids(tabs) ==> UniqueIds(r) && Ids(r) == Ids(tabs) + (if FindIndex(tabs, id).Some? then {freshId} else {})
  {
    match FindIndex(tabs, id)
    case None => tabs
    case Some(k) =>
      var copy := tabs[k].(id := freshId);
      var r := tabs[..k + 1] + [copy] + tabs[k + 1..];
      DuplicateIds(tabs, k, copy);
      r
  }

  lemma DuplicateIds(tabs: seq<Tab>, k: nat, copy: Tab)
    requires k < |tabs|
    ensures var r := tabs[..k + 1] + [copy] + tabs[k + 1..];
      Ids(r) == Ids(tabs) + {copy.id} &&
      (UniqueIds(tabs) && copy.id !in Ids(tabs) ==> UniqueIds(r))
  {
    var r := tabs[..k + 1] + [copy] + tabs[k + 1..];
    assert forall i :: 0 <= i <= k ==> r[i] == tabs[i];
    assert forall i :: k + 1 < i < |r| ==> r[i] == tabs[i - 1];
    assert r[k + 1] == copy;
    forall x | x in Ids(r) ensures x in Ids(tabs) + {copy.id} {
      var t :| t in r && t.id == x;
      var i :| 0 <= i < |r| && r[i] == t;
      if i <= k { assert tabs[i] in tabs; } else if i > k + 1 { assert tabs[i - 1] in tabs; }
    }
    forall x | x in Ids(tabs) + {copy.id} ensures x in Ids(r) {
      if x != copy.id {
        var t :| t in tabs && t.id == x;
        var i :| 0 <= i < |tabs| && tabs[i] == t;
        if i <= k { assert r[i] in r; } else { assert r[i + 1] in r; }
      } else {
        assert r[k + 1] in r;
      }
    }
    if UniqueIds(tabs) && copy.id !in Ids(tabs) {
      assert forall i :: 0 <= i < |tabs| ==> tabs[i].id != copy.id by {
        forall i | 0 <= i < |tabs| ensures tabs[i].id != copy.id { assert tabs[i] in tabs; }
      }
    }
  }

  /** The search overlay's onNavigate: a tab titled "Search" showing the url
      is appended after all the existing tabs and becomes active. */
  function SearchTabAdded(r: Registry, url: string, freshId: int): (r': Registry)
    ensures |r'.tabs| == |r.tabs| + 1 && r'.tabs[..|r.tabs|] == r.tabs
    ensures r'.tabs[|r.tabs|] == Tab(freshId, "Search", url, false)
    ensures r'.activeTabId == freshId
    ensures ValidRegistry(r) && freshId !in Ids(r.tabs) ==> ValidRegistry(r')
  {
    var t := Tab(freshId, "Search", url, false);
    assert forall i :: 0 <= i < |r.tabs| ==> r.tabs[i] in r.tabs;
    Registry(r.tabs + [t], freshId)
  }

  /** The active tab as the top bar sees it: the first tab carrying the active
      id, else the first tab, else none. */
  function ActiveTab(r: Registry): (t: Option<Tab>)
    ensures t.None? <==> r.tabs == []
    ensures t.Some? ==> t.value in r.tabs
    ensures t.Some? && r.activeTabId in Ids(r.tabs) ==> t.value.id == r.activeTabId
    ensures forall j :: (0 <= j < |r.tabs| && r.tabs[j].id == r.activeTabId &&
      (forall k :: 0 <= k < j ==> r.tabs[k].id != r.activeTabId)) ==> t == Some(r.tabs[j])
    ensures r.activeTabId !in Ids(r.tabs) && r.tabs != [] ==> t == Some(r.tabs[0])
  {
    match FindTab(r.tabs, r.activeTabId)
    case Some(t) => Some(t)
    case None => if r.tabs == [] then None else Some(r.tabs[0])
  }

  /** The text the address bar is given: empty for the home surface (and
      when there is no tab), the active tab's url otherwise. */
  function AddressBarUrl(r: Registry): (u: string)
    ensures u != HomeUrl
    ensures ActiveTab(r).None? || ActiveTab(r).value.url == HomeUrl ==> u == ""
    ensures ActiveTab(r).Some? && ActiveTab(r).value.url != HomeUrl ==> u == ActiveTab(r).value.url
  {
    match ActiveTab(r)
    case None => ""
    case Some(t) => if t.url == HomeUrl then "" else t.url
  }

  /** The navigation kinds one key-down triggers, in order: the matched
      shortcut's, then the hard-wired F12's. */
  function TriggeredKinds(k: Shortcuts.KeyResult): (kinds: seq<NavKind>)
    ensures |kinds| <= 2
    ensures k.f12 ==> |kinds| >= 1 && kinds[|kinds| - 1] == DevTools
    ensures Stop !in kinds
    ensures !k.f12 && k.command.None? ==> kinds == []
  {
    CommandKinds(k.command) + (if k.f12 then [DevTools] else [])
  }

  /** The view command a matched shortcut triggers, if any. */
  function CommandKinds(c: Option<Shortcuts.Command>): seq<NavKind> {
    match c
    case Some(ReloadPage) => [Reload]
    case Some(GoBack) => [Back]
    case Some(GoForward) => [Forward]
    case Some(ToggleDevTools) => [DevTools]
    case _ => []
  }

  /** A shortcut list binding "dev-tools" to F12 makes a single F12 press
      trigger the developer tools twice: once as the shortcut's command and
      once in the standalone F12 check. The shipped app cannot reach this:
      the defaults have no "dev-tools" entry, and the settings dialog only
      rewrites the keys of existing ids. `ReboundReloadFiresTwice` is the
      reachable instance. */
  lemma F12ShortcutFiresTwice()
    ensures TriggeredKinds(Shortcuts.HandleKey(Shortcuts.KeyEvent("F12", false, false, false, false),
      [Shortcuts.Shortcut("dev-tools", "Developer Tools", "F12")])) == [DevTools, DevTools]
  {
    var e := Shortcuts.KeyEvent("F12", false, false, false, false);
    assert Join(["F12"], '+') == "F12";
    assert ToLower("F12") == "f12" by {
      var l := ToLower("F12");
      assert l[0] == 'f' && l[1] == '1' && l[2] == '2';
    }
    assert Shortcuts.Combo(e) == Some("f12");
  }

  /** Rebinding the default "reload" shortcut to F12 in the settings dialog
      makes one F12 press trigger a reload and then the developer tools: the
      standalone F12 check fires although a shortcut already matched. */
  lemma ReboundReloadFiresTwice()
    ensures TriggeredKinds(Shortcuts.HandleKey(Shortcuts.KeyEvent("F12", false, false, false, false),
      SettingsModal.ShortcutChanged(Shortcuts.DefaultShortcuts, "reload", "F12"))) == [Reload, DevTools]
  {
    var e := Shortcuts.KeyEvent("F12", false, false, false, false);
    var s := SettingsModal.ShortcutChanged(Shortcuts.DefaultShortcuts, "reload", "F12");
    assert Join(["F12"], '+') == "F12";
    assert ToLower("F12") == "f12" by {
      var l := ToLower("F12");
      assert l[0] == 'f' && l[1] == '1' && l[2] == '2';
    }
    assert Shortcuts.Combo(e) == Some("f12");
    assert s[0] == Shortcuts.DefaultShortcuts[0] && s[1] == Shortcuts.DefaultShortcuts[1];
    assert |ToLower(s[0].keys)| == 6 && |ToLower(s[1].keys)| == 6;
    assert s[2].id == "reload" && s[2].keys == "F12";
    assert Shortcuts.FirstMatchAt(s, "f12", 2);
  }

  // ---------------------------------------------------------------------
  // The component's state
  // ---------------------------------------------------------------------

  class AppState {
    var tabs: seq<Tab>
    var activeTabId: int
    var navAction: Option<NavAction>
    var issued: nat
    var navState: NavState
    var isSearchOpen: bool

    ghost predicate Valid()
      reads this
    {
      ValidRegistry(Registry(tabs, activeTabId))
    }

    function Current(): Registry
      reads this
    {
      Registry(tabs, activeTabId)
    }

    /** The shell starts with one "Home" tab, active; no command pending. */
    constructor (initialId: int)
      ensures Valid()
      ensures tabs == [Tab(initialId, "Home", HomeUrl, false)] && activeTabId == initialId
      ensures navAction == None && issued == 0 && !isSearchOpen
      ensures navState == NavState(false, false, false)
    {
      tabs := [Tab(initialId, "Home", HomeUrl, false)];
      activeTabId := initialId;
      navAction := None;
      issued := 0;
      navState := NavState(false, false, false);
      isSearchOpen := false;
    }

    method AddTab(freshId: int)
      requires Valid() && freshId !in Ids(tabs)
      modifies this`tabs, this`activeTabId
      ensures Valid()
      ensures Current() == AddedTab(old(Current()), freshId)
    {
      var r := AddedTab(Current(), freshId);
      tabs, activeTabId := r.tabs, r.activeTabId;
    }

    /** Never leaves the registry empty; removing the active tab leaves the
        active id on a tab that is still there. */
    method RemoveTab(id: int, freshId: int)
      requires Valid()
      modifies this`tabs, this`activeTabId
      ensures Valid()
      ensures Current() == RemovedTab(old(Current()), id, freshId)
      ensures old(activeTabId) == id ==> activeTabId in Ids(tabs)
    {
      var r := RemovedTab(Current(), id, freshId);
      tabs, activeTabId := r.tabs, r.activeTabId;
    }

    /** handleActivateTab: any id is accepted. */
    method ActivateTab(id: int)
      requires Valid()
      modifies this`activeTabId
      ensures Valid() && activeTabId == id
    {
      activeTabId := id;
    }

    method UpdateTabTitle(id: int, title: string)
      requires Valid()
      modifies this`tabs
      ensures Valid()
      ensures tabs == Retitled(old(tabs), id, title)
    {
      SameIdsKeepUnique(tabs, Retitled(tabs, id, title));
      tabs := Retitled(tabs, id, title);
    }

    /** handleNavigate: the active tab is navigated, the search overlay is
        closed, and a visit is to be recorded for the url's host unless the
        url is internal ("mix://") or its host cannot be parsed. `hostOf`
        stands for the platform's URL parser. */
    method Navigate(url: string, hostOf: string -> Option<string>) returns (visit: Option<string>)
      requires Valid()
      modifies this`tabs, this`isSearchOpen
      ensures Valid()
      ensures tabs == Navigated(old(tabs), activeTabId, url)
      ensures !isSearchOpen
      ensures StartsWith(url, "mix://") ==> visit == None
      ensures !StartsWith(url, "mix://") ==> visit == hostOf(url)
    {
      SameIdsKeepUnique(tabs, Navigated(tabs, activeTabId, url));
      tabs := Navigated(tabs, activeTabId, url);
      isSearchOpen := false;
      if StartsWith(url, "mix://") {
        visit := None;
      } else {
        visit := hostOf(url);
      }
    }

    /** triggerNavAction: a new command addressed to the active tab; two
        triggers of the same kind are two distinct commands. */
    method TriggerNavAction(kind: NavKind)
      modifies this`navAction, this`issued
      ensures navAction == Some(NavAction(kind, activeTabId, old(issued)))
      ensures issued == old(issued) + 1
    {
      navAction := Some(NavAction(kind, activeTabId, issued));
      issued := issued + 1;
    }

    /** The timer that clears the pending command. */
    method ClearNavAction()
      modifies this`navAction
      ensures navAction == None
    {
      navAction := None;
    }

    /** onUpdateNavState: only reports about the active tab are taken. */
    method ReceiveNavState(id: int, state: NavState)
      modifies this`navState
      ensures navState == if id == activeTabId then state else old(navState)
    {
      if id == activeTabId {
        navState := state;
      }
    }

    method TogglePin(id: int)
      requires Valid()
      modifies this`tabs
      ensures Valid()
      ensures tabs == PinToggled(old(tabs), id)
    {
      SameIdsKeepUnique(tabs, PinToggled(tabs, id));
      tabs := PinToggled(tabs, id);
    }

    method CloseOthers(id: int)
      requires Valid()
      modifies this`tabs, this`activeTabId
      ensures Valid()
      ensures Current() == OthersClosed(old(Current()), id)
    {
      var r := OthersClosed(Current(), id);
      tabs, activeTabId := r.tabs, r.activeTabId;
    }

    method Duplicate(id: int, freshId: int)
      requires Valid() && freshId !in Ids(tabs)
      modifies this`tabs
      ensures Valid()
      ensures tabs == Duplicated(old(tabs), id, freshId)
    {
      tabs := Duplicated(tabs, id, freshId);
    }

    /** The search overlay opened a result in a new tab. */
    method OpenSearchResult(url: string, freshId: int)
      requires Valid() && freshId !in Ids(tabs)
      modifies this`tabs, this`activeTabId, this`isSearchOpen
      ensures Valid()
      ensures Current() == SearchTabAdded(old(Current()), url, freshId)
      ensures !isSearchOpen
    {
      var r := SearchTabAdded(Current(), url, freshId);
      tabs, activeTabId := r.tabs, r.activeTabId;
      isSearchOpen := false;
    }

    method ToggleSearch()
      modifies this`isSearchOpen
      ensures isSearchOpen == !old(isSearchOpen)
    {
      isSearchOpen := !isSearchOpen;
    }

    /** The switch over the matched shortcut's command. */
    method RunCommand(cmd: Option<Shortcuts.Command>, urlInputPresent: bool, freshId: int)
      returns (focusUrl: bool, triggered: seq<NavKind>)
      requires Valid() && freshId !in Ids(tabs)
      modifies this
      ensures Valid()
      ensures triggered == CommandKinds(cmd)
      ensures issued == old(issued) + |triggered|
      ensures triggered == [] ==> navAction == old(navAction)
      ensures triggered != [] ==> navAction == Some(NavAction(triggered[0], activeTabId, old(issued)))
      ensures cmd == Some(Shortcuts.NewTab) ==> Current() == AddedTab(old(Current()), freshId)
      ensures cmd == Some(Shortcuts.CloseTab) ==> Current() == RemovedTab(old(Current()), old(activeTabId), freshId)
      ensures cmd != Some(Shortcuts.NewTab) && cmd != Some(Shortcuts.CloseTab) ==> Current() == old(Current())
      ensures focusUrl == (cmd == Some(Shortcuts.FocusUrl) && urlInputPresent)
      ensures isSearchOpen == (if cmd == Some(Shortcuts.FocusUrl) && !urlInputPresent then !old(isSearchOpen) else old(isSearchOpen))
      ensures navState == old(navState)
    {
      focusUrl := false;
      triggered := [];
      match cmd {
        case Some(NewTab) => AddTab(freshId);
        case Some(CloseTab) => RemoveTab(activeTabId, freshId);
        case Some(ReloadPage) => TriggerNavAction(Reload); triggered := [Reload];
        case Some(FocusUrl) =>
          if urlInputPresent { focusUrl := true; } else { ToggleSearch(); }
        case Some(GoBack) => TriggerNavAction(Back); triggered := [Back];
        case Some(GoForward) => TriggerNavAction(Forward); triggered := [Forward];
        case Some(ToggleDevTools) => TriggerNavAction(DevTools); triggered := [DevTools];
        case None =>
      }
    }

    /** The window key-down handler. A new tab or a tab close changes the
        registry; every other command leaves it alone. "focus-url" focuses the
        address bar when it is on screen and toggles the search overlay
        otherwise. The triggered navigation commands are returned in order;
        the pending command is the last of them. */
    method HandleKeyDown(e: Shortcuts.KeyEvent, shortcuts: seq<Shortcuts.Shortcut>,
                         urlInputPresent: bool, freshId: int)
      returns (preventDefault: bool, focusUrl: bool, triggered: seq<NavKind>)
      requires Valid() && freshId !in Ids(tabs)
      modifies this
      ensures Valid()
      ensures var k := Shortcuts.HandleKey(e, shortcuts);
        preventDefault == k.preventDefault &&
        triggered == TriggeredKinds(k) &&
        issued == old(issued) + |triggered| &&
        (triggered == [] ==> navAction == old(navAction)) &&
        (triggered != [] ==> navAction == Some(NavAction(triggered[|triggered| - 1], activeTabId, issued - 1))) &&
        (k.command == Some(Shortcuts.NewTab) ==> Current() == AddedTab(old(Current()), freshId)) &&
        (k.command == Some(Shortcuts.CloseTab) ==> Current() == RemovedTab(old(Current()), old(activeTabId), freshId)) &&
        (k.command != Some(Shortcuts.NewTab) && k.command != Some(Shortcuts.CloseTab) ==> Current() == old(Current())) &&
        focusUrl == (k.command == Some(Shortcuts.FocusUrl) && urlInputPresent) &&
        isSearchOpen == (if k.command == Some(Shortcuts.FocusUrl) && !urlInputPresent then !old(isSearchOpen) else old(isSearchOpen))
      ensures navState == old(navState)
    {
      var k := Shortcuts.HandleKey(e, shortcuts);
      preventDefault := k.preventDefault;
      focusUrl, triggered := RunCommand(k.command, urlInputPresent, freshId);
      ghost var afterCommand := Current();
      if k.f12 {
        TriggerNavAction(DevTools);
        triggered := triggered + [DevTools];
        assert Current() == afterCommand;
      }
      assert triggered == TriggeredKinds(k);
    }
  }
}
