/** The content area: a registry from tab id to the embedded view mounted for
    it, a per-tab loading map, the dispatch of the pending navigation command
    to the addressed view, the view events that update the loading map, the
    tab title and the top bar's navigation state, and the rule deciding what
    each tab shows.

    The embedded view is abstract: capability flags, a developer-tools flag,
    a title, and a log of the navigation calls it received. */
module BrowserArea {
  import opened Common
  import opened Sidebar
  import opened App

  datatype ViewCall = GoBackCall | GoForwardCall | ReloadCall | OpenDevToolsCall | CloseDevToolsCall

  /** An embedded view. A `faulty` view throws from every navigation call
      (goBack, goForward, reload, openDevTools, closeDevTools) before it has
      any effect; its queries answer normally. */
  class WebView {
    var canGoBack: bool
    var canGoForward: bool
    var devToolsOpen: bool
    var title: string
    var faulty: bool
    var calls: seq<ViewCall>

    constructor (canGoBack: bool, canGoForward: bool, title: string, faulty: bool)
      ensures this.canGoBack == canGoBack && this.canGoForward == canGoForward
      ensures this.title == title && this.faulty == faulty
      ensures !devToolsOpen && calls == []
    {
      this.canGoBack := canGoBack;
      this.canGoForward := canGoForward;
      this.title := title;
      this.faulty := faulty;
      devToolsOpen := false;
      calls := [];
    }

    /** A navigation call that does not touch the developer tools: logged,
        unless it throws. */
    method Call(c: ViewCall) returns (threw: bool)
      requires c == GoBackCall || c == GoForwardCall || c == ReloadCall
      modifies this`calls
      ensures threw == faulty
      ensures calls == if faulty then old(calls) else old(calls) + [c]
    {
      threw := faulty;
      if !faulty {
        calls := calls + [c];
      }
    }

    method OpenDevTools() returns (threw: bool)
      modifies this`calls, this`devToolsOpen
      ensures threw == faulty
      ensures faulty ==> calls == old(calls) && devToolsOpen == old(devToolsOpen)
      ensures !faulty ==> calls == old(calls) + [OpenDevToolsCall] && devToolsOpen
    {
      threw := faulty;
      if !faulty {
        calls := calls + [OpenDevToolsCall];
        devToolsOpen := true;
      }
    }

    method CloseDevTools() returns (threw: bool)
      modifies this`calls, this`devToolsOpen
      ensures threw == faulty
      ensures faulty ==> calls == old(calls) && devToolsOpen == old(devToolsOpen)
      ensures !faulty ==> calls == old(calls) + [CloseDevToolsCall] && !devToolsOpen
    {
      threw := faulty;
      if !faulty {
        calls := calls + [CloseDevToolsCall];
        devToolsOpen := false;
      }
    }
  }

  /** The navigation calls a command makes on a view with the given flags; a
      faulty view makes none of them take effect. */
  function CallsFor(kind: NavKind, canGoBack: bool, canGoForward: bool, devToolsOpen: bool): (r: seq<ViewCall>)
    ensures |r| <= 1
    ensures kind == Stop ==> r == []
    ensures kind == Reload ==> r == [ReloadCall]
    ensures kind == Back ==> (r == [GoBackCall] <==> canGoBack) && (r == [] <==> !canGoBack)
    ensures kind == Forward ==> (r == [GoForwardCall] <==> canGoForward) && (r == [] <==> !canGoForward)
    ensures kind == DevTools ==> r == [if devToolsOpen then CloseDevToolsCall else OpenDevToolsCall]
  {
    match kind
    case Back => if canGoBack then [GoBackCall] else []
    case Forward => if canGoForward then [GoForwardCall] else []
    case Reload => [ReloadCall]
    case DevTools => [if devToolsOpen then CloseDevToolsCall else OpenDevToolsCall]
    case Stop => []
  }

  /** The home surface is shown for the internal home address and for an
      empty url. */
  predicate IsHome(t: Tab) {
    t.url == HomeUrl || t.url == ""
  }

  function ShownFor(activeTabId: int): Tab -> bool {
    (t: Tab) => t.id == activeTabId
  }

  /** The tabs whose content is displayed: those carrying the active id. */
  function DisplayedTabs(tabs: seq<Tab>, activeTabId: int): (r: seq<Tab>)
    ensures forall i :: 0 <= i < |r| ==> r[i] in tabs && r[i].id == activeTabId
    ensures forall i :: 0 <= i < |tabs| && tabs[i].id == activeTabId ==> tabs[i] in r
  {
    Filter(tabs, ShownFor(activeTabId))
  }

  /** With unique ids exactly one tab is displayed when the active id names
      a tab, and none otherwise. */
  lemma OnlyActiveDisplayed(tabs: seq<Tab>, activeTabId: int)
    requires UniqueIds(tabs)
    ensures |DisplayedTabs(tabs, activeTabId)| == if activeTabId in Ids(tabs) then 1 else 0
  {
    var r := DisplayedTabs(tabs, activeTabId);
    FilterKeepsUnique(tabs, ShownFor(activeTabId));
    FirstTwoDiffer(r);
    assert r == [] || (r[0] in tabs && r[0].id == activeTabId);
    if activeTabId in Ids(tabs) {
      var t :| t in tabs && t.id == activeTabId;
      var i :| 0 <= i < |tabs| && tabs[i] == t;
      assert tabs[i] in r;
    }
  }

  lemma FirstTwoDiffer(r: seq<Tab>)
    requires UniqueIds(r)
    ensures |r| >= 2 ==> r[0].id != r[1].id
  {
  }

  /** The loading spinner shows on a web surface that is active and loading. */
  predicate ShowsSpinner(t: Tab, activeTabId: int, loading: map<int, bool>) {
    !IsHome(t) && t.id == activeTabId && t.id in loading && loading[t.id]
  }

  /** After a loading event for tab `id` sets its entry to `now`, a tab
      carrying that id shows the spinner exactly when `now` holds and it is
      the active web tab; every other tab shows what it showed before. */
  lemma SpinnerFollowsLoading(t: Tab, activeTabId: int, loading: map<int, bool>, id: int, now: bool)
    ensures t.id == id ==>
      (ShowsSpinner(t, activeTabId, loading[id := now]) <==> now && !IsHome(t) && t.id == activeTabId)
    ensures t.id != id ==>
      ShowsSpinner(t, activeTabId, loading[id := now]) == ShowsSpinner(t, activeTabId, loading)
  {
  }

  function IsLoading(loading: map<int, bool>, id: int): bool {
    id in loading && loading[id]
  }

  class BrowserArea {
    var views: map<int, WebView>
    var loading: map<int, bool>

    constructor ()
      ensures views == map[] && loading == map[]
    {
      views := map[];
      loading := map[];
    }

    /** A mounted element is registered under its tab id; an absent element
        (an unmount) registers nothing, and no handle is ever removed. */
    method Mount(id: int, element: Option<WebView>)
      modifies this`views
      ensures element.None? ==> views == old(views)
      ensures element.Some? ==> views == old(views)[id := element.value]
      ensures old(views).Keys <= views.Keys
    {
      if element.Some? {
        views := views[id := element.value];
      }
    }

    /** The nav-action effect. Without a command, or without a view for its
        tab, nothing happens. Otherwise the addressed view receives the calls
        `CallsFor` names; a call that throws is caught and leaves the view as
        it was. No other view is touched; STOP does nothing. */
    method Dispatch(action: Option<NavAction>) returns (caught: bool)
      modifies views.Values
      ensures action.None? || action.value.tabId !in views ==>
        !caught && forall v :: v in views.Values ==> unchanged(v)
      ensures action.Some? && action.value.tabId in views ==>
        var w := views[action.value.tabId];
        var cs := CallsFor(action.value.kind, old(w.canGoBack), old(w.canGoForward), old(w.devToolsOpen));
        caught == (cs != [] && w.faulty) &&
        w.calls == old(w.calls) + (if w.faulty then [] else cs) &&
        w.devToolsOpen == (if action.value.kind == DevTools && !w.faulty then !old(w.devToolsOpen) else old(w.devToolsOpen)) &&
        w.canGoBack == old(w.canGoBack) && w.canGoForward == old(w.canGoForward) &&
        w.title == old(w.title) && w.faulty == old(w.faulty) &&
        forall v :: v in views.Values && v != w ==> unchanged(v)
    {
      caught := false;
      if action.None? || action.value.tabId !in views {
        return;
      }
      var w := views[action.value.tabId];
      assert w in views.Values;
      match action.value.kind {
        case Back =>
          if w.canGoBack { caught := w.Call(GoBackCall); }
        case Forward =>
          if w.canGoForward { caught := w.Call(GoForwardCall); }
        case Reload =>
          caught := w.Call(ReloadCall);
        case DevTools =>
          if w.devToolsOpen { caught := w.CloseDevTools(); } else { caught := w.OpenDevTools(); }
        case Stop =>
      }
    }

    /** did-start-loading on the view of tab `id`: the tab is loading, no
        other entry changes, and the top bar gets the view's flags. */
    method OnStartLoading(id: int, element: WebView) returns (report: NavState)
      modifies this`loading
      ensures loading == old(loading)[id := true]
      ensures forall t: Tab :: t.id == id && !IsHome(t) ==> ShowsSpinner(t, id, loading)
      ensures report == NavState(element.canGoBack, element.canGoForward, true)
    {
      loading := loading[id := true];
      report := NavState(element.canGoBack, element.canGoForward, true);
    }

    /** did-stop-loading: the tab is no longer loading, no other entry
        changes, its title becomes the view's title, and the top bar gets the
        view's flags. */
    method OnStopLoading(id: int, element: WebView) returns (title: string, report: NavState)
      modifies this`loading
      ensures loading == old(loading)[id := false]
      ensures forall t: Tab, activeTabId: int :: t.id == id ==> !ShowsSpinner(t, activeTabId, loading)
      ensures title == element.title
      ensures report == NavState(element.canGoBack, element.canGoForward, false)
    {
      loading := loading[id := false];
      title := element.title;
      report := NavState(element.canGoBack, element.canGoForward, false);
    }

    /** did-navigate and did-navigate-in-page: the top bar is refreshed only
        while the tab is not loading. */
    method OnNavigated(id: int, element: WebView) returns (report: Option<NavState>)
      ensures IsLoading(loading, id) ==> report == None
      ensures !IsLoading(loading, id) ==> report == Some(NavState(element.canGoBack, element.canGoForward, false))
    {
      if IsLoading(loading, id) {
        report := None;
      } else {
        report := Some(NavState(element.canGoBack, element.canGoForward, false));
      }
    }

    /** The active-tab effect: the view's flags and the tab's loading state,
        or all false when no view is registered for the tab. */
    method ActiveTabChanged(activeTabId: int) returns (report: NavState)
      ensures activeTabId !in views ==> report == NavState(false, false, false)
      ensures activeTabId in views ==>
        report == NavState(views[activeTabId].canGoBack, views[activeTabId].canGoForward, IsLoading(loading, activeTabId))
    {
      if activeTabId in views {
        var wv := views[activeTabId];
        report := NavState(wv.canGoBack, wv.canGoForward, IsLoading(loading, activeTabId));
      } else {
        report := NavState(false, false, false);
      }
    }
  }
}
