/**
 * The front end's `OfflineRouter`: while the browser is offline it intercepts link
 * clicks and history navigation, shows stored POIs from the page's offline store, and
 * keeps an "offline" indicator in step with the connection.
 */
module OfflineRouter {
  import opened Wrappers
  import opened Text
  import opened OfflineStore

  /** The POIs whose detail routes `/poi/<id>` the router lists, in the listed order. */
  const ListedPoiIds: seq<string> := [
    "castle",
    "park",
    "icecream",
    "mountoljka",
    "maurerhouse",
    "romancamp",
    "tractormuseum",
    "cajhnhayrack",
    "clayfigurines",
    "noviklostermanor",
    "stmargharetachurch",
    "stnicholaschurch",
    "standrewchurch",
    "plaguememorial",
    "jelovsekgranary",
    "bolcinhouse",
    "stoberhouse",
    "barbankhouse",
    "mesicmill",
    "riverloznica"
  ]

  /** The routes the router serves while offline: `/`, `/pois`, then the 20 POI routes. */
  const OfflineRoutes: seq<string> := ["/", "/pois"] + PoiRoutes(ListedPoiIds)

  /** The detail route of each id, in order. */
  function PoiRoutes(ids: seq<string>): (routes: seq<string>)
    ensures |routes| == |ids|
    ensures forall i :: 0 <= i < |ids| ==> routes[i] == "/poi/" + ids[i]
  {
    seq(|ids|, i requires 0 <= i < |ids| => "/poi/" + ids[i])
  }

  const FailedMessage: string := "Failed to load offline content"
  const LimitedMessage: string := "This page is available in limited functionality while offline"

  /** The message for a POI the offline store does not hold. */
  function NotAvailable(poiId: string): string {
    "The content for \"" + poiId + "\" is not available offline"
  }

  /** `isOfflineRoute(route)`. */
  predicate IsOfflineRoute(route: string) {
    route in OfflineRoutes
  }

  /** Where an intercepted path leads: a POI by id, a listed page, or nowhere (not intercepted). */
  datatype Navigation = NoNavigation | ToPoi(poiId: string) | ToPage(route: string)

  /** The decision the click and `popstate` handlers share, POI paths first. */
  function Route(path: string): (nav: Navigation)
    ensures StartsWith(path, "/poi/") ==> nav == ToPoi(LastSegment(path, "/"))
    ensures !StartsWith(path, "/poi/") && IsOfflineRoute(path) ==> nav == ToPage(path)
    ensures nav.NoNavigation? <==> !StartsWith(path, "/poi/") && !IsOfflineRoute(path)
  {
    if StartsWith(path, "/poi/") then ToPoi(LastSegment(path, "/"))
    else if IsOfflineRoute(path) then ToPage(path)
    else NoNavigation
  }

  /**
   * Every listed route except `/` and `/pois` is a POI path, which the router treats as a
   * POI first; so a page navigation is always to `/` or `/pois`, and the generic
   * limited-functionality message is never reached from a click or `popstate`.
   */
  lemma PageNavigationIsToList(path: string)
    requires Route(path).ToPage?
    ensures path == "/" || path == "/pois"
  {
    var i :| 0 <= i < |OfflineRoutes| && OfflineRoutes[i] == path;
    if i >= 2 {
      assert false;
    }
  }

  /** A listed POI route leads to the POI named by its last segment. */
  lemma PoiRouteLeadsToPoi(poiId: string)
    requires '/' !in poiId
    ensures Route("/poi/" + poiId) == ToPoi(poiId)
  {
    assert "/poi/" + poiId == "/poi" + "/" + poiId;
    IdOfLink("/poi", poiId);
    assert ("/poi/" + poiId)[..5] == "/poi/";
  }

  /** What the outlet shows. */
  datatype Screen = Initial | PoiDetail(poi: StoredPoi) | PoiList(pois: seq<StoredPoi>) | Message(text: string)

  /** The history and screen after `navigateToPOI(poiId)`, with `lookup` the settled `getPOI(poiId)`. */
  function PoiTransition(history: seq<string>, screen: Screen, poiId: string, lookup: Settled<Option<StoredPoi>>)
    : (r: (seq<string>, Screen))
    ensures r.0 != history <==> lookup.Resolved? && lookup.value.Some?
    ensures lookup.Resolved? && lookup.value.Some? ==> r == (history + ["/poi/" + poiId], PoiDetail(lookup.value.value))
    ensures lookup == Resolved(None) ==> r == (history, Message(NotAvailable(poiId)))
    ensures lookup.Rejected? ==> r == (history, Message(FailedMessage))
  {
    match lookup
    case Rejected => (history, Message(FailedMessage))
    case Resolved(None) => (history, Message(NotAvailable(poiId)))
    case Resolved(Some(poi)) => (history + ["/poi/" + poiId], PoiDetail(poi))
  }

  /**
   * The history and screen after `navigateToOfflinePage(route)`, with `listing` the
   * settled `getAllPOIs()`: the route is always pushed, and only `/` and `/pois` list.
   */
  function PageTransition(history: seq<string>, route: string, listing: Settled<seq<StoredPoi>>)
    : (r: (seq<string>, Screen))
    ensures r.0 == history + [route]
    ensures r.1.PoiList? <==> (route == "/" || route == "/pois") && listing.Resolved?
    ensures r.1.PoiList? ==> r.1.pois == listing.value
    ensures !r.1.PoiList? ==> r.1 == Message(if route == "/" || route == "/pois" then FailedMessage else LimitedMessage)
  {
    if route == "/" || route == "/pois" then
      (history + [route], match listing
                          case Rejected => Message(FailedMessage)
                          case Resolved(pois) => PoiList(pois))
    else (history + [route], Message(LimitedMessage))
  }

  /** The history and screen after acting on a navigation decision. */
  function Transition(history: seq<string>, screen: Screen, nav: Navigation,
                      lookup: Settled<Option<StoredPoi>>, listing: Settled<seq<StoredPoi>>)
    : (seq<string>, Screen)
  {
    match nav
    case NoNavigation => (history, screen)
    case ToPoi(poiId) => PoiTransition(history, screen, poiId, lookup)
    case ToPage(route) => PageTransition(history, route, listing)
  }

  /**
   * A page navigation the router intercepts always renders the POI list, or the failure
   * message when the store cannot list; it never shows the generic limited-functionality
   * page. The history changes exactly when a POI is found or a page is opened.
   */
  lemma InterceptedNavigation(history: seq<string>, screen: Screen, path: string,
                              lookup: Settled<Option<StoredPoi>>, listing: Settled<seq<StoredPoi>>)
    ensures var r := Transition(history, screen, Route(path), lookup, listing);
            && (Route(path).ToPage? ==> r.1.PoiList? || r.1 == Message(FailedMessage))
            && (r.0 != history <==> Route(path).ToPage? || (Route(path).ToPoi? && lookup.Resolved? && lookup.value.Some?))
  {
    if Route(path).ToPage? {
      PageNavigationIsToList(path);
    }
  }

  /** A node on the chain from a click's target up to the root. */
  datatype Node = Node(tagName: string, href: Option<string>)

  /** The first `A` element of the chain. */
  function FirstAnchor(path: seq<Node>): (r: Option<nat>)
    ensures r.Some? ==> r.value < |path| && path[r.value].tagName == "A"
    ensures r.Some? ==> forall j :: 0 <= j < r.value ==> path[j].tagName != "A"
    ensures r.None? <==> forall j :: 0 <= j < |path| ==> path[j].tagName != "A"
    decreases |path|
  {
    if path == [] then None
    else if path[0].tagName == "A" then Some(0)
    else
      var rest := FirstAnchor(path[1..]);
      assert forall j :: 1 <= j < |path| ==> path[j] == path[1..][j - 1];
      if rest.Some? then Some(rest.value + 1) else None
  }

  /** The `href` the click handler acts on: the first anchor's, when it is truthy. */
  function ClickedHref(path: seq<Node>): (r: Option<string>)
    ensures r.Some? <==> FirstAnchor(path).Some? && path[FirstAnchor(path).value].href.Some?
                         && path[FirstAnchor(path).value].href.value != ""
    ensures r.Some? ==> r.value == path[FirstAnchor(path).value].href.value
  {
    var k := FirstAnchor(path);
    if k.Some? && path[k.value].href.Some? && path[k.value].href.value != "" then path[k.value].href else None
  }

  class OfflineRouterState {
    var isOffline: bool
    /** The indicator element: absent, or present and shown (`true`) or hidden. */
    var indicator: Option<bool>
    var history: seq<string>
    var screen: Screen

    /** `new OfflineRouter()`. */
    constructor (onLine: bool)
      ensures isOffline == !onLine && indicator == None && history == [] && screen == Initial
    {
      isOffline := !onLine;
      indicator := None;
      history := [];
      screen := Initial;
    }

    /**
     * `handleConnectionChange(offline)`: the flag follows the connection; the indicator
     * is created only when it is missing and must be shown, and is shown iff offline.
     */
    method HandleConnectionChange(offline: bool)
      modifies this`isOffline, this`indicator
      ensures isOffline == offline
      ensures indicator.Some? <==> old(indicator).Some? || offline
      ensures indicator.Some? ==> indicator.value == offline
    {
      isOffline := offline;
      if indicator.None? && offline {
        indicator := Some(true);
      }
      if indicator.Some? {
        indicator := Some(offline);
      }
    }

    /** `init()`: the indicator is brought in line with the initial connection state. */
    method Init()
      modifies this`isOffline, this`indicator
      ensures isOffline == old(isOffline)
      ensures indicator.Some? <==> old(indicator).Some? || isOffline
      ensures indicator.Some? ==> indicator.value == isOffline
    {
      HandleConnectionChange(isOffline);
    }

    /** `navigateToPOI(poiId)`. */
    method NavigateToPOI(poiId: string, lookup: Settled<Option<StoredPoi>>)
      modifies this`history, this`screen
      ensures (history, screen) == PoiTransition(old(history), old(screen), poiId, lookup)
    {
      match lookup
      case Rejected =>
        screen := Message(FailedMessage);
      case Resolved(poi) =>
        if poi.Some? {
          history := history + ["/poi/" + poiId];
          screen := PoiDetail(poi.value);
        } else {
          screen := Message(NotAvailable(poiId));
        }
    }

    /** `navigateToOfflinePage(route)`. */
    method NavigateToOfflinePage(route: string, listing: Settled<seq<StoredPoi>>)
      modifies this`history, this`screen
      ensures (history, screen) == PageTransition(old(history), route, listing)
    {
      history := history + [route];
      if route == "/" || route == "/pois" {
        match listing
        case Rejected =>
          screen := Message(FailedMessage);
        case Resolved(pois) =>
          screen := PoiList(pois);
      } else {
        screen := Message(LimitedMessage);
      }
    }

    /** Acts on an intercepted path; true when the default is prevented. */
    method Dispatch(path: string, lookup: Settled<Option<StoredPoi>>, listing: Settled<seq<StoredPoi>>)
      returns (prevented: bool)
      modifies this`history, this`screen
      ensures prevented <==> !Route(path).NoNavigation?
      ensures (history, screen) == Transition(old(history), old(screen), Route(path), lookup, listing)
    {
      var nav := Route(path);
      match nav
      case NoNavigation =>
        prevented := false;
      case ToPoi(poiId) =>
        prevented := true;
        NavigateToPOI(poiId, lookup);
      case ToPage(route) =>
        prevented := true;
        NavigateToOfflinePage(route, listing);
    }

    /**
     * The click handler, with `path` the chain from the clicked element up to the root.
     * Online, or without an anchor with a non-empty `href`, nothing changes.
     */
    method HandleClick(path: seq<Node>, lookup: Settled<Option<StoredPoi>>, listing: Settled<seq<StoredPoi>>)
      returns (prevented: bool)
      modifies this`history, this`screen
      ensures !isOffline || ClickedHref(path).None? ==>
                !prevented && history == old(history) && screen == old(screen)
      ensures isOffline && ClickedHref(path).Some? ==>
                && (prevented <==> !Route(ClickedHref(path).value).NoNavigation?)
                && (history, screen) == Transition(old(history), old(screen), Route(ClickedHref(path).value), lookup, listing)
    {
      if !isOffline {
        return false;
      }
      var i := 0;
      while i < |path| && path[i].tagName != "A"
        invariant 0 <= i <= |path|
        invariant forall j :: 0 <= j < i ==> path[j].tagName != "A"
        invariant history == old(history) && screen == old(screen)
      {
        i := i + 1;
      }
      if i == |path| {
        return false;
      }
      assert FirstAnchor(path) == Some(i);
      var href := path[i].href;
      if href.None? || href.value == "" {
        return false;
      }
      prevented := Dispatch(href.value, lookup, listing);
    }

    /** The `popstate` handler for the new location's path. */
    method HandlePopstate(pathname: string, lookup: Settled<Option<StoredPoi>>, listing: Settled<seq<StoredPoi>>)
      returns (prevented: bool)
      modifies this`history, this`screen
      ensures !isOffline ==> !prevented && history == old(history) && screen == old(screen)
      ensures isOffline ==>
                && (prevented <==> !Route(pathname).NoNavigation?)
                && (history, screen) == Transition(old(history), old(screen), Route(pathname), lookup, listing)
    {
      if !isOffline {
        return false;
      }
      prevented := Dispatch(pathname, lookup, listing);
    }
  }
}
