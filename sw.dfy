/**
 * The application's service worker (`sw.js`): it precaches the shell on install,
 * answers every fetch by a strategy chosen from the request's mode and path, deletes
 * outdated caches on activate and relays offline-status messages to its clients.
 */
module ServiceWorker {
  import opened Wrappers
  import opened Text
  import opened CacheApi

  const CacheName: string := "visit-polzela-cache-v1"
  const DataCacheName: string := "visit-polzela-data-cache-v1"
  const StaticCacheName: string := "visit-polzela-static-cache-v1"

  /** The shell resources cached on install, as paths of the worker's origin. */
  const PrecacheResources: seq<string> := [
    "/",
    "/index.html",
    "/offline.html",
    "/styles/main.css",
    "/styles/offline.css",
    "/frontend/offline-store.js",
    "/frontend/offline-router.js",
    "/images/logo.png"
  ]

  /** The caches `activate` keeps. */
  const Whitelist: seq<string> := [CacheName, DataCacheName, StaticCacheName]

  /**
   * A request: its `mode`, its HTTP method, its full URL (the key under which caches
   * store it) and the URL's path.
   */
  datatype Request = Request(mode: string, httpMethod: string, url: string, pathname: string)

  /** The Cache API stores and matches GET requests only. */
  predicate IsGet(request: Request) {
    request.httpMethod == "GET"
  }

  /** How the worker answers a request. */
  datatype Strategy = Navigation | Descriptions | Catalog | Images | Scripts | Styles | Default

  predicate IsImagePath(pathname: string) {
    EndsWith(pathname, ".webp") || EndsWith(pathname, ".png") ||
    EndsWith(pathname, ".jpg") || EndsWith(pathname, ".jpeg")
  }

  /** The condition under which a strategy applies, taken on its own. */
  predicate Applies(s: Strategy, mode: string, pathname: string) {
    match s
    case Navigation => mode == "navigate"
    case Descriptions => Includes(pathname, "/poi-descriptions/")
    case Catalog => Includes(pathname, "/pointsofinterest/pois.txt")
    case Images => IsImagePath(pathname)
    case Scripts => EndsWith(pathname, ".js")
    case Styles => EndsWith(pathname, ".css")
    case Default => true
  }

  /** The position of a strategy in the order the handler tests them. */
  function Rank(s: Strategy): nat {
    match s
    case Navigation => 0
    case Descriptions => 1
    case Catalog => 2
    case Images => 3
    case Scripts => 4
    case Styles => 5
    case Default => 6
  }

  /** The strategy the fetch handler picks: the first, in its fixed order, that applies. */
  function Classify(mode: string, pathname: string): (s: Strategy)
    ensures Applies(s, mode, pathname)
    ensures forall t: Strategy :: Rank(t) < Rank(s) ==> !Applies(t, mode, pathname)
  {
    if mode == "navigate" then Navigation
    else if Includes(pathname, "/poi-descriptions/") then Descriptions
    else if Includes(pathname, "/pointsofinterest/pois.txt") then Catalog
    else if IsImagePath(pathname) then Images
    else if EndsWith(pathname, ".js") then Scripts
    else if EndsWith(pathname, ".css") then Styles
    else Default
  }

  /** The cache a non-navigation strategy writes to: the data cache for the two data routes. */
  function CacheFor(s: Strategy): (name: string)
    requires !s.Navigation?
    ensures name in Whitelist
    ensures name == DataCacheName <==> s.Descriptions? || s.Catalog?
  {
    if s.Descriptions? || s.Catalog? then DataCacheName else StaticCacheName
  }

  /** The cached page a failed navigation is answered with. */
  function NavigationFallback(origin: string, pathname: string): string {
    if StartsWith(pathname, "/poi/") then origin + "/" else origin + "/offline.html"
  }

  /** The full URLs of the precached resources. */
  function PrecacheKeys(origin: string): (keys: seq<string>)
    ensures |keys| == |PrecacheResources|
    ensures forall i :: 0 <= i < |keys| ==> keys[i] == origin + PrecacheResources[i]
  {
    seq(|PrecacheResources|, i requires 0 <= i < |PrecacheResources| => origin + PrecacheResources[i])
  }

  /**
   * A description request is answered from the data cache even when its path also
   * looks like a script, a style sheet or an image: the data routes are tested first.
   */
  lemma DataRoutesFirst(mode: string, pathname: string)
    requires mode != "navigate"
    requires Includes(pathname, "/poi-descriptions/") || Includes(pathname, "/pointsofinterest/pois.txt")
    ensures CacheFor(Classify(mode, pathname)) == DataCacheName
  {
  }

  /** A navigation never reaches a cache-writing route, whatever its path. */
  lemma NavigationIsNotCached(pathname: string)
    ensures Classify("navigate", pathname) == Navigation
  {
  }

  /**
   * `install`: open the static cache and `addAll` the precache list; `fetchOf(k)` is the
   * outcome of fetching `k`. When every fetch succeeds, each resource is cached and the
   * cache's other entries are kept; when one fails, nothing is stored.
   */
  method Install(storage: CacheStorage, origin: string, fetchOf: string -> FetchOutcome) returns (ok: bool)
    requires storage.Valid()
    modifies storage
    ensures storage.Valid()
    ensures ok <==> AllOk(PrecacheKeys(origin), fetchOf)
    ensures storage.names == if StaticCacheName in old(storage.caches) then old(storage.names)
                             else old(storage.names) + [StaticCacheName]
    ensures StaticCacheName in storage.caches
    ensures forall n :: n in storage.caches && n != StaticCacheName ==>
              n in old(storage.caches) && storage.caches[n] == old(storage.caches)[n]
    ensures var withCache := Opened(old(storage.caches), StaticCacheName);
            storage.caches == if ok then withCache[StaticCacheName := PutEach(withCache[StaticCacheName], PrecacheKeys(origin), fetchOf)]
                              else withCache
    ensures !ok ==> storage.caches[StaticCacheName] ==
                      if StaticCacheName in old(storage.caches) then old(storage.caches)[StaticCacheName] else map[]
    ensures ok ==> forall i :: 0 <= i < |PrecacheResources| ==>
                     var key := origin + PrecacheResources[i];
                     key in storage.caches[StaticCacheName]
                     && storage.caches[StaticCacheName][key] == fetchOf(key).response
    ensures ok && StaticCacheName in old(storage.caches) ==>
              forall k :: k in old(storage.caches)[StaticCacheName] && k !in PrecacheKeys(origin) ==>
                k in storage.caches[StaticCacheName] && storage.caches[StaticCacheName][k] == old(storage.caches)[StaticCacheName][k]
  {
    var keys := PrecacheKeys(origin);
    ok := storage.AddAll(StaticCacheName, keys, fetchOf);
    if ok {
      ghost var withCache := Opened(old(storage.caches), StaticCacheName);
      forall i | 0 <= i < |PrecacheResources|
        ensures var key := origin + PrecacheResources[i];
                key in storage.caches[StaticCacheName]
                && storage.caches[StaticCacheName][key] == fetchOf(key).response
      {
        assert keys[i] == origin + PrecacheResources[i];
        PutEachStores(withCache[StaticCacheName], keys, fetchOf, keys[i]);
      }
      forall k | StaticCacheName in old(storage.caches) && k in old(storage.caches)[StaticCacheName] && k !in keys
        ensures k in storage.caches[StaticCacheName]
                && storage.caches[StaticCacheName][k] == old(storage.caches)[StaticCacheName][k]
      {
        PutEachStores(withCache[StaticCacheName], keys, fetchOf, k);
      }
    }
  }

  /** The caches after storing `response` under `key` in the (opened) static cache. */
  function PutStatic(caches: map<string, Cache>, key: string, response: HttpResponse): (r: map<string, Cache>)
    ensures StaticCacheName in r && key in r[StaticCacheName] && r[StaticCacheName][key] == response
    ensures forall n :: n in r <==> n in caches || n == StaticCacheName
    ensures forall n :: n in caches && n != StaticCacheName ==> r[n] == caches[n]
    ensures StaticCacheName in caches ==>
              forall k :: k in caches[StaticCacheName] && k != key ==> k in r[StaticCacheName] && r[StaticCacheName][k] == caches[StaticCacheName][k]
  {
    var withCache := Opened(caches, StaticCacheName);
    withCache[StaticCacheName := withCache[StaticCacheName][key := response]]
  }

  /**
   * The `fetch` handler for `request`, with `outcome` the result of fetching it. The
   * answer is `None` when the cache holds no match. A request other than GET is never
   * stored (its `put` rejects), and when its fetch rejects nothing matches it.
   */
  method HandleFetch(storage: CacheStorage, origin: string, request: Request, outcome: FetchOutcome)
    returns (response: Option<HttpResponse>)
    requires storage.Valid()
    modifies storage
    ensures storage.Valid()
    ensures var s := Classify(request.mode, request.pathname);
            s.Navigation? ==>
              && storage.names == old(storage.names) && storage.caches == old(storage.caches)
              && response == match outcome
                             case Received(r) => Some(r)
                             case NetworkError =>
                               FirstMatch(old(storage.names), old(storage.caches),
                                          NavigationFallback(origin, request.pathname))
    ensures var s := Classify(request.mode, request.pathname);
            !s.Navigation? && !s.Default? ==>
              && (storage.caches, response)
                 == NetworkFirstStep(old(storage.caches), CacheFor(s), request.url, IsGet(request), outcome)
              && storage.names == if CacheFor(s) in old(storage.caches) then old(storage.names)
                                  else old(storage.names) + [CacheFor(s)]
    ensures Classify(request.mode, request.pathname).Default? ==>
              match outcome
              case Received(r) =>
                && response == Some(r)
                && (r.ok && IsGet(request) ==> storage.caches == PutStatic(old(storage.caches), request.url, r))
                && (r.ok && !IsGet(request) ==> storage.caches == Opened(old(storage.caches), StaticCacheName))
                && (r.ok ==> storage.names == if StaticCacheName in old(storage.caches) then old(storage.names)
                                              else old(storage.names) + [StaticCacheName])
                && (!r.ok ==> storage.caches == old(storage.caches) && storage.names == old(storage.names))
              case NetworkError =>
                && response == (if IsGet(request) then FirstMatch(old(storage.names), old(storage.caches), request.url)
                                else None)
                && storage.caches == old(storage.caches) && storage.names == old(storage.names)
  {
    var s := Classify(request.mode, request.pathname);
    if s.Navigation? {
      match outcome
      case Received(r) =>
        response := Some(r);
      case NetworkError =>
        response := storage.Match(NavigationFallback(origin, request.pathname));
    } else if s.Default? {
      match outcome
      case Received(r) =>
        if r.ok {
          storage.Open(StaticCacheName);
          if IsGet(request) {
            storage.Put(StaticCacheName, request.url, r);
          }
        }
        response := Some(r);
      case NetworkError =>
        response := if IsGet(request) then storage.Match(request.url) else None;
    } else {
      response := storage.NetworkFirst(CacheFor(s), request.url, IsGet(request), outcome);
    }
  }

  /** `activate`: delete every cache whose name is not whitelisted, keeping the others as they are. */
  method Activate(storage: CacheStorage)
    requires storage.Valid()
    modifies storage
    ensures storage.Valid()
    ensures storage.caches == KeepOnly(old(storage.caches), Whitelist)
    ensures storage.names == KeepNames(old(storage.names), Whitelist)
    ensures forall n :: n in storage.caches <==>
              n in old(storage.caches) && (n == CacheName || n == DataCacheName || n == StaticCacheName)
  {
    storage.DeleteOutdated(Whitelist);
  }

  /** The data of a message posted to the worker. */
  datatype MessageData = MessageData(kind: string, offline: bool)

  const StatusChange: string := "OFFLINE_STATUS_CHANGE"
  const StatusUpdate: string := "OFFLINE_STATUS_UPDATE"

  /** One `postMessage` to a client. */
  datatype Post = Post(client: nat, data: MessageData)

  /**
   * The `message` handler: a status change (and nothing else) is posted to every client
   * in turn as a status update carrying the same `offline` value.
   */
  function Forward(data: Option<MessageData>, clients: seq<nat>): (posts: seq<Post>)
    ensures data.None? || data.value.kind != StatusChange ==> posts == []
    ensures data.Some? && data.value.kind == StatusChange ==>
              && |posts| == |clients|
              && forall i :: 0 <= i < |clients| ==>
                   posts[i] == Post(clients[i], MessageData(StatusUpdate, data.value.offline))
  {
    if data.Some? && data.value.kind == StatusChange then
      seq(|clients|, i requires 0 <= i < |clients| => Post(clients[i], MessageData(StatusUpdate, data.value.offline)))
    else []
  }

  /** A relayed update, posted back to the worker, is not relayed again. */
  lemma UpdatesAreNotRelayed(data: MessageData, clients: seq<nat>, again: seq<nat>)
    requires data.kind == StatusChange
    ensures forall p :: p in Forward(Some(data), clients) ==> Forward(Some(p.data), again) == []
  {
    forall p | p in Forward(Some(data), clients)
      ensures Forward(Some(p.data), again) == []
    {
      assert p.data.kind == StatusUpdate;
    }
  }
}
