/**
 * The worker fragment merged into the generated service worker (`sw-custom.js`): it
 * answers only the two data routes, network first from the data cache, and on activate
 * keeps only the main and data caches.
 */
module ServiceWorkerCustom {
  import opened Wrappers
  import opened Text
  import opened CacheApi
  import ServiceWorker

  const CacheName: string := "visit-polzela-cache-v1"
  const DataCacheName: string := "visit-polzela-data-cache-v1"

  /** The caches `activate` keeps. */
  const Whitelist: seq<string> := [CacheName, DataCacheName]

  /** The two routes the fragment answers. */
  datatype DataRoute = Descriptions | Catalog

  /** The route of a path, descriptions first; `None` lets the request fall through. */
  function Route(pathname: string): (r: Option<DataRoute>)
    ensures r == Some(Descriptions) <==> Includes(pathname, "/poi-descriptions/")
    ensures r == Some(Catalog) <==>
              !Includes(pathname, "/poi-descriptions/") && Includes(pathname, "/pointsofinterest/pois.txt")
    ensures r.None? <==>
              !Includes(pathname, "/poi-descriptions/") && !Includes(pathname, "/pointsofinterest/pois.txt")
  {
    if Includes(pathname, "/poi-descriptions/") then Some(Descriptions)
    else if Includes(pathname, "/pointsofinterest/pois.txt") then Some(Catalog)
    else None
  }

  /**
   * The `fetch` handler: a data route is answered network first from the data cache
   * (`answered` is true); any other request is left to the other handlers, with the
   * caches untouched.
   */
  method HandleFetch(storage: CacheStorage, request: ServiceWorker.Request, outcome: FetchOutcome)
    returns (answered: bool, response: Option<HttpResponse>)
    requires storage.Valid()
    modifies storage
    ensures storage.Valid()
    ensures answered <==> Route(request.pathname).Some?
    ensures !answered ==> response.None? && storage.caches == old(storage.caches) && storage.names == old(storage.names)
    ensures answered ==>
              && (storage.caches, response) == NetworkFirstStep(old(storage.caches), DataCacheName, request.url, ServiceWorker.IsGet(request), outcome)
              && storage.names == if DataCacheName in old(storage.caches) then old(storage.names)
                                  else old(storage.names) + [DataCacheName]
  {
    if Route(request.pathname).Some? {
      answered := true;
      response := storage.NetworkFirst(DataCacheName, request.url, ServiceWorker.IsGet(request), outcome);
    } else {
      answered := false;
      response := None;
    }
  }

  /** `activate`: delete every cache other than the main and data caches. */
  method Activate(storage: CacheStorage)
    requires storage.Valid()
    modifies storage
    ensures storage.Valid()
    ensures storage.caches == KeepOnly(old(storage.caches), Whitelist)
    ensures storage.names == KeepNames(old(storage.names), Whitelist)
    ensures forall n :: n in storage.caches <==> n in old(storage.caches) && (n == CacheName || n == DataCacheName)
  {
    storage.DeleteOutdated(Whitelist);
  }

  /**
   * On every request the fragment answers that is not a navigation, the full worker
   * picks the same route and the same cache, so the two agree on the data routes.
   */
  lemma AgreesWithFullWorker(mode: string, pathname: string)
    requires mode != "navigate" && Route(pathname).Some?
    ensures var s := ServiceWorker.Classify(mode, pathname);
            && (s.Descriptions? <==> Route(pathname) == Some(Descriptions))
            && (s.Catalog? <==> Route(pathname) == Some(Catalog))
            && ServiceWorker.CacheFor(s) == DataCacheName
  {
  }

  /**
   * The two workers' constants differ in one respect: activating the fragment deletes
   * the full worker's static cache, while activating the full worker keeps it.
   */
  lemma ActivationDropsStaticCache(caches: map<string, Cache>)
    requires ServiceWorker.StaticCacheName in caches
    ensures ServiceWorker.StaticCacheName !in KeepOnly(caches, Whitelist)
    ensures ServiceWorker.StaticCacheName in KeepOnly(caches, ServiceWorker.Whitelist)
    ensures forall n :: n in KeepOnly(caches, Whitelist) ==> n in KeepOnly(caches, ServiceWorker.Whitelist)
  {
  }
}
