/**
 * `window.offlineStore` of the page script `offline-store.js`: a `pois` IndexedDB store
 * keyed by `id`, opened lazily, and a click handler that, while the browser is offline,
 * shows a stored POI instead of following its link.
 */
module OfflineStore {
  import opened Wrappers
  import opened Text
  import opened KeyedStore
  import opened CacheApi
  import ServiceWorker

  /** The cache `isImageCached` consults. */
  const ImageCacheName: string := "visit-polzela-cache"
  const PoiLinkClass: string := "poi-link"
  const PlaceholderImage: string := "/images/placeholder.png"
  const NotAvailableMessage: string := "This content is not available offline"
  const LoadErrorMessage: string := "Error loading offline content"

  /** A stored POI object, with the properties the script reads. */
  datatype StoredPoi = StoredPoi(id: string, displayName: string, imagePath: string, description: string)

  function StoredId(p: StoredPoi): string {
    p.id
  }

  /** How a promise settles: rejected, or resolved with a value. */
  datatype Settled<T> = Rejected | Resolved(value: T)

  /** An element on the chain from a click's target up to the document's root. */
  datatype Element = Element(classes: seq<string>, href: Option<string>)

  /** What a click leads to. */
  datatype ClickOutcome =
    | Ignored           // the browser follows the click as usual
    | Broken            // the link has no `href`: the default is prevented and the handler throws
    | ShowDetail(poi: StoredPoi)
    | ShowMessage(text: string)

  /** The first element of the chain that carries the `poi-link` class. */
  function FirstLink(path: seq<Element>): (r: Option<nat>)
    ensures r.Some? ==> r.value < |path| && PoiLinkClass in path[r.value].classes
    ensures r.Some? ==> forall j :: 0 <= j < r.value ==> PoiLinkClass !in path[j].classes
    ensures r.None? <==> forall j :: 0 <= j < |path| ==> PoiLinkClass !in path[j].classes
    decreases |path|
  {
    if path == [] then None
    else if PoiLinkClass in path[0].classes then Some(0)
    else
      var rest := FirstLink(path[1..]);
      assert forall j :: 1 <= j < |path| ==> path[j] == path[1..][j - 1];
      if rest.Some? then Some(rest.value + 1) else None
  }

  /** The image path the detail view uses: kept when absolute, else under `/images/`. */
  function ImagePath(imagePath: string): (r: string)
    ensures StartsWith(r, "/")
    ensures StartsWith(imagePath, "/") ==> r == imagePath
    ensures !StartsWith(imagePath, "/") ==> r == "/images/" + imagePath
  {
    if StartsWith(imagePath, "/") then imagePath else "/images/" + imagePath
  }

  /** Fixing a path that is already fixed changes nothing. */
  lemma ImagePathIdempotent(imagePath: string)
    ensures ImagePath(ImagePath(imagePath)) == ImagePath(imagePath)
  {
  }

  /** The `src` of the detail image: the path when cached, else the placeholder. */
  function ImageSource(imagePath: string, cached: bool): (src: string)
    ensures cached ==> src == ImagePath(imagePath)
    ensures !cached ==> src == PlaceholderImage
  {
    if cached then ImagePath(imagePath) else PlaceholderImage
  }

  /**
   * `isImageCached(path)`: opening the cache (which creates it when absent, last in
   * creation order) and matching the path; `false` when anything fails. Cache entries
   * are keyed by full URL, and `cache.match` resolves the path against the page's
   * `origin`.
   */
  method IsImageCached(storage: CacheStorage, origin: string, imagePath: string, fails: bool) returns (cached: bool)
    requires storage.Valid()
    modifies storage
    ensures storage.Valid()
    ensures fails ==> !cached && storage.caches == old(storage.caches) && storage.names == old(storage.names)
    ensures !fails ==>
              (cached <==> ImageCacheName in old(storage.caches) && origin + imagePath in old(storage.caches)[ImageCacheName])
    ensures !fails ==> storage.caches == Opened(old(storage.caches), ImageCacheName)
    ensures !fails ==> storage.names == if ImageCacheName in old(storage.caches) then old(storage.names)
                                        else old(storage.names) + [ImageCacheName]
  {
    if fails {
      return false;
    }
    storage.Open(ImageCacheName);
    cached := origin + imagePath in storage.caches[ImageCacheName];
  }

  /**
   * The cache the detail view looks images up in is not among the caches the service
   * worker keeps, so once the worker activates no image counts as cached.
   */
  lemma ImageCacheDroppedByWorker(caches: map<string, Cache>, imagePath: string)
    ensures ImageCacheName !in KeepOnly(caches, ServiceWorker.Whitelist)
  {
    assert ImageCacheName != ServiceWorker.CacheName;
  }

  class OfflineStoreState {
    /** Whether `db` holds an open database. */
    var db: bool
    var isOffline: bool
    /** The `pois` store. */
    var pois: map<string, StoredPoi>
    /** The paths pushed onto the browser history. */
    var history: seq<string>

    ghost predicate Valid()
      reads this
    {
      KeyConsistent(pois, StoredId)
    }

    /** The script's start state: offline when `navigator.onLine` is false. */
    constructor (onLine: bool, stored: map<string, StoredPoi>)
      requires KeyConsistent(stored, StoredId)
      ensures Valid() && !db && isOffline == !onLine && pois == stored && history == []
    {
      db := false;
      isOffline := !onLine;
      pois := stored;
      history := [];
    }

    /** `init()`: the open request succeeds (resolving) or fails (rejecting). */
    method Init(openOk: bool) returns (ok: bool)
      modifies this`db
      ensures ok <==> openOk
      ensures db == (old(db) || openOk)
    {
      if openOk {
        db := true;
      }
      ok := openOk;
    }

    /** `if (!db) await this.init()`: true when the operation may go on. */
    method EnsureOpen(openOk: bool) returns (ready: bool)
      modifies this`db
      ensures ready <==> old(db) || openOk
      ensures db == ready
    {
      if db {
        return true;
      }
      ready := Init(openOk);
    }

    /**
     * `storePOIs(pois)`: each POI is put by `id` without clearing the store; the promise
     * resolves `true` when the transaction completes and rejects otherwise.
     */
    method StorePOIs(added: seq<StoredPoi>, openOk: bool, txOk: bool) returns (r: Settled<bool>)
      requires Valid()
      modifies this`db, this`pois
      ensures Valid()
      ensures db <==> old(db) || openOk
      ensures r == Resolved(true) <==> (old(db) || openOk) && txOk
      ensures r != Resolved(true) ==> r.Rejected? && pois == old(pois)
      ensures r.Resolved? ==> pois == PutAll(old(pois), added, StoredId)
    {
      var ready := EnsureOpen(openOk);
      if !ready {
        return Rejected;
      }
      var staged := pois;
      var i := 0;
      while i < |added|
        invariant 0 <= i <= |added|
        invariant staged == PutAll(old(pois), added[..i], StoredId)
        invariant pois == old(pois) && db
      {
        PutAllSnoc(old(pois), added[..i], added[i], StoredId);
        assert added[..i + 1] == added[..i] + [added[i]];
        staged := staged[added[i].id := added[i]];
        i := i + 1;
      }
      assert added[..i] == added;
      if txOk {
        PutAllConsistent(old(pois), added, StoredId);
        pois := staged;
        r := Resolved(true);
      } else {
        r := Rejected;
      }
    }

    /** `getAllPOIs()`: every stored record, once each. */
    method GetAllPOIs(openOk: bool, requestOk: bool) returns (r: Settled<seq<StoredPoi>>)
      requires Valid()
      modifies this`db
      ensures db <==> old(db) || openOk
      ensures r.Resolved? <==> (old(db) || openOk) && requestOk
      ensures r.Resolved? ==> Enumerates(r.value, pois, StoredId)
    {
      var ready := EnsureOpen(openOk);
      if ready && requestOk {
        var all := GetAll(pois, StoredId);
        r := Resolved(all);
      } else {
        r := Rejected;
      }
    }

    /** `getPOI(id)`: the record stored under `id`, or `undefined` (here `None`). */
    method GetPOI(id: string, openOk: bool, requestOk: bool) returns (r: Settled<Option<StoredPoi>>)
      modifies this`db
      ensures db <==> old(db) || openOk
      ensures r.Resolved? <==> (old(db) || openOk) && requestOk
      ensures r.Resolved? ==> r.value == if id in pois then Some(pois[id]) else None
    {
      var ready := EnsureOpen(openOk);
      if ready && requestOk {
        r := Resolved(if id in pois then Some(pois[id]) else None);
      } else {
        r := Rejected;
      }
    }

    /** The `online` event. */
    method GoOnline()
      modifies this`isOffline
      ensures !isOffline
    {
      isOffline := false;
    }

    /** The `offline` event. */
    method GoOffline()
      modifies this`isOffline
      ensures isOffline
    {
      isOffline := true;
    }

    /**
     * The click handler, with `path` the chain from the clicked element up to the root.
     * Online, or off any POI link, the click is left alone. Otherwise the id is the last
     * `/`-separated segment of the link's `href`; a stored POI is shown (and its path
     * pushed onto the history), a missing one or a failed lookup gives a message.
     */
    method HandleClick(path: seq<Element>, openOk: bool, requestOk: bool) returns (outcome: ClickOutcome)
      modifies this`db, this`history
      ensures !isOffline || FirstLink(path).None? || path[FirstLink(path).value].href.None? ==>
                db == old(db) && history == old(history)
      ensures !isOffline || FirstLink(path).None? ==> outcome == Ignored
      ensures isOffline && FirstLink(path).Some? && path[FirstLink(path).value].href.Some? ==>
                db == (old(db) || openOk)
      ensures isOffline && FirstLink(path).Some? ==>
                var link := path[FirstLink(path).value];
                match link.href
                case None => outcome == Broken
                case Some(href) =>
                  var id := LastSegment(href, "/");
                  if !((old(db) || openOk) && requestOk) then
                    outcome == ShowMessage(LoadErrorMessage) && history == old(history)
                  else if id in pois then
                    outcome == ShowDetail(pois[id]) && history == old(history) + ["/poi/" + pois[id].id]
                  else
                    outcome == ShowMessage(NotAvailableMessage) && history == old(history)
    {
      if !isOffline {
        return Ignored;
      }
      var i := 0;
      while i < |path| && PoiLinkClass !in path[i].classes
        invariant 0 <= i <= |path|
        invariant forall j :: 0 <= j < i ==> PoiLinkClass !in path[j].classes
        invariant db == old(db) && history == old(history)
      {
        i := i + 1;
      }
      if i == |path| {
        return Ignored;
      }
      assert FirstLink(path) == Some(i);
      match path[i].href
      case None =>
        outcome := Broken;
      case Some(href) =>
        var id := LastSegment(href, "/");
        var found := GetPOI(id, openOk, requestOk);
        match found
        case Rejected =>
          outcome := ShowMessage(LoadErrorMessage);
        case Resolved(poi) =>
          if poi.Some? {
            history := history + ["/poi/" + poi.value.id];
            outcome := ShowDetail(poi.value);
          } else {
            outcome := ShowMessage(NotAvailableMessage);
          }
    }
  }

  /**
   * The id taken from a link to `base + "/" + id`, for an id without a slash, is that
   * id: a link rendered for a stored POI leads back to its record.
   */
  lemma IdOfLink(base: string, id: string)
    requires '/' !in id
    ensures LastSegment(base + "/" + id, "/") == id
  {
    assert base + "/" + id == base + ['/'] + id;
    SplitAfterLast(base, '/', id);
  }
}
