/**
 * The Java `OfflineStorageService`: it converts the server's points of interest into
 * JSON records and has the browser put them into the `pois` IndexedDB store (keyed by
 * `id`), or read that store back.
 */
module OfflineStorageService {
  import opened Wrappers
  import opened KeyedStore
  import opened PointOfInterestEntity

  /** The JSON object written for one POI: exactly these six properties. */
  datatype PoiRecord = PoiRecord(
    id: string,
    name: string,
    description: string,
    mainImagePath: string,
    mapUrl: string,
    navigationUrl: string)

  /** The `keyPath` of the store. */
  function RecordId(r: PoiRecord): string {
    r.id
  }

  /** The record of one POI: keyed and named by the POI's name, the other fields copied. */
  function RecordOf(poi: PointOfInterest): (r: PoiRecord)
    ensures r.id == r.name == poi.name
    ensures r.description == poi.description && r.mainImagePath == poi.imagePath
    ensures r.mapUrl == poi.mapUrl && r.navigationUrl == poi.navigationUrl
  {
    PoiRecord(poi.name, poi.name, poi.description, poi.imagePath, poi.mapUrl, poi.navigationUrl)
  }

  /** The records of `pois`, one per POI and in the same order. */
  function Records(pois: seq<PointOfInterest>): (rs: seq<PoiRecord>)
    ensures |rs| == |pois|
    ensures forall i :: 0 <= i < |pois| ==> rs[i] == RecordOf(pois[i])
  {
    seq(|pois|, i requires 0 <= i < |pois| => RecordOf(pois[i]))
  }

  /** `convertPOIsToJsonArray(pois)`: element `i` of the array is the record of `pois[i]`. */
  method ConvertPOIsToJsonArray(pois: seq<PointOfInterest>) returns (jsonArray: seq<PoiRecord>)
    ensures jsonArray == Records(pois)
  {
    jsonArray := [];
    var i := 0;
    while i < |pois|
      invariant 0 <= i <= |pois|
      invariant jsonArray == Records(pois[..i])
    {
      var poi := pois[i];
      var poiJson := PoiRecord(poi.name, poi.name, poi.description, poi.imagePath, poi.mapUrl, poi.navigationUrl);
      jsonArray := jsonArray + [poiJson];
      i := i + 1;
    }
    assert pois[..i] == pois;
  }

  /**
   * What the page offers the script: no current UI, no `indexedDB` in the window, an
   * open or transaction step that fails, or a working database.
   */
  datatype Page = NoUI | NoIndexedDB | DbFails | DbWorks

  /**
   * After a successful put of `pois`, every POI's name is a key; the last POI with a
   * name is the record under it; and a key none of them carries keeps its record.
   */
  lemma StoredRecords(m: map<string, PoiRecord>, pois: seq<PointOfInterest>, i: nat, k: string)
    requires i < |pois| && forall j :: i < j < |pois| ==> pois[j].name != pois[i].name
    ensures pois[i].name in PutAll(m, Records(pois), RecordId)
            && PutAll(m, Records(pois), RecordId)[pois[i].name] == RecordOf(pois[i])
    ensures k in m && (forall j :: 0 <= j < |pois| ==> pois[j].name != k)
            ==> k in PutAll(m, Records(pois), RecordId) && PutAll(m, Records(pois), RecordId)[k] == m[k]
  {
    var rs := Records(pois);
    PutAllLastWins(m, rs, RecordId, i);
    if k in m && (forall j :: 0 <= j < |pois| ==> pois[j].name != k) {
      PutAllKeeps(m, rs, RecordId, k);
    }
  }

  // ---------------------------------------------------------------------------
  // The embedded scripts as written
  // ---------------------------------------------------------------------------

  /** How far an embedded script gets: not run without a UI, skipped without IndexedDB. */
  datatype ScriptRun = NotRun | Skipped | Threw

  /** How the promise a `PendingJavaScriptResult` carries settles; `NoResult` is `null`. */
  datatype Pending<T> = NoResult | Resolves(value: T) | Rejects

  /**
   * The `storePOIs` script as written. `indexedDB.open` returns an `IDBOpenDBRequest`,
   * which has no `then`, so on a page with IndexedDB the `dbPromise.then(...)` call
   * throws a TypeError before any transaction exists: whether or not the database would
   * open, nothing is put.
   */
  function StorePOIsScriptAsWritten(page: Page): (run: ScriptRun)
    ensures run == NotRun <==> page.NoUI?
    ensures run == Skipped <==> page.NoIndexedDB?
    ensures run == Threw <==> page.DbFails? || page.DbWorks?
  {
    match page
    case NoUI => NotRun
    case NoIndexedDB => Skipped
    case _ => Threw
  }

  /**
   * The `getPOIs` script as written: `[]` without IndexedDB; otherwise the promise
   * executor throws at `dbPromise.then`, so the promise rejects, its `catch` never being
   * reached.
   */
  function GetPOIsAsWritten(page: Page): (r: Pending<seq<PoiRecord>>)
    ensures r.NoResult? <==> page.NoUI?
    ensures r.Resolves? <==> page.NoIndexedDB?
    ensures r.Resolves? ==> r.value == []
    ensures page.DbFails? || page.DbWorks? ==> r.Rejects?
  {
    match page
    case NoUI => NoResult
    case NoIndexedDB => Resolves([])
    case _ => Rejects
  }

  /**
   * On a working database the `storePOIs` script as written throws, so the store keeps
   * lacking a POI name it lacked, while the promise-based reading the script is written
   * for (the `StorePOIs` method) files that POI under its name.
   */
  lemma StoreAsWrittenLosesRecords(m: map<string, PoiRecord>, pois: seq<PointOfInterest>, i: nat)
    requires i < |pois| && pois[i].name !in m
    ensures StorePOIsScriptAsWritten(DbWorks) == Threw
    ensures pois[i].name in PutAll(m, Records(pois), RecordId)
  {
    PutAllKeys(m, Records(pois), RecordId, pois[i].name);
    assert RecordId(Records(pois)[i]) == pois[i].name;
  }

  /**
   * On a working database with records in it the `getPOIs` script as written rejects,
   * while the promise-based reading (the `GetPOIs` method) lists a record.
   */
  lemma GetAsWrittenRejects(m: map<string, PoiRecord>, listing: seq<PoiRecord>)
    requires Enumerates(listing, m, RecordId) && m != map[]
    ensures GetPOIsAsWritten(DbWorks) == Rejects
    ensures listing != []
  {
    EnumeratesEmpty(listing, m, RecordId);
  }

  /** `isOnline()`: the pending result of `navigator.onLine`, `null` without a UI. */
  function IsOnline(page: Page, onLine: bool): (r: Option<bool>)
    ensures r.None? <==> page.NoUI?
    ensures r.Some? ==> r.value == onLine
  {
    if page.NoUI? then None else Some(onLine)
  }

  class OfflineStorageService {
    /** The browser's `pois` store of the `visit-polzela-db` database. */
    var idbStore: map<string, PoiRecord>

    ghost predicate Valid()
      reads this
    {
      KeyConsistent(idbStore, RecordId)
    }

    constructor (store: map<string, PoiRecord>)
      requires KeyConsistent(store, RecordId)
      ensures Valid() && idbStore == store
    {
      idbStore := store;
    }

    /**
     * `storePOIs(pois)` as the script is evidently meant to run, on a promise-returning
     * `open` in the style of the `idb` library: without a UI nothing happens; otherwise
     * the records are put one by one without clearing, and the transaction commits only
     * when every step works.
     */
    method StorePOIs(pois: seq<PointOfInterest>, page: Page)
      requires Valid()
      modifies this`idbStore
      ensures Valid()
      ensures page.DbWorks? ==> idbStore == PutAll(old(idbStore), Records(pois), RecordId)
      ensures !page.DbWorks? ==> idbStore == old(idbStore)
    {
      if page.NoUI? {
        return;
      }
      var poisArray := ConvertPOIsToJsonArray(pois);
      if page.DbWorks? {
        ghost var start := idbStore;
        var i := 0;
        while i < |poisArray|
          invariant 0 <= i <= |poisArray|
          invariant idbStore == PutAll(start, poisArray[..i], RecordId)
        {
          PutAllSnoc(start, poisArray[..i], poisArray[i], RecordId);
          assert poisArray[..i + 1] == poisArray[..i] + [poisArray[i]];
          idbStore := idbStore[poisArray[i].id := poisArray[i]];
          i := i + 1;
        }
        assert poisArray[..i] == poisArray;
        PutAllConsistent(start, poisArray, RecordId);
      }
    }

    /**
     * `getPOIs()` as the script is evidently meant to run, on a promise-returning `open`
     * and `getAll`: `null` without a UI; otherwise the value the promise resolves to,
     * every stored record, or `[]` when IndexedDB is absent or a step fails.
     */
    method GetPOIs(page: Page) returns (r: Option<seq<PoiRecord>>)
      requires Valid()
      ensures r.None? <==> page.NoUI?
      ensures page.NoIndexedDB? || page.DbFails? ==> r == Some([])
      ensures page.DbWorks? ==> r.Some? && Enumerates(r.value, idbStore, RecordId)
    {
      if page.NoUI? {
        return None;
      }
      if page.DbWorks? {
        var pois := GetAll(idbStore, RecordId);
        r := Some(pois);
      } else {
        r := Some([]);
      }
    }
  }
}
