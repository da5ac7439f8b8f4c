/**
 * `window.VisitPolzelaOfflineStore`: the front end's offline copy of the catalog in the
 * `pois` IndexedDB store (keyed by `name`) and of the descriptions in the `descriptions`
 * store (keyed by `poiName`). Every operation resolves; none rejects.
 */
module FrontendOfflineStore {
  import opened Wrappers
  import opened PoiTypes
  import opened KeyedStore

  /**
   * How far a call gets with IndexedDB: not in the window, the open request fails, the
   * transaction or request fails, or everything works.
   */
  datatype Idb = Unsupported | OpenError | TxError | Available

  /** The object put into the `descriptions` store. */
  datatype DescriptionRecord = DescriptionRecord(poiName: string, text: string, timestamp: int)

  function DescriptionKey(r: DescriptionRecord): string {
    r.poiName
  }

  /** `initDB()`: resolves `true` exactly when the database opens. */
  function InitDB(idb: Idb): (ok: bool)
    ensures ok <==> !idb.Unsupported? && !idb.OpenError?
  {
    match idb
    case Unsupported => false
    case OpenError => false
    case TxError => true
    case Available => true
  }

  /** The text `getDescription` resolves to on a working database: the stored text, else `null`. */
  function DescriptionOf(store: map<string, DescriptionRecord>, poiName: string): (r: Option<string>)
    ensures r.Some? <==> poiName in store
  {
    if poiName in store then Some(store[poiName].text) else None
  }

  /**
   * Storing a description and reading it back gives the text stored; the descriptions of
   * other POIs are untouched, so a later store for the same POI replaces the text.
   */
  lemma DescriptionRoundTrip(store: map<string, DescriptionRecord>, poiName: string, text: string,
                             timestamp: int, other: string)
    ensures DescriptionOf(store[poiName := DescriptionRecord(poiName, text, timestamp)], poiName) == Some(text)
    ensures other != poiName ==>
              DescriptionOf(store[poiName := DescriptionRecord(poiName, text, timestamp)], other)
              == DescriptionOf(store, other)
  {
  }

  /**
   * The store after a clear and a put of `pois` holds exactly their names, and under
   * each name the last POI that has it.
   */
  lemma StoredExactly(pois: seq<Poi>, k: string, i: nat)
    ensures k in PutAll(map[], pois, PoiName) <==> exists j :: 0 <= j < |pois| && pois[j].name == k
    ensures i < |pois| && (forall j :: i < j < |pois| ==> pois[j].name != pois[i].name)
            ==> pois[i].name in PutAll(map[], pois, PoiName) && PutAll(map[], pois, PoiName)[pois[i].name] == pois[i]
  {
    PutAllKeys(map[], pois, PoiName, k);
    if i < |pois| && (forall j :: i < j < |pois| ==> pois[j].name != pois[i].name) {
      PutAllLastWins(map[], pois, PoiName, i);
    }
  }

  class VisitPolzelaOfflineStore {
    /** The `pois` store. */
    var poiStore: map<string, Poi>
    /** The `descriptions` store. */
    var descriptions: map<string, DescriptionRecord>

    ghost predicate Valid()
      reads this
    {
      KeyConsistent(poiStore, PoiName) && KeyConsistent(descriptions, DescriptionKey)
    }

    constructor (pois: map<string, Poi>, texts: map<string, DescriptionRecord>)
      requires KeyConsistent(pois, PoiName) && KeyConsistent(texts, DescriptionKey)
      ensures Valid() && poiStore == pois && descriptions == texts
    {
      poiStore := pois;
      descriptions := texts;
    }

    /**
     * `storePOIs(pois)`: in one transaction, clear the store and put each POI. The
     * transaction commits (resolving `true`) or has no effect (resolving `false`).
     */
    method StorePOIs(pois: seq<Poi>, idb: Idb) returns (ok: bool)
      requires Valid()
      modifies this`poiStore
      ensures Valid()
      ensures ok <==> idb.Available?
      ensures ok ==> poiStore == PutAll(map[], pois, PoiName)
      ensures !ok ==> poiStore == old(poiStore)
    {
      if idb.Unsupported? || idb.OpenError? {
        return false;
      }
      var staged: map<string, Poi> := map[];
      var i := 0;
      while i < |pois|
        invariant 0 <= i <= |pois|
        invariant staged == PutAll(map[], pois[..i], PoiName)
        invariant poiStore == old(poiStore)
      {
        PutAllSnoc(map[], pois[..i], pois[i], PoiName);
        assert pois[..i + 1] == pois[..i] + [pois[i]];
        staged := staged[pois[i].name := pois[i]];
        i := i + 1;
      }
      assert pois[..i] == pois;
      if idb.Available? {
        PutAllConsistent(map[], pois, PoiName);
        poiStore := staged;
        ok := true;
      } else {
        ok := false;
      }
    }

    /** `getPOIs()`: every stored POI on a working database, `[]` otherwise. */
    method GetPOIs(idb: Idb) returns (pois: seq<Poi>)
      requires Valid()
      ensures idb.Available? ==> Enumerates(pois, poiStore, PoiName)
      ensures !idb.Available? ==> pois == []
    {
      if idb.Available? {
        pois := GetAll(poiStore, PoiName);
      } else {
        pois := [];
      }
    }

    /** `storeDescription(poiName, description)` at time `now`. */
    method StoreDescription(poiName: string, description: string, now: int, idb: Idb) returns (ok: bool)
      requires Valid()
      modifies this`descriptions
      ensures Valid()
      ensures ok <==> idb.Available?
      ensures ok ==> descriptions == old(descriptions)[poiName := DescriptionRecord(poiName, description, now)]
      ensures !ok ==> descriptions == old(descriptions)
    {
      if idb.Available? {
        descriptions := descriptions[poiName := DescriptionRecord(poiName, description, now)];
        ok := true;
      } else {
        ok := false;
      }
    }

    /** `getDescription(poiName)`: the stored text, or `null` when absent or on any failure. */
    method GetDescription(poiName: string, idb: Idb) returns (text: Option<string>)
      requires Valid()
      ensures text == if idb.Available? then DescriptionOf(descriptions, poiName) else None
    {
      if idb.Available? && poiName in descriptions {
        text := Some(descriptions[poiName].text);
      } else {
        text := None;
      }
    }
  }
}
