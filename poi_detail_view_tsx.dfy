/**
 * The React detail view of one point of interest: the description in the selected
 * language, the choice of the localized record to show, the gallery sources and the
 * condition for the Apple Maps button.
 */
module PoiDetailViewTsx {
  import opened Wrappers
  import opened Text
  import opened PoiTypes
  import opened KeyedStore
  import opened DataService
  import PoiDetailViewJava

  /** The outcome of `fetch('/poi-descriptions/<name>.txt')` and `response.text()`. */
  datatype Response = Threw | NotOk | Fetched(text: string)

  const DescriptionMissing: string := "Description not available."
  const DescriptionError: string := "Error loading description."
  const DescriptionNotInLanguage: string := "Description not available in the selected language."
  const TakeMeDefault: string := "Take me there!"

  // ---------------------------------------------------------------------------
  // loadDescription
  // ---------------------------------------------------------------------------

  /** `loadDescription(poiName)` in the view's current language. */
  function LoadDescription(response: Response, language: Language): (r: string)
    ensures response.Threw? ==> r == DescriptionError
    ensures response.NotOk? ==> r == DescriptionMissing
  {
    match response
    case Threw => DescriptionError
    case NotOk => DescriptionMissing
    case Fetched(text) =>
      var lines := Split(text, "\n");
      var prefix := Code(language) + ":";
      var own := FirstWithPrefix(lines, prefix);
      if own.Some? then TrimJs(lines[own.value][|prefix|..])
      else
        var en := FirstWithPrefix(lines, "EN:");
        if en.Some? then TrimJs(lines[en.value][3..]) else DescriptionNotInLanguage
  }

  /**
   * The description is the trimmed rest of the first line tagged with the language; else
   * of the first line tagged `EN:`; else the not-in-language message.
   */
  lemma LoadDescriptionChoosesLine(text: string, language: Language, i: nat)
    ensures var lines := Split(text, "\n");
            var prefix := Code(language) + ":";
            var r := LoadDescription(Fetched(text), language);
            && (FirstStarting(lines, prefix, i) ==> r == TrimJs(lines[i][|prefix|..]))
            && (NoneStarting(lines, prefix) && FirstStarting(lines, "EN:", i) ==> r == TrimJs(lines[i][3..]))
            && (NoneStarting(lines, prefix) && NoneStarting(lines, "EN:") ==> r == DescriptionNotInLanguage)
  {
    var lines := Split(text, "\n");
    var prefix := Code(language) + ":";
    var own := FirstWithPrefix(lines, prefix);
    var en := FirstWithPrefix(lines, "EN:");
    if FirstStarting(lines, prefix, i) {
      assert own.Some?;
      assert own.value == i;
    }
    if NoneStarting(lines, prefix) && FirstStarting(lines, "EN:", i) {
      assert own.None?;
      assert en.Some?;
      assert en.value == i;
    }
  }

  // ---------------------------------------------------------------------------
  // The record shown, the gallery and the Apple button
  // ---------------------------------------------------------------------------

  /** `localizedPOIs.find(p => p.name === poiData.name) || poiData`. */
  function SelectDisplayed(localized: seq<Poi>, stored: Poi): (r: Poi)
    ensures r.name == stored.name
    ensures (forall i :: 0 <= i < |localized| ==> localized[i].name != stored.name) ==> r == stored
    ensures (exists i :: 0 <= i < |localized| && localized[i].name == stored.name) ==> r in localized
  {
    var found := Find(localized, PoiName, stored.name);
    if found.Some? then found.value else stored
  }

  /**
   * Looking a stored name up in the localized, sorted listing of the whole store finds
   * that name's record with its display name localized.
   */
  lemma FindLocalized(fetched: seq<Poi>, store: map<string, Poi>, titles: map<string, PoiTitle>,
                      language: Language, name: string)
    requires KeyConsistent(store, PoiName) && Enumerates(fetched, store, PoiName)
    requires name in store
    ensures Find(LocalizeAll(SortByOrder(fetched), titles, language), PoiName, name)
            == Some(Localize(store[name], titles, language))
  {
    var sorted := SortByOrder(fetched);
    var localized := LocalizeAll(sorted, titles, language);
    SortedHolds(fetched, sorted, store, name);
    var found := Find(localized, PoiName, name);
    assert found.Some? by {
      var j :| 0 <= j < |sorted| && PoiName(sorted[j]) == name;
      assert PoiName(localized[j]) == name;
    }
    var k :| 0 <= k < |localized| && localized[k] == found.value;
    assert PoiName(sorted[k]) == name;
  }

  /**
   * A permutation of an enumeration of the store holds the stored record under `name`,
   * and every record it holds under `name` is that one.
   */
  lemma SortedHolds(fetched: seq<Poi>, sorted: seq<Poi>, store: map<string, Poi>, name: string)
    requires KeyConsistent(store, PoiName) && Enumerates(fetched, store, PoiName)
    requires multiset(sorted) == multiset(fetched) && name in store
    ensures exists j :: 0 <= j < |sorted| && PoiName(sorted[j]) == name
    ensures forall k :: 0 <= k < |sorted| && PoiName(sorted[k]) == name ==> sorted[k] == store[name]
  {
    var i :| 0 <= i < |fetched| && PoiName(fetched[i]) == name;
    assert fetched[i] in multiset(sorted) by {
      assert fetched[i] in multiset(fetched);
    }
    var j :| 0 <= j < |sorted| && sorted[j] == fetched[i];
    forall k | 0 <= k < |sorted| && PoiName(sorted[k]) == name ensures sorted[k] == store[name] {
      assert sorted[k] in multiset(fetched) by {
        assert sorted[k] in multiset(sorted);
      }
      var m :| 0 <= m < |fetched| && fetched[m] == sorted[k];
    }
  }

  /** The gallery sources `/images/<name><i>.webp` for `i` = 1, 2, 3, in order. */
  function GallerySources(name: string): seq<string> {
    seq(3, i requires 0 <= i < 3 => "/images/" + name + [('1' as int + i) as char] + ".webp")
  }

  /**
   * For a record whose image file is its name with `.webp`, the React gallery offers the
   * same three paths as the Java view's candidates.
   */
  lemma GalleryAgreesWithJavaView(name: string)
    requires '.' !in name
    ensures GallerySources(name) == PoiDetailViewJava.GalleryCandidates(name + ".webp")
  {
    PoiDetailViewJava.GalleryOfWebpImage(name);
    var pre := "/images/" + name;
    assert ('1' as int + 0) as char == '1' && ('1' as int + 1) as char == '2' && ('1' as int + 2) as char == '3';
    assert pre + ['1'] + ".webp" == pre + "1.webp";
    assert pre + ['2'] + ".webp" == pre + "2.webp";
    assert pre + ['3'] + ".webp" == pre + "3.webp";
  }

  /** `poi.appleNavigationUrl && poi.appleNavigationUrl !== poi.navigationUrl`. */
  predicate ShowAppleButton(p: Poi) {
    Truthy(p.appleNavigationUrl) && p.appleNavigationUrl != p.navigationUrl
  }

  /**
   * For a record read from the catalog, the Apple button appears exactly when the line
   * has a non-empty sixth field that differs from the fifth.
   */
  lemma AppleButtonOfCatalogLine(line: string, index: nat)
    ensures var parts := Split(line, ";");
            ShowAppleButton(PoiOfLine(line, index))
            <==> |parts| > 5 && parts[5] != "" && Some(parts[5]) != Field(parts, 4)
  {
  }

  // ---------------------------------------------------------------------------
  // loadPOI
  // ---------------------------------------------------------------------------

  /** The React state of the view. */
  class DetailState {
    var poi: Option<Poi>
    var description: string
    var takeMeText: string
    var loading: bool

    /** The initial state, before the first load. */
    constructor ()
      ensures poi == None && description == "" && takeMeText == TakeMeDefault && loading
    {
      poi := None;
      description := "";
      takeMeText := TakeMeDefault;
      loading := true;
    }

    /**
     * `loadPOI(poiName)` for the already decoded name, with `descriptionOf(n)` the outcome
     * of fetching POI `n`'s description. A stored POI is shown localized, with its
     * description and label; an unknown name leaves the state as it was.
     */
    method LoadPOI(service: DataService, poiName: string, language: Language, descriptionOf: string -> Response)
      requires service.Valid()
      modifies this
      ensures !loading
      ensures poiName !in service.poiStore ==>
                poi == old(poi) && description == old(description) && takeMeText == old(takeMeText)
      ensures poiName in service.poiStore ==>
                && poi == Some(Localize(service.poiStore[poiName], service.titleStore, language))
                && description == LoadDescription(descriptionOf(poiName), language)
                && takeMeText == if "takeme" in service.titleStore
                                 then TitleText(service.titleStore["takeme"], language, Some("takeme")).value
                                 else "takeme"
    {
      loading := true;
      var poiData := service.GetPOIByName(poiName);
      if poiData.Some? {
        var localizedPOIs: seq<Poi>;
        ghost var fetched: seq<Poi>;
        localizedPOIs, fetched := service.GetPOIsWithLocalizedTitles(language);
        FindLocalized(fetched, service.poiStore, service.titleStore, language, poiName);
        poi := Some(SelectDisplayed(localizedPOIs, poiData.value));
        description := LoadDescription(descriptionOf(poiData.value.name), language);
        takeMeText := service.GetLocalizedText("takeme", language);
      }
      loading := false;
    }
  }
}
