/**
 * The React front end's data service: it parses the static catalog and title files,
 * mirrors them into the `pois` and `titles` IndexedDB stores (both keyed by `name`),
 * resolves localized titles and decides when the catalog must be reloaded.
 */
module DataService {
  import opened Wrappers
  import opened Text
  import opened PoiTypes
  import opened KeyedStore

  /** `DATA_VERSION.toString()`: the catalog version the stored data must carry. */
  const DataVersion: string := "7"

  // ---------------------------------------------------------------------------
  // Parsing pois.txt
  // ---------------------------------------------------------------------------

  /** `parts[k]`, `undefined` past the end. */
  function Field(parts: seq<string>, k: nat): (v: Option<string>)
    ensures v.Some? <==> k < |parts|
    ensures v.Some? ==> v.value == parts[k]
  {
    if k < |parts| then Some(parts[k]) else None
  }

  /** The lines of the fetched text: `text.trim().split('\n')`. */
  function CatalogLines(text: string): seq<string> {
    Split(TrimJs(text), "\n")
  }

  /** The record built from line `index` of pois.txt. */
  function PoiOfLine(line: string, index: nat): Poi {
    var parts := Split(line, ";");
    Poi(
      name := parts[0],
      displayName := Field(parts, 1),
      description := Field(parts, 2),
      imagePath := "/images/" + parts[0] + ".webp",
      mapUrl := Field(parts, 3),
      navigationUrl := Field(parts, 4),
      appleNavigationUrl := Or(Field(parts, 5), Field(parts, 4)),
      order := index)
  }

  /** `lines.map((line, index) => ...)` over the lines of the fetched text. */
  function PoisOfText(text: string): seq<Poi> {
    var lines := CatalogLines(text);
    seq(|lines|, i requires 0 <= i < |lines| => PoiOfLine(lines[i], i))
  }

  /**
   * One record per line of the trimmed text, in file order: the lines rebuild the
   * text, record `i` carries `order == i`, its name is the text of line `i` before the
   * first `;`, its image path is derived from that name, and its Apple URL is field 5
   * when that is present and non-empty, else field 4.
   */
  lemma PoisOfTextFacts(text: string, i: nat)
    requires i < |CatalogLines(text)|
    ensures |PoisOfText(text)| == |CatalogLines(text)|
    ensures Join(CatalogLines(text), "\n") == TrimJs(text)
    ensures var p := PoisOfText(text)[i];
            var line := CatalogLines(text)[i];
            var parts := Split(line, ";");
            && p.order == i
            && p.name == parts[0] && Free(p.name, ";")
            && (line == p.name || StartsWith(line, p.name + ";"))
            && p.imagePath == "/images/" + p.name + ".webp"
            && p.displayName == Field(parts, 1)
            && p.description == Field(parts, 2)
            && p.mapUrl == Field(parts, 3)
            && p.navigationUrl == Field(parts, 4)
            && p.appleNavigationUrl == (if |parts| > 5 && parts[5] != "" then Some(parts[5]) else Field(parts, 4))
  {
    var line := CatalogLines(text)[i];
    var parts := Split(line, ";");
    JoinSplit(TrimJs(text), "\n");
    JoinSplit(line, ";");
    SplitFieldsFree(line, ";");
    if |parts| > 1 {
      assert line == parts[0] + ";" + Join(parts[1..], ";");
      assert line[..|parts[0]| + 1] == parts[0] + ";";
    }
  }

  // ---------------------------------------------------------------------------
  // Parsing poititles.txt
  // ---------------------------------------------------------------------------

  /** A title row before any language part is read. */
  function Untitled(name: string): PoiTitle {
    PoiTitle(name, "", "", "", "")
  }

  /** One pass of the loop over the parts of a title row. */
  function ApplyPart(t: PoiTitle, raw: string): PoiTitle {
    var part := TrimJs(raw);
    if StartsWith(part, "EN:") then t.(en := part[3..])
    else if StartsWith(part, "SL:") then t.(sl := part[3..])
    else if StartsWith(part, "DE:") then t.(de := part[3..])
    else if StartsWith(part, "NL:") then t.(nl := part[3..])
    else t
  }

  /** The loop over `parts`, left to right. */
  function ApplyParts(t: PoiTitle, parts: seq<string>): PoiTitle
    decreases |parts|
  {
    if parts == [] then t else ApplyPart(ApplyParts(t, parts[..|parts| - 1]), Last(parts))
  }

  /** The title record of a row: its name and the language parts after it. */
  function TitleOfLine(line: string): PoiTitle {
    var parts := Split(line, ";");
    ApplyParts(Untitled(parts[0]), parts[1..])
  }

  /** The rest of the last trimmed part carrying `tag`, or `dflt` when no part carries it. */
  function LastTagged(parts: seq<string>, tag: string, dflt: string): string
    decreases |parts|
  {
    if parts == [] then dflt
    else
      var part := TrimJs(Last(parts));
      if StartsWith(part, tag) then part[|tag|..] else LastTagged(parts[..|parts| - 1], tag, dflt)
  }

  /**
   * Each language field is set from the last part with that language's prefix; parts
   * with another prefix change nothing, and a language no part carries keeps its value.
   */
  lemma {:induction false} ApplyPartsFields(t: PoiTitle, parts: seq<string>)
    ensures ApplyParts(t, parts) == PoiTitle(
      t.name,
      LastTagged(parts, "EN:", t.en),
      LastTagged(parts, "SL:", t.sl),
      LastTagged(parts, "DE:", t.de),
      LastTagged(parts, "NL:", t.nl))
    decreases |parts|
  {
    if parts != [] {
      ApplyPartsFields(t, parts[..|parts| - 1]);
    }
  }

  /** A title row's fields: `name` is its first field, each language its last tagged part. */
  lemma TitleOfLineFields(line: string)
    ensures var parts := Split(line, ";");
            TitleOfLine(line) == PoiTitle(
              parts[0],
              LastTagged(parts[1..], "EN:", ""),
              LastTagged(parts[1..], "SL:", ""),
              LastTagged(parts[1..], "DE:", ""),
              LastTagged(parts[1..], "NL:", ""))
  {
    var parts := Split(line, ";");
    ApplyPartsFields(Untitled(parts[0]), parts[1..]);
  }

  /** The callback of `lines.map(line => ...)` in `loadTitlesFromStatic`. */
  method ParseTitleRow(line: string) returns (title: PoiTitle)
    ensures title == TitleOfLine(line)
  {
    var parts := Split(line, ";");
    title := PoiTitle(parts[0], "", "", "", "");
    var i := 1;
    while i < |parts|
      invariant 1 <= i <= |parts|
      invariant title == ApplyParts(Untitled(parts[0]), parts[1..i])
    {
      var part := TrimJs(parts[i]);
      if StartsWith(part, "EN:") {
        title := title.(en := part[3..]);
      } else if StartsWith(part, "SL:") {
        title := title.(sl := part[3..]);
      } else if StartsWith(part, "DE:") {
        title := title.(de := part[3..]);
      } else if StartsWith(part, "NL:") {
        title := title.(nl := part[3..]);
      }
      assert parts[1..i + 1][..i - 1] == parts[1..i];
      i := i + 1;
    }
    assert parts[1..i] == parts[1..];
  }

  /** The title records of the fetched text, one per line. */
  function TitlesOfText(text: string): seq<PoiTitle> {
    var lines := CatalogLines(text);
    seq(|lines|, i requires 0 <= i < |lines| => TitleOfLine(lines[i]))
  }

  // ---------------------------------------------------------------------------
  // Localization
  // ---------------------------------------------------------------------------

  /** `title[lang] || title.en || fallback`: the requested language, else English, else the fallback. */
  function TitleText(t: PoiTitle, l: Language, fallback: Option<string>): (r: Option<string>)
    ensures r == if TitleIn(t, l) != "" then Some(TitleIn(t, l))
                 else if t.en != "" then Some(t.en)
                 else fallback
  {
    Or(Or(Some(TitleIn(t, l)), Some(t.en)), fallback)
  }

  /** The mapped record of `getPOIsWithLocalizedTitles`: only `displayName` may change. */
  function Localize(p: Poi, titles: map<string, PoiTitle>, l: Language): (r: Poi)
    ensures r == p.(displayName := r.displayName)
    ensures p.name !in titles ==> r == p
    ensures p.name in titles ==> r.displayName == TitleText(titles[p.name], l, p.displayName)
  {
    if p.name in titles then p.(displayName := TitleText(titles[p.name], l, p.displayName)) else p
  }

  function LocalizeAll(ps: seq<Poi>, titles: map<string, PoiTitle>, l: Language): (r: seq<Poi>)
    ensures |r| == |ps|
    ensures forall i :: 0 <= i < |ps| ==> r[i] == Localize(ps[i], titles, l)
  {
    seq(|ps|, i requires 0 <= i < |ps| => Localize(ps[i], titles, l))
  }

  // ---------------------------------------------------------------------------
  // Sorting by `order` (Array.prototype.sort with `(a, b) => a.order - b.order`)
  // ---------------------------------------------------------------------------

  ghost predicate SortedByOrder(s: seq<Poi>) {
    forall i, j :: 0 <= i < j < |s| ==> s[i].order <= s[j].order
  }

  function InsertByOrder(p: Poi, s: seq<Poi>): (r: seq<Poi>)
    requires SortedByOrder(s)
    ensures SortedByOrder(r)
    ensures multiset(r) == multiset(s) + multiset{p}
    ensures |r| == |s| + 1
  {
    if s == [] || p.order <= s[0].order then
      InsertFront(p, s);
      [p] + s
    else
      SortedTail(s);
      var rest := InsertByOrder(p, s[1..]);
      InsertBehind(p, s, rest);
      [s[0]] + rest
  }

  /** A record ordered no later than the first of a sorted sequence can go in front. */
  lemma InsertFront(p: Poi, s: seq<Poi>)
    requires SortedByOrder(s) && (s == [] || p.order <= s[0].order)
    ensures SortedByOrder([p] + s)
  {
    var r := [p] + s;
    forall i, j | 0 <= i < j < |r| ensures r[i].order <= r[j].order {
      if i == 0 && j > 1 {
        assert r[j] == s[j - 1] && s[0].order <= s[j - 1].order;
      }
    }
  }

  lemma SortedTail(s: seq<Poi>)
    requires SortedByOrder(s) && s != []
    ensures SortedByOrder(s[1..])
  {
    var tail := s[1..];
    forall i, j | 0 <= i < j < |tail| ensures tail[i].order <= tail[j].order {
      assert tail[i] == s[i + 1] && tail[j] == s[j + 1];
    }
  }

  /** Inserting behind the first record keeps it first and the whole sorted. */
  lemma InsertBehind(p: Poi, s: seq<Poi>, rest: seq<Poi>)
    requires SortedByOrder(s) && s != [] && s[0].order < p.order
    requires SortedByOrder(rest) && multiset(rest) == multiset(s[1..]) + multiset{p}
    ensures SortedByOrder([s[0]] + rest)
    ensures multiset([s[0]] + rest) == multiset(s) + multiset{p}
  {
    assert s == [s[0]] + s[1..];
    forall j | 0 <= j < |rest| ensures s[0].order <= rest[j].order {
      assert rest[j] in multiset(rest);
      if rest[j] != p {
        assert rest[j] in s[1..];
        var k :| 0 <= k < |s[1..]| && s[1..][k] == rest[j];
        assert s[k + 1] == rest[j];
      }
    }
    var r := [s[0]] + rest;
    forall i, j | 0 <= i < j < |r| ensures r[i].order <= r[j].order {
      if i == 0 {
        assert r[j] == rest[j - 1];
      } else {
        assert r[i] == rest[i - 1] && r[j] == rest[j - 1];
      }
    }
  }

  /** A stable sort of `s` by ascending `order`: sorted, and a permutation of `s`. */
  function SortByOrder(s: seq<Poi>): (r: seq<Poi>)
    ensures SortedByOrder(r)
    ensures multiset(r) == multiset(s)
    ensures |r| == |s|
  {
    if s == [] then []
    else
      assert s == [s[0]] + s[1..];
      InsertByOrder(s[0], SortByOrder(s[1..]))
  }

  /** The records of `s` whose `order` is `v`, in their order in `s`. */
  function WithOrder(s: seq<Poi>, v: nat): seq<Poi>
    decreases |s|
  {
    if s == [] then [] else (if s[0].order == v then [s[0]] else []) + WithOrder(s[1..], v)
  }

  /** Inserting puts `p` before every record of the same `order` and moves no other tie. */
  lemma {:induction false} InsertKeepsTies(p: Poi, s: seq<Poi>, v: nat)
    requires SortedByOrder(s)
    ensures WithOrder(InsertByOrder(p, s), v) == (if p.order == v then [p] else []) + WithOrder(s, v)
    decreases |s|
  {
    if s == [] || p.order <= s[0].order {
      assert ([p] + s)[1..] == s;
    } else {
      SortedTail(s);
      var rest := InsertByOrder(p, s[1..]);
      InsertKeepsTies(p, s[1..], v);
      assert ([s[0]] + rest)[1..] == rest;
      assert s[0].order != v || p.order != v;
    }
  }

  /**
   * The sort is stable, as JavaScript's `Array.prototype.sort` is: the records that
   * share an `order` keep their relative order.
   */
  lemma {:induction false} SortByOrderStable(s: seq<Poi>, v: nat)
    ensures WithOrder(SortByOrder(s), v) == WithOrder(s, v)
    decreases |s|
  {
    if s != [] {
      SortByOrderStable(s[1..], v);
      InsertKeepsTies(s[0], SortByOrder(s[1..]), v);
    }
  }

  // ---------------------------------------------------------------------------
  // The service and its stores
  // ---------------------------------------------------------------------------

  class DataService {
    /** The `pois` object store, keyed by `name`. */
    var poiStore: map<string, Poi>
    /** The `titles` object store, keyed by `name`. */
    var titleStore: map<string, PoiTitle>
    /** `localStorage.getItem('data-version')`, `None` when unset. */
    var storedVersion: Option<string>

    ghost predicate Valid()
      reads this
    {
      KeyConsistent(poiStore, PoiName) && KeyConsistent(titleStore, TitleName)
    }

    /** The service over the stores and local storage the browser already holds. */
    constructor (pois: map<string, Poi>, titles: map<string, PoiTitle>, version: Option<string>)
      requires KeyConsistent(pois, PoiName) && KeyConsistent(titles, TitleName)
      ensures Valid()
      ensures poiStore == pois && titleStore == titles && storedVersion == version
    {
      poiStore := pois;
      titleStore := titles;
      storedVersion := version;
    }

    /** `for (const poi of pois) await tx.store.put(poi)`. */
    method PutPois(pois: seq<Poi>)
      requires Valid()
      modifies this`poiStore
      ensures Valid()
      ensures poiStore == PutAll(old(poiStore), pois, PoiName)
    {
      ghost var start := poiStore;
      var i := 0;
      while i < |pois|
        invariant 0 <= i <= |pois|
        invariant poiStore == PutAll(start, pois[..i], PoiName)
      {
        PutAllSnoc(start, pois[..i], pois[i], PoiName);
        assert pois[..i + 1] == pois[..i] + [pois[i]];
        poiStore := poiStore[pois[i].name := pois[i]];
        i := i + 1;
      }
      assert pois[..i] == pois;
      PutAllConsistent(start, pois, PoiName);
    }

    /** `for (const title of titles) await tx.store.put(title)`. */
    method PutTitles(titles: seq<PoiTitle>)
      requires Valid()
      modifies this`titleStore
      ensures Valid()
      ensures titleStore == PutAll(old(titleStore), titles, TitleName)
    {
      ghost var start := titleStore;
      var i := 0;
      while i < |titles|
        invariant 0 <= i <= |titles|
        invariant titleStore == PutAll(start, titles[..i], TitleName)
      {
        PutAllSnoc(start, titles[..i], titles[i], TitleName);
        assert titles[..i + 1] == titles[..i] + [titles[i]];
        titleStore := titleStore[titles[i].name := titles[i]];
        i := i + 1;
      }
      assert titles[..i] == titles;
      PutAllConsistent(start, titles, TitleName);
    }

    /** `db.getAll(POI_STORE)`. */
    method GetPOIsFromDB() returns (pois: seq<Poi>)
      requires Valid()
      ensures Enumerates(pois, poiStore, PoiName)
    {
      pois := GetAll(poiStore, PoiName);
    }

    /** `db.getAll(TITLES_STORE)`. */
    method GetTitlesFromDB() returns (titles: seq<PoiTitle>)
      requires Valid()
      ensures Enumerates(titles, titleStore, TitleName)
    {
      titles := GetAll(titleStore, TitleName);
    }

    /** `db.get(POI_STORE, name)`. */
    function GetPOIByName(name: string): (r: Option<Poi>)
      requires Valid()
      reads this
      ensures r.Some? <==> name in poiStore
      ensures r.Some? ==> r.value == poiStore[name] && r.value.name == name
    {
      if name in poiStore then Some(poiStore[name]) else None
    }

    /**
     * `loadPOIsFromStatic`. `response` is the text of the fetched file, `None` when the
     * fetch rejects. On success the records are put (without clearing) and returned;
     * otherwise the store is left as it is and its records are returned.
     */
    method LoadPOIsFromStatic(response: Option<string>) returns (pois: seq<Poi>)
      requires Valid()
      modifies this`poiStore
      ensures Valid()
      ensures response.Some? ==> pois == PoisOfText(response.value)
                                 && poiStore == PutAll(old(poiStore), pois, PoiName)
      ensures response.None? ==> poiStore == old(poiStore) && Enumerates(pois, poiStore, PoiName)
    {
      if response.Some? {
        pois := PoisOfText(response.value);
        PutPois(pois);
      } else {
        pois := GetPOIsFromDB();
      }
    }

    /** `loadTitlesFromStatic`, with the same fallback. */
    method LoadTitlesFromStatic(response: Option<string>) returns (titles: seq<PoiTitle>)
      requires Valid()
      modifies this`titleStore
      ensures Valid()
      ensures response.Some? ==> titles == TitlesOfText(response.value)
                                 && titleStore == PutAll(old(titleStore), titles, TitleName)
      ensures response.None? ==> titleStore == old(titleStore) && Enumerates(titles, titleStore, TitleName)
    {
      if response.Some? {
        var lines := CatalogLines(response.value);
        titles := [];
        var i := 0;
        while i < |lines|
          invariant 0 <= i <= |lines|
          invariant titles == TitlesOfText(response.value)[..i]
          invariant titleStore == old(titleStore)
        {
          var title := ParseTitleRow(lines[i]);
          titles := titles + [title];
          i := i + 1;
        }
        PutTitles(titles);
      } else {
        titles := GetTitlesFromDB();
      }
    }

    /**
     * `getPOIsWithLocalizedTitles`: the stored records (`fetched`, in the order the store
     * yields them) sorted by `order`, each with its display name localized.
     */
    method GetPOIsWithLocalizedTitles(language: Language) returns (r: seq<Poi>, ghost fetched: seq<Poi>)
      requires Valid()
      ensures Enumerates(fetched, poiStore, PoiName)
      ensures r == LocalizeAll(SortByOrder(fetched), titleStore, language)
      ensures SortedByOrder(r) && |r| == |fetched|
    {
      var pois := GetPOIsFromDB();
      var titles := GetTitlesFromDB();
      fetched := pois;
      var sorted := SortByOrder(pois);
      r := seq(|sorted|, i requires 0 <= i < |sorted| =>
             var title := Find(titles, TitleName, sorted[i].name);
             if title.Some? then sorted[i].(displayName := TitleText(title.value, language, sorted[i].displayName))
             else sorted[i]);
      forall i | 0 <= i < |sorted| ensures r[i] == Localize(sorted[i], titleStore, language) {
        FindInEnumeration(titles, titleStore, TitleName, sorted[i].name);
      }
    }

    /** `getLocalizedText(key, language)`: the key's title in the language, else English, else the key. */
    method GetLocalizedText(key: string, language: Language) returns (text: string)
      requires Valid()
      ensures key !in titleStore ==> text == key
      ensures key in titleStore ==> Some(text) == TitleText(titleStore[key], language, Some(key))
    {
      var titles := GetTitlesFromDB();
      var title := Find(titles, TitleName, key);
      FindInEnumeration(titles, titleStore, TitleName, key);
      if title.Some? {
        text := TitleText(title.value, language, Some(key)).value;
      } else {
        text := key;
      }
    }

    /**
     * `initializeData`: reload the titles, then reload the catalog exactly when the stored
     * version is not the current one or the catalog store is empty, and record the version.
     */
    method InitializeData(titlesResponse: Option<string>, poisResponse: Option<string>)
      requires Valid()
      modifies this`poiStore, this`titleStore, this`storedVersion
      ensures Valid()
      ensures storedVersion == Some(DataVersion)
      ensures titleStore == if titlesResponse.Some? then PutAll(old(titleStore), TitlesOfText(titlesResponse.value), TitleName)
                            else old(titleStore)
      ensures var reload := old(storedVersion) != Some(DataVersion) || old(poiStore) == map[];
              poiStore == if reload && poisResponse.Some? then PutAll(old(poiStore), PoisOfText(poisResponse.value), PoiName)
                          else old(poiStore)
    {
      var _ := LoadTitlesFromStatic(titlesResponse);
      var current := DataVersion;
      var pois := GetPOIsFromDB();
      EnumeratesEmpty(pois, poiStore, PoiName);
      if storedVersion != Some(current) || |pois| == 0 {
        var _ := LoadPOIsFromStatic(poisResponse);
        storedVersion := Some(current);
      }
    }
  }
}
