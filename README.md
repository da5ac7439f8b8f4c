# Visit Polzela: a verified model of the catalog, localization and offline core

Visit Polzela is a tourist guide to the points of interest (POIs) of Polzela, Slovenia.
It has a Vaadin (Java) front end and a React (TypeScript) front end, and it works offline
as a progressive web app. This project models in Dafny the logic underneath both UIs and
proves its properties.

- **Catalog parsers.**
  - The Java `POIService` turns comma-separated lines into POIs.
  - The React `DataService` parses `;`-separated catalog and title files into records.
- **Localization.**
  - A display name is chosen from the requested language, else English, else the raw value.
  - A description line is picked by its `LANG:` prefix.
  - A "Take me there!" label is looked up.
  - A description is laid out in three sections.
- **Offline key-value stores.** There are four, each modelled as a map inside a class keyed
  by the store's `keyPath`:
  - the React data service's `pois` and `titles` stores;
  - the front end's `VisitPolzelaOfflineStore`;
  - the page script `offlineStore`;
  - the stores the Java `OfflineStorageService` writes.
- **Service workers and the offline router.**
  - Requests are classified and answered by the network-first cache rule.
  - The activate step deletes outdated caches.
  - The offline router intercepts navigation while the browser is offline.
- **Structured data.** The schema.org records the front end embeds in its pages.

Browser services are inputs of the model: `fetch` outcomes, IndexedDB success or failure,
`navigator.onLine`, class-path resources, `encodeURIComponent` and `Double.parseDouble`.
Caches and object stores are maps held in fields of classes, and the methods that change
them are proved against functions of the old state.

Modules, one per core file, plus shared ones:

- **Shared modules.**
  - `Wrappers`: `Option`.
  - `Text`: JavaScript and Java `split`/`trim`, `String.replace`, prefix search.
  - `Seqs`: filter-map and filter.
  - `KeyedStore`: `put` and `getAll` on a keyed map.
  - `CacheApi`: `CacheStorage`, network-first, cleanup.
  - `PoiTypes`: `POI.ts`.
  - `PointOfInterestEntity`: `PointOfInterest.java`.
- **Modules, one per core file.**
  - `DataService`
  - `PoiService`
  - `PoiDetailViewJava`
  - `PoiDetailViewTsx`
  - `OfflineStorageService`
  - `FrontendOfflineStore`
  - `OfflineStore`
  - `OfflineRouter`
  - `ServiceWorker`
  - `ServiceWorkerCustom`
  - `SeoHelpers`

The model follows the code as written, including where the files disagree with each
other; the disagreements are listed under "Left out". Three scripts open one shared
IndexedDB database but are modelled over separate maps (see "Left out"). Where code
cannot run as written, "Findings" records both it and the evidently intended behaviour.

## Model

| member | source | states |
|---|---|---|
| DataService.Field | src/main/frontend/services/DataService.ts:48-54 | `parts[k]` is present exactly when `k` is in range, and then it is that part |
| DataService.PoisOfTextFacts | src/main/frontend/services/DataService.ts:43-57 | one record per line of the trimmed text, and the lines rebuild that text; record `i` has `order == i`; its name is `parts[0]`, the line's text before the first `;` (the whole line when it has none); its image path is `/images/<name>.webp`; fields 1–4 are copied; the Apple URL is field 5 when present and non-empty, else field 4 |
| DataService.ApplyPartsFields | src/main/frontend/services/DataService.ts:83-103 | each language field is taken from the last trimmed part with that prefix; other prefixes change nothing; a language no part has keeps its value |
| DataService.TitleOfLineFields | src/main/frontend/services/DataService.ts:81-106 | a title row's name is its first field; each language is the rest of its last tagged part, or `''` |
| DataService.ParseTitleRow | src/main/frontend/services/DataService.ts:82-105 | the loop over the parts builds exactly the title record of the row |
| DataService.TitleText | src/main/frontend/services/DataService.ts:150-153 | the requested language's title when non-empty, else the English one when non-empty, else the fallback |
| DataService.Localize | src/main/frontend/services/DataService.ts:147-156 | only `displayName` may change; it becomes the localized title when the store has a row for the name; a POI without a row is unchanged |
| DataService.LocalizeAll | src/main/frontend/services/DataService.ts:147-157 | same length, and element `i` is the localized element `i` |
| DataService.InsertByOrder | src/main/frontend/services/DataService.ts:146 | inserting into a list sorted by `order` keeps it sorted and adds exactly that record |
| DataService.SortByOrder | src/main/frontend/services/DataService.ts:146 | the result is sorted by ascending `order` and is a permutation of the input |
| DataService.InsertKeepsTies | src/main/frontend/services/DataService.ts:146 | an inserted record goes before the records of equal `order`, whose order is kept |
| DataService.SortByOrderStable | src/main/frontend/services/DataService.ts:146 | the sort is stable: for each `order` value, the records with it keep their input order |
| DataService.DataService.constructor | src/main/frontend/services/DataService.ts:23-37 | the service starts over the stores and stored version the browser holds, each store keyed by `name` |
| DataService.DataService.PutPois | src/main/frontend/services/DataService.ts:60-65 | the POI store after putting each record in turn, keyed by name, without clearing |
| DataService.DataService.PutTitles | src/main/frontend/services/DataService.ts:109-114 | the title store after putting each title row in turn, keyed by name |
| DataService.DataService.GetPOIsFromDB | src/main/frontend/services/DataService.ts:124-127 | every stored POI once |
| DataService.DataService.GetTitlesFromDB | src/main/frontend/services/DataService.ts:129-132 | every stored title row once |
| DataService.DataService.GetPOIByName | src/main/frontend/services/DataService.ts:134-137 | the record stored under the name, or none exactly when the name is not a key |
| DataService.DataService.LoadPOIsFromStatic | src/main/frontend/services/DataService.ts:39-73 | on a fetched text: the parsed records, put into the store; on failure: the store is unchanged and its records are returned |
| DataService.DataService.LoadTitlesFromStatic | src/main/frontend/services/DataService.ts:75-122 | on a fetched text: one parsed title per line, put into the store; on failure: the stored titles, store unchanged |
| DataService.DataService.GetPOIsWithLocalizedTitles | src/main/frontend/services/DataService.ts:139-158 | the stored POIs, sorted by `order` and localized, with the same length as the store |
| DataService.DataService.GetLocalizedText | src/main/frontend/services/DataService.ts:160-170 | the key's title in the language, else English, else the key; the key itself when no row has that name |
| DataService.DataService.InitializeData | src/main/frontend/services/DataService.ts:172-193 | titles reloaded; the catalog reloaded exactly when the stored version is not `"7"` or the store is empty; afterwards the version is `"7"` |
| PoiService.RecordOf | src/main/java/com/example/starter/base/services/POIService.java:27-35 | a line yields a record exactly when its Java `split(",")` has at least five fields |
| PoiService.GetPointsOfInterest | src/main/java/com/example/starter/base/services/POIService.java:18-45 | a missing resource gives `[]`; otherwise the records of every line read before the end or the I/O error, in file order |
| PoiService.RecordsSnoc | src/main/java/com/example/starter/base/services/POIService.java:26-37 | reading one more line appends that line's record, if it yields one |
| PoiService.RecordsAppend | src/main/java/com/example/starter/base/services/POIService.java:26-37 | records of concatenated line runs are the concatenated records |
| PoiService.ShortLineSkipped | src/main/java/com/example/starter/base/services/POIService.java:28 | a line with fewer than five fields is skipped and the lines after it are still read |
| PoiService.TrailingCommaSkipped | src/main/java/com/example/starter/base/services/POIService.java:27-28 | five fields with an empty last one (a trailing comma) yield no record, because Java `split` drops it |
| PoiService.RecordShape | src/main/java/com/example/starter/base/services/POIService.java:29-35 | a record's name holds no comma and is trimmed; its image path ends in `.jpg` |
| PoiDetailViewJava.LoadDescription | src/main/java/com/example/starter/base/views/POIDetailView.java:69-94 | a missing resource gives "Description not available."; an I/O error gives "Error loading description." |
| PoiDetailViewJava.LoadDescriptionChoosesLine | src/main/java/com/example/starter/base/views/POIDetailView.java:79-89 | the trimmed rest of the first `LANG:` line; else of the first `EN:` line; else "Description not available in the selected language." |
| PoiDetailViewJava.NoLocaleMeansEnglish | src/main/java/com/example/starter/base/views/POIDetailView.java:79 | without a locale the English description is chosen |
| PoiDetailViewJava.TagLabels | src/main/java/com/example/starter/base/views/POIDetailView.java:162-167 | for each part, the rest of its trimmed text when that starts with the tag |
| PoiDetailViewJava.TaggedFromFirst | src/main/java/com/example/starter/base/views/POIDetailView.java:162-174 | the rest of the first trimmed part carrying the tag, and none exactly when no part carries it |
| PoiDetailViewJava.RowLabels | src/main/java/com/example/starter/base/views/POIDetailView.java:159-175 | only `takeme;` rows give a label, that row's language part or else its English part |
| PoiDetailViewJava.FirstSomeFirst | src/main/java/com/example/starter/base/views/POIDetailView.java:159-176 | the first label present, and none exactly when none is |
| PoiDetailViewJava.TakeMeFromFirst | src/main/java/com/example/starter/base/views/POIDetailView.java:159-181 | the label of the first `takeme;` row that gives one; none exactly when no such row does |
| PoiDetailViewJava.FindTagged | src/main/java/com/example/starter/base/views/POIDetailView.java:162-174 | each `for` loop returns the first tagged part's rest from index 1 on |
| PoiDetailViewJava.LineLabel | src/main/java/com/example/starter/base/views/POIDetailView.java:160-175 | one line's label: a `takeme;` row's language part, else its English part; nothing for other lines |
| PoiDetailViewJava.FirstRowLabel | src/main/java/com/example/starter/base/views/POIDetailView.java:158-176 | the line loop returns the first row label found |
| PoiDetailViewJava.GetLocalizedTakeMeText | src/main/java/com/example/starter/base/views/POIDetailView.java:151-182 | the first row label, else "Take me there!", also when the resource is missing |
| PoiDetailViewJava.PerSection | src/main/java/com/example/starter/base/views/POIDetailView.java:293 | `per` is ⌈n/3⌉: `3·per ≥ n`, `3·(per−1) < n` for `n > 0`, and `per ≤ n` |
| PoiDetailViewJava.SectionStartIsProduct | src/main/java/com/example/starter/base/views/POIDetailView.java:297 | section `i` starts at `i·per` |
| PoiDetailViewJava.SectionText | src/main/java/com/example/starter/base/views/POIDetailView.java:296-299 | the inner loop builds the `StringBuilder` text of paragraphs `lo..hi−1`, each followed by a blank line |
| PoiDetailViewJava.DisplayDescription | src/main/java/com/example/starter/base/views/POIDetailView.java:285-309 | the laid-out texts are exactly the non-empty trimmed sections 0, 1, 2 in order |
| PoiDetailViewJava.BlockSplit | src/main/java/com/example/starter/base/views/POIDetailView.java:297-298 | the texts of adjacent paragraph runs concatenate |
| PoiDetailViewJava.SectionsContiguous | src/main/java/com/example/starter/base/views/POIDetailView.java:295-297 | the first section starts at 0, the last ends at `n`, and each starts where the previous ended |
| PoiDetailViewJava.SectionsCover | src/main/java/com/example/starter/base/views/POIDetailView.java:291-306 | the three sections together hold every paragraph once, in order |
| PoiDetailViewJava.SectionSizes | src/main/java/com/example/starter/base/views/POIDetailView.java:293-297 | no section holds more than ⌈n/3⌉ paragraphs |
| PoiDetailViewJava.ThreeBlocks | src/main/java/com/example/starter/base/views/POIDetailView.java:295-299 | the paragraphs split at `per` and `2·per` (or the end) |
| PoiDetailViewJava.SectionBounds | src/main/java/com/example/starter/base/views/POIDetailView.java:293-297 | the bounds of each section, written without multiplication |
| PoiDetailViewJava.SectionsAtMostThree | src/main/java/com/example/starter/base/views/POIDetailView.java:295-306 | at most one section per index, so at most three |
| PoiDetailViewJava.CreateImageGallery | src/main/java/com/example/starter/base/views/POIDetailView.java:219-237 | the candidate paths whose resource exists, in order |
| PoiDetailViewJava.GalleryOfWebpImage | src/main/java/com/example/starter/base/views/POIDetailView.java:223-225 | for an image `stem.webp`, the candidates are `/images/stem1.webp` to `/images/stem3.webp` |
| PoiDetailViewJava.ParseOsmUrl | src/main/java/com/example/starter/base/views/POIDetailView.java:270-282 | the last two `/`-segments when there are at least five and both parse; `(0, 0)` otherwise |
| PoiDetailViewJava.OsmLongitudeIsLastSegment | src/main/java/com/example/starter/base/views/POIDetailView.java:272-275 | the longitude is read from the text after the URL's last `/` |
| PoiDetailViewJava.FirstNamed | src/main/java/com/example/starter/base/views/POIDetailView.java:104-107 | the index of the first POI with the name; none exactly when no POI has it |
| PoiDetailViewJava.ShowPoi | src/main/java/com/example/starter/base/views/POIDetailView.java:109-143 | the found branch shows the title, description sections, gallery, label and navigation URL of the POI |
| PoiDetailViewJava.DetailView.constructor | src/main/java/com/example/starter/base/views/POIDetailView.java:54-67 | the view starts with the service's list and empty content |
| PoiDetailViewJava.DetailView.SetParameter | src/main/java/com/example/starter/base/views/POIDetailView.java:97-149 | the list is refreshed; the first POI with the name is shown, or "Point of Interest not found" exactly when none has it |
| PoiDetailViewTsx.LoadDescription | src/main/frontend/views/POIDetailView.tsx:53-81 | a non-ok response gives "Description not available."; a thrown error gives "Error loading description." |
| PoiDetailViewTsx.LoadDescriptionChoosesLine | src/main/frontend/views/POIDetailView.tsx:61-76 | the trimmed rest of the first `LANG:` line; else of the first `EN:` line; else the not-in-language message |
| PoiDetailViewTsx.SelectDisplayed | src/main/frontend/views/POIDetailView.tsx:34-36 | the localized POI with the same name when the list has one, else the stored POI |
| PoiDetailViewTsx.FindLocalized | src/main/frontend/views/POIDetailView.tsx:33-34 | looking up a stored name in the localized listing finds that POI, localized |
| PoiDetailViewTsx.SortedHolds | src/main/frontend/services/DataService.ts:146 | a permutation of the store's records holds exactly the stored record under each name |
| PoiDetailViewTsx.GalleryAgreesWithJavaView | src/main/frontend/views/POIDetailView.tsx:130-136 | the gallery sources `/images/<name>1..3.webp` match the Java view's candidates for `<name>.webp` |
| PoiDetailViewTsx.AppleButtonOfCatalogLine | src/main/frontend/views/POIDetailView.tsx:259 | the Apple button shows exactly when the catalog line has a non-empty sixth field that differs from the fifth |
| PoiDetailViewTsx.DetailState.constructor | src/main/frontend/views/POIDetailView.tsx:9-17 | no POI, empty description, default label, loading |
| PoiDetailViewTsx.DetailState.LoadPOI | src/main/frontend/views/POIDetailView.tsx:26-51 | a stored POI is shown localized, with its description and label; an unknown name leaves the state; loading ends false |
| OfflineStorageService.RecordOf | src/main/java/com/example/starter/base/services/OfflineStorageService.java:89-96 | `id` and `name` are the POI's name; description, `mainImagePath` (from `imagePath`), map and navigation URLs are copied |
| OfflineStorageService.Records | src/main/java/com/example/starter/base/services/OfflineStorageService.java:86-99 | same length, and element `i` is the record of `pois[i]` |
| OfflineStorageService.ConvertPOIsToJsonArray | src/main/java/com/example/starter/base/services/OfflineStorageService.java:83-102 | the index loop builds exactly those records |
| OfflineStorageService.StoredRecords | src/main/java/com/example/starter/base/services/OfflineStorageService.java:30-39 | after the put loop, each POI's last record is under its name; keys no POI carries keep their records |
| OfflineStorageService.StorePOIsScriptAsWritten | src/main/java/com/example/starter/base/services/OfflineStorageService.java:26-42 | as written: not run without a UI, skipped without IndexedDB, and otherwise it throws at `dbPromise.then` (an open request has no `then`), whether or not the database would open |
| OfflineStorageService.GetPOIsAsWritten | src/main/java/com/example/starter/base/services/OfflineStorageService.java:51-68 | as written: `null` without a UI, `[]` without IndexedDB, and otherwise a rejection, since the executor throws before its `catch` |
| OfflineStorageService.StoreAsWrittenLosesRecords | src/main/java/com/example/starter/base/services/OfflineStorageService.java:28-41 | on a working database the script as written throws, while the intended put files each POI under its name |
| OfflineStorageService.GetAsWrittenRejects | src/main/java/com/example/starter/base/services/OfflineStorageService.java:54-63 | on a working, non-empty database the script as written rejects, while the intended read lists a record |
| OfflineStorageService.IsOnline | src/main/java/com/example/starter/base/services/OfflineStorageService.java:74-78 | `null` exactly without a UI, else the browser's flag |
| OfflineStorageService.OfflineStorageService.constructor | src/main/java/com/example/starter/base/services/OfflineStorageService.java:30 | the service over a store keyed by `id` |
| OfflineStorageService.OfflineStorageService.StorePOIs | src/main/java/com/example/starter/base/services/OfflineStorageService.java:21-43 | read as the promise-based script is evidently meant: without a UI or a working database the store is unchanged; otherwise each record is put without clearing |
| OfflineStorageService.OfflineStorageService.GetPOIs | src/main/java/com/example/starter/base/services/OfflineStorageService.java:48-69 | read as the promise-based script is evidently meant: `null` exactly without a UI; `[]` when IndexedDB is absent or fails; else every stored record |
| FrontendOfflineStore.InitDB | src/main/resources/META-INF/resources/frontend/offline-store.js:9-42 | resolves true exactly when the database opens, never rejecting |
| FrontendOfflineStore.DescriptionOf | src/main/resources/META-INF/resources/frontend/offline-store.js:177-185 | a text exactly when the name is stored |
| FrontendOfflineStore.DescriptionRoundTrip | src/main/resources/META-INF/resources/frontend/offline-store.js:138-181 | storing a description and reading it back gives that text; other names are untouched |
| FrontendOfflineStore.StoredExactly | src/main/resources/META-INF/resources/frontend/offline-store.js:61-67 | after clear and put, the keys are exactly the given names; the last POI with a name is stored under it |
| FrontendOfflineStore.VisitPolzelaOfflineStore.constructor | src/main/resources/META-INF/resources/frontend/offline-store.js:19-29 | stores keyed by `name` and `poiName` |
| FrontendOfflineStore.VisitPolzelaOfflineStore.StorePOIs | src/main/resources/META-INF/resources/frontend/offline-store.js:47-84 | true exactly on a working database, and then the store is the cleared store with each POI put; on failure false and unchanged |
| FrontendOfflineStore.VisitPolzelaOfflineStore.GetPOIs | src/main/resources/META-INF/resources/frontend/offline-store.js:89-119 | every stored POI on a working database, `[]` otherwise |
| FrontendOfflineStore.VisitPolzelaOfflineStore.StoreDescription | src/main/resources/META-INF/resources/frontend/offline-store.js:124-159 | true exactly on success, storing the name, text and time; otherwise unchanged |
| FrontendOfflineStore.VisitPolzelaOfflineStore.GetDescription | src/main/resources/META-INF/resources/frontend/offline-store.js:164-198 | the stored text, or `null` when missing or on any failure |
| OfflineStore.FirstLink | src/main/resources/META-INF/resources/offline-store.js:106-109 | the first element up the chain carrying `poi-link`; none exactly when none does |
| OfflineStore.ImagePath | src/main/resources/META-INF/resources/offline-store.js:157 | kept when it starts with `/`, else prefixed with `/images/` |
| OfflineStore.ImagePathIdempotent | src/main/resources/META-INF/resources/offline-store.js:157 | fixing a fixed path changes nothing |
| OfflineStore.ImageSource | src/main/resources/META-INF/resources/offline-store.js:160-165 | the fixed path when cached, the placeholder otherwise |
| OfflineStore.IsImageCached | src/main/resources/META-INF/resources/offline-store.js:211-221 | false and caches untouched on an error; otherwise whether the opened cache holds the path resolved against the page's origin (entries are keyed by full URL), with the cache created empty and its name appended when it was missing |
| OfflineStore.ImageCacheDroppedByWorker | src/main/resources/META-INF/resources/offline-store.js:5 | the image cache is not among the caches the worker keeps on activate |
| OfflineStore.OfflineStoreState.constructor | src/main/resources/META-INF/resources/offline-store.js:7-8 | no database yet; offline exactly when `navigator.onLine` is false |
| OfflineStore.OfflineStoreState.Init | src/main/resources/META-INF/resources/offline-store.js:11-35 | resolves exactly when the open succeeds, and then the database is set |
| OfflineStore.OfflineStoreState.EnsureOpen | src/main/resources/META-INF/resources/offline-store.js:38-70 | an operation goes on exactly when the database was open or opens now |
| OfflineStore.OfflineStoreState.StorePOIs | src/main/resources/META-INF/resources/offline-store.js:37-54 | resolves true exactly when open and committed, putting each POI by `id` without clearing; otherwise rejects, store unchanged |
| OfflineStore.OfflineStoreState.GetAllPOIs | src/main/resources/META-INF/resources/offline-store.js:56-67 | resolves exactly when open and the request works, with every stored record |
| OfflineStore.OfflineStoreState.GetPOI | src/main/resources/META-INF/resources/offline-store.js:69-80 | resolves with the record under the id, or undefined |
| OfflineStore.OfflineStoreState.GoOnline | src/main/resources/META-INF/resources/offline-store.js:84-88 | the `online` event clears the offline flag |
| OfflineStore.OfflineStoreState.GoOffline | src/main/resources/META-INF/resources/offline-store.js:90-94 | the `offline` event sets the offline flag |
| OfflineStore.OfflineStoreState.HandleClick | src/main/resources/META-INF/resources/offline-store.js:102-131 | only offline clicks on a POI link act. The id is the href's last `/`-segment. Once a link with an href is found the database is open exactly when it was or the lazy open succeeds. A stored POI is shown and its path pushed; otherwise a message, history unchanged. Nothing in the source registers this handler (see Left out) |
| OfflineStore.IdOfLink | src/main/resources/META-INF/resources/offline-store.js:117 | a link `base/id` for a slash-free id leads back to that id |
| OfflineRouter.PoiRoutes | src/main/resources/META-INF/resources/frontend/offline-router.js:11-30 | one `/poi/<id>` route per listed id, in order |
| OfflineRouter.Route | src/main/resources/META-INF/resources/frontend/offline-router.js:106-127 | a `/poi/` path goes to the POI of its last segment, first; else a listed route goes to its page; else nothing is intercepted |
| OfflineRouter.PageNavigationIsToList | src/main/resources/META-INF/resources/frontend/offline-router.js:106-114 | an intercepted page navigation is always to `/` or `/pois` |
| OfflineRouter.PoiRouteLeadsToPoi | src/main/resources/META-INF/resources/frontend/offline-router.js:106-108 | `/poi/<id>` leads to the POI `<id>` |
| OfflineRouter.PoiTransition | src/main/resources/META-INF/resources/frontend/offline-router.js:145-164 | history grows by `/poi/<id>` exactly when the POI is found; else the not-available or failure message |
| OfflineRouter.PageTransition | src/main/resources/META-INF/resources/frontend/offline-router.js:170-186 | the route is always pushed; only `/` and `/pois` list the POIs; other routes get the limited-functionality message |
| OfflineRouter.InterceptedNavigation | src/main/resources/META-INF/resources/frontend/offline-router.js:105-186 | an intercepted page navigation shows the list or the failure message, never the generic page; the history changes exactly on a found POI or an opened page |
| OfflineRouter.FirstAnchor | src/main/resources/META-INF/resources/frontend/offline-router.js:95-98 | the first `A` element up the chain; none exactly when none is |
| OfflineRouter.ClickedHref | src/main/resources/META-INF/resources/frontend/offline-router.js:100-103 | the first anchor's `href` exactly when it is non-empty |
| OfflineRouter.OfflineRouterState.constructor | src/main/resources/META-INF/resources/frontend/offline-router.js:6-7 | offline exactly when `navigator.onLine` is false; no indicator, empty history |
| OfflineRouter.OfflineRouterState.HandleConnectionChange | src/main/resources/META-INF/resources/frontend/offline-router.js:55-83 | the flag follows the argument; the indicator is created only when missing and needed, and shown iff offline |
| OfflineRouter.OfflineRouterState.Init | src/main/resources/META-INF/resources/frontend/offline-router.js:37-49 | the indicator follows the initial state |
| OfflineRouter.OfflineRouterState.NavigateToPOI | src/main/resources/META-INF/resources/frontend/offline-router.js:145-164 | the state moves as `PoiTransition` says |
| OfflineRouter.OfflineRouterState.NavigateToOfflinePage | src/main/resources/META-INF/resources/frontend/offline-router.js:170-186 | the state moves as `PageTransition` says |
| OfflineRouter.OfflineRouterState.Dispatch | src/main/resources/META-INF/resources/frontend/offline-router.js:106-114 | the default is prevented exactly when the path is routed, and the state moves by that route |
| OfflineRouter.OfflineRouterState.HandleClick | src/main/resources/META-INF/resources/frontend/offline-router.js:90-115 | online, or without a non-empty anchor `href`, nothing changes; offline, the href is routed |
| OfflineRouter.OfflineRouterState.HandlePopstate | src/main/resources/META-INF/resources/frontend/offline-router.js:118-129 | online nothing changes; offline the location's path is routed |
| CacheApi.Without | src/main/resources/META-INF/resources/sw.js:183 | the names without the deleted one, keeping them distinct |
| CacheApi.WithoutAppend | src/main/resources/META-INF/resources/sw.js:183 | removing a name distributes over concatenation |
| CacheApi.Opened | src/main/resources/META-INF/resources/sw.js:58 | `caches.open` creates a missing cache empty and keeps the others |
| CacheApi.Lookup | src/main/resources/META-INF/resources/sw.js:69 | `cache.match` finds a response exactly when the key is cached |
| CacheApi.NetworkFirstStep | src/main/resources/META-INF/resources/sw.js:58-71 | the cache is opened; other caches are unchanged; a received response is the answer; for a request other than GET nothing is stored and a failed fetch matches nothing |
| CacheApi.OfflineServesLastOk | src/main/resources/META-INF/resources/sw.js:59-70 | after an ok fetch of a GET request, a failing fetch of the same request is answered with that response |
| CacheApi.NotOkLeavesCache | src/main/resources/META-INF/resources/sw.js:62-65 | a non-ok response, or any response to a request other than GET, never changes what a later failing fetch is answered with |
| CacheApi.KeepOnly | src/main/resources/META-INF/resources/sw.js:176-186 | exactly the whitelisted caches remain, unchanged |
| CacheApi.FirstMatch | src/main/resources/META-INF/resources/sw.js:168 | `caches.match` answers from the first cache in creation order holding the key; none exactly when none holds it |
| CacheApi.KeepNames | src/main/resources/META-INF/resources/sw.js:176-186 | the surviving names are exactly the whitelisted ones |
| CacheApi.PutEachStores | src/main/resources/META-INF/resources/sw.js:25 | after `addAll`, each key holds its fetched response and other keys are unchanged |
| CacheApi.PutEachPrefix | src/main/resources/META-INF/resources/sw.js:25 | putting one more key extends the stored prefix |
| CacheApi.KeepNamesSnoc | src/main/resources/META-INF/resources/sw.js:180-185 | one more name adds it to the survivors exactly when whitelisted |
| CacheApi.DistinctAround | src/main/resources/META-INF/resources/sw.js:178 | a name listed once is in neither the part before nor the part after it |
| CacheApi.DropFromNames | src/main/resources/META-INF/resources/sw.js:183 | deleting a listed name removes just that name |
| CacheApi.WithoutSingle | src/main/resources/META-INF/resources/sw.js:183 | deleting the only name leaves none |
| CacheApi.CleanupStep | src/main/resources/META-INF/resources/sw.js:180-185 | one pass of the cleanup loop |
| CacheApi.CleanupDone | src/main/resources/META-INF/resources/sw.js:176-186 | once only whitelisted names remain, the caches are already cleaned |
| CacheApi.CleanupDrop | src/main/resources/META-INF/resources/sw.js:181-183 | deleting a name not whitelisted keeps the final outcome the same |
| CacheApi.KeysAfterDrop | src/main/resources/META-INF/resources/sw.js:183 | the cache keys after a delete are the remaining names |
| CacheApi.CleanupKeeps | src/main/resources/META-INF/resources/sw.js:176-186 | the cleanup loop ends in exactly the whitelisted caches |
| CacheApi.FetchAll | src/main/resources/META-INF/resources/sw.js:25 | true exactly when every fetch gives an ok response |
| CacheApi.CacheStorage.constructor | src/main/resources/META-INF/resources/sw.js:178 | the storage over existing caches in their listed order |
| CacheApi.CacheStorage.Open | src/main/resources/META-INF/resources/sw.js:22 | a missing cache is created, last in order |
| CacheApi.CacheStorage.Put | src/main/resources/META-INF/resources/sw.js:63 | the response is stored under the key in that cache only |
| CacheApi.CacheStorage.Delete | src/main/resources/META-INF/resources/sw.js:183 | the cache and its name are removed; true exactly when it existed |
| CacheApi.CacheStorage.NetworkFirst | src/main/resources/META-INF/resources/sw.js:58-71 | caches and answer as `NetworkFirstStep` gives them |
| CacheApi.CacheStorage.DeleteOutdated | src/main/resources/META-INF/resources/sw.js:176-188 | only the whitelisted caches remain, in their order |
| CacheApi.CacheStorage.AddAll | src/main/resources/META-INF/resources/sw.js:22-25 | all keys are stored when every fetch is ok, none otherwise |
| ServiceWorker.Classify | src/main/resources/META-INF/resources/sw.js:37-154 | the first strategy that applies, in the handler's fixed order |
| ServiceWorker.CacheFor | src/main/resources/META-INF/resources/sw.js:58-160 | the data cache exactly for the two data routes, else the static cache; always a whitelisted name |
| ServiceWorker.PrecacheKeys | src/main/resources/META-INF/resources/sw.js:7-16 | one full URL per precached resource, in order |
| ServiceWorker.DataRoutesFirst | src/main/resources/META-INF/resources/sw.js:55-93 | a data path uses the data cache even when it also looks like a script, style or image |
| ServiceWorker.NavigationIsNotCached | src/main/resources/META-INF/resources/sw.js:37-53 | a navigation never reaches a cache-writing route |
| ServiceWorker.Install | src/main/resources/META-INF/resources/sw.js:19-30 | the static cache is opened (its name appended when new); when every fetch is ok each of the 8 resources is cached and the cache's other entries are kept; when any fetch fails nothing is stored; other caches are unchanged |
| ServiceWorker.PutStatic | src/main/resources/META-INF/resources/sw.js:158-163 | the response is stored in the static cache; other caches and keys are kept |
| ServiceWorker.HandleFetch | src/main/resources/META-INF/resources/sw.js:33-171 | a navigation returns the network answer, or on failure the cached `/` for `/poi/` paths and `/offline.html` otherwise; the routed strategies go network first in their cache; the default caches an ok answer and falls back to any cache; a request other than GET is never stored and, offline, gets no cached answer |
| ServiceWorker.Activate | src/main/resources/META-INF/resources/sw.js:174-191 | exactly the three whitelisted caches survive |
| ServiceWorker.Forward | src/main/resources/META-INF/resources/sw.js:194-206 | a status change is posted to every client, in order, as an update with the same `offline`; nothing else is posted |
| ServiceWorker.UpdatesAreNotRelayed | src/main/resources/META-INF/resources/sw.js:195-201 | a relayed update is not relayed again |
| ServiceWorkerCustom.Route | src/main/resources/META-INF/resources/sw-custom.js:12-33 | descriptions first, then the catalog, else no route |
| ServiceWorkerCustom.HandleFetch | src/main/resources/META-INF/resources/sw-custom.js:8-50 | a data route is answered network first from the data cache (stored and matched only for GET); any other request falls through, caches untouched |
| ServiceWorkerCustom.Activate | src/main/resources/META-INF/resources/sw-custom.js:53-66 | exactly the main and data caches survive |
| ServiceWorkerCustom.AgreesWithFullWorker | src/main/resources/META-INF/resources/sw-custom.js:12-49 | the fragment and the full worker pick the same route and cache for data requests |
| ServiceWorkerCustom.ActivationDropsStaticCache | src/main/resources/META-INF/resources/sw-custom.js:54 | activating the fragment deletes the full worker's static cache, which the full worker keeps |
| SeoHelpers.SiteUrl | src/main/frontend/utils/seoHelpers.ts:64 | `''` without a window, else its origin |
| SeoHelpers.OrganizationSchema | src/main/frontend/utils/seoHelpers.ts:6-27 | the site origin and the logo under it |
| SeoHelpers.BreadcrumbSchema | src/main/frontend/utils/seoHelpers.ts:63-76 | one item per crumb, in order, at position `index + 1`, linking to `siteUrl + url` |
| SeoHelpers.BreadcrumbRoundTrip | src/main/frontend/utils/seoHelpers.ts:69-74 | positions increase, and without a window the crumbs can be read back from the items |
| SeoHelpers.BreadcrumbAppend | src/main/frontend/utils/seoHelpers.ts:69-74 | one more crumb adds one more item, numbered last |
| SeoHelpers.PoiListSchema | src/main/frontend/utils/seoHelpers.ts:81-100 | one entry per POI, in order, at `index + 1`, with its page URL and image |
| SeoHelpers.PoiSchema | src/main/frontend/utils/seoHelpers.ts:32-58 | the description given when non-empty, else the POI's; `hasMap` is the map URL; the language is lower-cased |
| SeoHelpers.ListAgreesWithPage | src/main/frontend/utils/seoHelpers.ts:41-96 | a POI's list entry and its page agree on name, link and image |
| SeoHelpers.ListUrlsDistinct | src/main/frontend/utils/seoHelpers.ts:95 | with an injective encoding, two list links are equal exactly when the names are |
| SeoHelpers.LanguageCodeLowered | src/main/frontend/utils/seoHelpers.ts:56 | `SL` and `sl` both give `sl` |
| KeyedStore.PutAllSnoc | src/main/frontend/services/DataService.ts:60-65 | one more put updates the map under that record's key |
| KeyedStore.PutAllKeys | src/main/frontend/services/DataService.ts:60-65 | a key is present after the puts exactly when it was before or some record has it |
| KeyedStore.PutAllKeeps | src/main/resources/META-INF/resources/offline-store.js:43-45 | puts without clearing keep the records of keys no record carries |
| KeyedStore.PutAllLastWins | src/main/resources/META-INF/resources/frontend/offline-store.js:65-67 | the last record with a key is the one stored under it |
| KeyedStore.PutAllConsistent | src/main/frontend/services/DataService.ts:28 | puts keep every record filed under its own key |
| KeyedStore.GetAll | src/main/frontend/services/DataService.ts:124-127 | `getAll` lists every record exactly once |
| KeyedStore.EnumeratesEmpty | src/main/frontend/services/DataService.ts:182-183 | the store's listing is empty exactly when the store is |
| KeyedStore.Find | src/main/frontend/services/DataService.ts:149 | `find` returns a record with the key, and none exactly when none has it |
| KeyedStore.FindInEnumeration | src/main/frontend/services/DataService.ts:148-154 | searching the listing by key is looking the key up in the store |

## Left out

- Browser services: promise ordering, IndexedDB transactions and schema creation (`onupgradeneeded`), `fetch`, `navigator.onLine`, `encodeURIComponent` and the singleton `getInstance` and `db` handles are inputs or map fields, not modelled as such.
- DataService.DataService.LoadPOIsFromStatic: a put transaction that fails midway (caught and answered from the store) is not modelled; the fetched text is always stored. The same holds for `LoadTitlesFromStatic`.
- `getAll` order: IndexedDB lists records in key order; the model only proves that each record is listed once, in some order.
- PoiDetailViewJava.ParseOsmUrl: `Double.parseDouble` is a parameter. The coordinate parsing in `POIDetailView.tsx` and `seoHelpers.ts` and the Leaflet map script are floating point and are not modelled.
- Rendering: DOM building, `innerHTML`, Vaadin layouts and React rendering are not modelled; the model keeps what is shown (`Content`, `Screen`, the detail state, the schema records).
- PoiDetailViewJava.DetailView.SetParameter: requires a session locale whenever a POI is found, because `getLocalizedTakeMeText` calls `locale.getLanguage()` unguarded and a null locale throws; the locale's upper-cased language is an input, so locale case folding is not modelled.
- PoiDetailViewJava.DetailView.SetParameter: `getPointsOfInterest(Locale)` (called by the Java view) does not exist in `POIService`, so the refreshed list is an input; `getAppleNavigationUrl` does not exist in `PointOfInterest`, so the Apple button is not part of `Content`.
- PoiService.GetPointsOfInterest: the 5-argument `PointOfInterest` constructor the service calls does not exist (the entity takes 6), so the record built is `ServicePoi`, with the five arguments in call order.
- ServiceWorker.HandleFetch: a failed navigation outside `/poi/` is answered with the cached `/offline.html` only; in `caches.match('/offline.html') || caches.match('/')` the left operand is a promise, always truthy, so the `/` fallback is never taken.
- ServiceWorker.HandleFetch: the default handler's `cache.put` is not awaited; the model puts before answering. Requests are keyed by their full URL, and the precache list and navigation fallbacks are prefixed with the worker's origin.
- Worker lifecycle: `skipWaiting`, `clients.claim` and logging are not modelled; a message's `offline` value is a boolean.
- OfflineStore.ImageSource: `renderOfflinePOIDetail` uses `await` in a function that is not `async`. That is a syntax error, so as written none of `offline-store.js` loads: `window.offlineStore` is undefined and the router's `getPOI`/`getAllPOIs` calls always reject. The OfflineStore module models the script as if it parsed; `ImageSource` states the evident intent (the path when cached, else the placeholder), and the rest of that view is DOM and not modelled.
- OfflineStore.ImageCacheDroppedByWorker: the page store's image cache `visit-polzela-cache` is deleted by the worker's activate step; the model states this rather than reconciling the names.
- OfflineStore.StoredPoi: the page store reads `imagePath` while `OfflineStorageService` writes `mainImagePath`; both records are kept as written.
- `testImageCaching` only logs and is not modelled; `renderOfflinePOIList`'s button wiring is DOM and not modelled.
- SeoHelpers.PoiSchema: `toLowerCase` is modelled on ASCII letters only, which covers the four language codes.
- PoiDetailViewTsx.DetailState.LoadPOI: the language read from `localStorage` is an input; the gallery's unused `basePath` and its `onError` hiding are not modelled.
- FrontendOfflineStore: `isOnline` returns `navigator.onLine` unchanged and `registerNetworkListeners` only wires callbacks; neither is modelled.
- OfflineStorageService.OfflineStorageService.StorePOIs, OfflineStorageService.OfflineStorageService.GetPOIs: these methods state the promise-based reading the embedded scripts are written for (an `idb`-style `open` with an upgrade callback, `tx.complete`, a promise from `getAll`), not what the scripts do. As written, `indexedDB.open(...).then` throws on any page with IndexedDB: nothing is stored, and `getPOIs` rejects. That behaviour is modelled separately by `StorePOIsScriptAsWritten` and `GetPOIsAsWritten` (see Findings).
- Shared database: `frontend/offline-store.js`, `offline-store.js` and the `OfflineStorageService` scripts all open `visit-polzela-db` version 1 with one `pois` store. The first asks for `keyPath: 'name'`, the other two for `id`. Whichever opens the database first fixes the keyPath (and whether a `descriptions` store exists), because `onupgradeneeded` never runs for the others. The model gives each class its own map keyed as its own script asks, so it does not capture this sharing.
- OfflineStore.OfflineStoreState.HandleClick: the click handler is installed by `setupOfflineNavigation`, which nothing in the source calls, so as written it never runs; it is modelled as if installed.

## Findings

| source | as written | input that shows it | evidently intended | confidence | as-written member | corrected member |
|---|---|---|---|---|---|---|
| src/main/java/com/example/starter/base/services/OfflineStorageService.java:28-41 | `indexedDB.open(...)` returns an `IDBOpenDBRequest`, and the script calls `.then` on it; the call throws, so `storePOIs` stores nothing | any page with IndexedDB, e.g. a working database and one POI whose name is not yet stored | a promise-returning `open` (the `idb` library's API), with each record put by `id` | high, not executed | OfflineStorageService.StoreAsWrittenLosesRecords | OfflineStorageService.OfflineStorageService.StorePOIs |
| src/main/java/com/example/starter/base/services/OfflineStorageService.java:54-63 | the promise executor calls `.then` on the open request and throws, so the `getPOIs` promise rejects instead of resolving | any page with IndexedDB, e.g. a working database holding one record | a promise-returning `open` and `getAll`: the promise resolves with every stored record, or `[]` when a step fails | high, not executed | OfflineStorageService.GetAsWrittenRejects | OfflineStorageService.OfflineStorageService.GetPOIs |
