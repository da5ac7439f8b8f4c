/**
 * The schema.org structured data the front end embeds in its pages: the breadcrumb
 * trail, the list of POIs on the main page and the record of one POI.
 */
module SeoHelpers {
  import opened Wrappers
  import opened Text
  import opened PoiTypes

  /** `window.location.origin`, or `''` when there is no window. */
  function SiteUrl(window: Option<string>): (site: string)
    ensures window.None? ==> site == ""
    ensures window.Some? ==> site == window.value
  {
    if window.Some? then window.value else ""
  }

  /** The path of a POI's page, with `encode` standing for `encodeURIComponent`. */
  function PoiUrl(site: string, encode: string -> string, poi: Poi): string {
    site + "/poi/" + encode(poi.name)
  }

  /** The parts of the organization record that depend on the page. */
  datatype Organization = Organization(url: string, logo: string)

  /** `generateOrganizationSchema()`: the site's origin and its logo under it. */
  function OrganizationSchema(window: Option<string>): (r: Organization)
    ensures r.url == SiteUrl(window)
    ensures r.logo == r.url + "/icons/icon-512x512.ico"
  {
    var site := SiteUrl(window);
    Organization(site, site + "/icons/icon-512x512.ico")
  }

  // ---------------------------------------------------------------------------
  // Breadcrumbs
  // ---------------------------------------------------------------------------

  datatype Crumb = Crumb(name: string, url: string)
  datatype ListItem = ListItem(position: nat, name: string, item: string)

  /** `generateBreadcrumbSchema(items).itemListElement`. */
  function BreadcrumbSchema(window: Option<string>, items: seq<Crumb>): (r: seq<ListItem>)
    ensures |r| == |items|
    ensures forall i :: 0 <= i < |items| ==>
              r[i] == ListItem(i + 1, items[i].name, SiteUrl(window) + items[i].url)
  {
    seq(|items|, i requires 0 <= i < |items| => ListItem(i + 1, items[i].name, SiteUrl(window) + items[i].url))
  }

  /**
   * The trail numbers its items 1, 2, … in order, and without a window each item's
   * link is the crumb's own URL, so the crumbs can be read back from the trail.
   */
  lemma BreadcrumbRoundTrip(items: seq<Crumb>)
    ensures var r := BreadcrumbSchema(None, items);
            && (forall i, j :: 0 <= i < j < |r| ==> r[i].position < r[j].position)
            && seq(|r|, i requires 0 <= i < |r| => Crumb(r[i].name, r[i].item)) == items
  {
    var r := BreadcrumbSchema(None, items);
    var back := seq(|r|, i requires 0 <= i < |r| => Crumb(r[i].name, r[i].item));
    forall i | 0 <= i < |items| ensures back[i] == items[i] {
      assert r[i].item == "" + items[i].url;
      assert "" + items[i].url == items[i].url;
    }
  }

  /** Extending the trail by one crumb extends the schema by one item, numbered last. */
  lemma BreadcrumbAppend(window: Option<string>, items: seq<Crumb>, c: Crumb)
    ensures BreadcrumbSchema(window, items + [c])
            == BreadcrumbSchema(window, items) + [ListItem(|items| + 1, c.name, SiteUrl(window) + c.url)]
  {
    var lhs := BreadcrumbSchema(window, items + [c]);
    var rhs := BreadcrumbSchema(window, items) + [ListItem(|items| + 1, c.name, SiteUrl(window) + c.url)];
    forall i | 0 <= i < |lhs| ensures lhs[i] == rhs[i] {
      if i < |items| {
        assert (items + [c])[i] == items[i];
      }
    }
  }

  // ---------------------------------------------------------------------------
  // The POI list and the POI record
  // ---------------------------------------------------------------------------

  /** The item of one POI in the main page's list. */
  datatype ListEntry = ListEntry(position: nat, name: Option<string>, url: string, image: string)

  /** `generatePOIListSchema(pois).itemListElement`. */
  function PoiListSchema(window: Option<string>, encode: string -> string, pois: seq<Poi>): (r: seq<ListEntry>)
    ensures |r| == |pois|
    ensures forall i :: 0 <= i < |pois| ==>
              r[i] == ListEntry(i + 1, pois[i].displayName, PoiUrl(SiteUrl(window), encode, pois[i]),
                                SiteUrl(window) + pois[i].imagePath)
  {
    seq(|pois|, i requires 0 <= i < |pois| =>
      ListEntry(i + 1, pois[i].displayName, PoiUrl(SiteUrl(window), encode, pois[i]), SiteUrl(window) + pois[i].imagePath))
  }

  /** The properties of the `TouristAttraction` record of one POI that the model keeps. */
  datatype Attraction = Attraction(
    name: Option<string>,
    description: Option<string>,
    url: string,
    image: string,
    hasMap: Option<string>,
    inLanguage: string)

  /**
   * `generatePOISchema(poi, description, language)`: the given description unless
   * empty, the POI's own otherwise; the map link; the language code in lower case.
   */
  function PoiSchema(window: Option<string>, encode: string -> string, poi: Poi, description: string,
                     language: string): (r: Attraction)
    ensures description != "" ==> r.description == Some(description)
    ensures description == "" ==> r.description == poi.description
    ensures r.hasMap == poi.mapUrl && r.name == poi.displayName
    ensures r.inLanguage == LowerAscii(language)
    ensures r.url == PoiUrl(SiteUrl(window), encode, poi) && r.image == SiteUrl(window) + poi.imagePath
  {
    Attraction(
      poi.displayName,
      if description != "" then Some(description) else poi.description,
      PoiUrl(SiteUrl(window), encode, poi),
      SiteUrl(window) + poi.imagePath,
      poi.mapUrl,
      LowerAscii(language))
  }

  /** The page of a POI and its entry in the list agree on name, link and image. */
  lemma ListAgreesWithPage(window: Option<string>, encode: string -> string, pois: seq<Poi>, i: nat,
                           description: string, language: string)
    requires i < |pois|
    ensures var entry := PoiListSchema(window, encode, pois)[i];
            var page := PoiSchema(window, encode, pois[i], description, language);
            entry.position == i + 1 && entry.name == page.name && entry.url == page.url && entry.image == page.image
  {
  }

  /**
   * With an injective encoding, two POIs share a list link exactly when they share a
   * name; POIs with distinct names get distinct links.
   */
  lemma ListUrlsDistinct(window: Option<string>, encode: string -> string, pois: seq<Poi>, i: nat, j: nat)
    requires forall a, b :: encode(a) == encode(b) ==> a == b
    requires i < |pois| && j < |pois|
    ensures var r := PoiListSchema(window, encode, pois);
            r[i].url == r[j].url <==> pois[i].name == pois[j].name
  {
    var site := SiteUrl(window) + "/poi/";
    var r := PoiListSchema(window, encode, pois);
    if r[i].url == r[j].url {
      var ei := encode(pois[i].name);
      var ej := encode(pois[j].name);
      assert site + ei == site + ej;
      assert ei == (site + ei)[|site|..];
      assert ej == (site + ej)[|site|..];
    }
  }

  /** The language code is put in lower case, and an already lower-case code is kept. */
  lemma LanguageCodeLowered(poi: Poi, window: Option<string>, encode: string -> string, description: string)
    ensures PoiSchema(window, encode, poi, description, Code(SL)).inLanguage == "sl"
    ensures PoiSchema(window, encode, poi, description, "sl").inLanguage == "sl"
  {
    assert LowerAscii("SL") == "sl";
    assert LowerAscii("sl") == "sl";
  }
}
