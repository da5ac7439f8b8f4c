/** The TypeScript record types of the catalog and the JavaScript `||` on their string fields. */
module PoiTypes {
  import opened Wrappers

  /** `'EN' | 'SL' | 'DE' | 'NL'`. */
  datatype Language = EN | SL | DE | NL

  /** The language's code as the views store and compare it. */
  function Code(l: Language): string {
    match l
    case EN => "EN"
    case SL => "SL"
    case DE => "DE"
    case NL => "NL"
  }

  /**
   * A catalog record. A field read from a `;`-field past the end of its line holds
   * JavaScript `undefined`, modelled as `None`.
   */
  datatype Poi = Poi(
    name: string,
    displayName: Option<string>,
    description: Option<string>,
    imagePath: string,
    mapUrl: Option<string>,
    navigationUrl: Option<string>,
    appleNavigationUrl: Option<string>,
    order: nat)

  /** A row of the title file: one display title per language, `''` when the row has none. */
  datatype PoiTitle = PoiTitle(name: string, en: string, sl: string, de: string, nl: string)

  /** `title[language.toLowerCase()]`. */
  function TitleIn(t: PoiTitle, l: Language): string {
    match l
    case EN => t.en
    case SL => t.sl
    case DE => t.de
    case NL => t.nl
  }

  /** The `keyPath` of the `pois` store. */
  function PoiName(p: Poi): string {
    p.name
  }

  /** The `keyPath` of the `titles` store. */
  function TitleName(t: PoiTitle): string {
    t.name
  }

  /** JavaScript truthiness of a string that may be `undefined`. */
  predicate Truthy(v: Option<string>) {
    v.Some? && v.value != ""
  }

  /** JavaScript `a || b` on strings that may be `undefined`. */
  function Or(a: Option<string>, b: Option<string>): Option<string> {
    if Truthy(a) then a else b
  }
}
