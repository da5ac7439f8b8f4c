/**
 * The Vaadin detail view of one point of interest: the description in the session's
 * language, the localized "Take me there!" label, the three-section description layout,
 * the image gallery, the map coordinates and the lookup of the POI named in the URL.
 */
module PoiDetailViewJava {
  import opened Wrappers
  import opened Text
  import opened Seqs
  import opened PointOfInterestEntity

  /** A class-path resource read whole: absent, failing with an `IOException`, or its text. */
  datatype Resource = Absent | ReadFails | Text(text: string)

  /** The title resource read line by line: absent, or the lines read before the end or an `IOException`. */
  datatype LineResource = NoLines | Lines(read: seq<string>, thenFails: bool)

  const DescriptionMissing: string := "Description not available."
  const DescriptionError: string := "Error loading description."
  const DescriptionNotInLanguage: string := "Description not available in the selected language."
  const TakeMeDefault: string := "Take me there!"
  const NotFoundTitle: string := "Point of Interest not found"

  // ---------------------------------------------------------------------------
  // loadDescription
  // ---------------------------------------------------------------------------

  /** The upper-cased language of the session locale, `"EN"` when there is no locale. */
  function LanguageOf(locale: Option<string>): string {
    if locale.Some? then locale.value else "EN"
  }

  /**
   * `loadDescription(poi)`, given the description resource of the POI and the session
   * locale's upper-cased language.
   */
  function LoadDescription(resource: Resource, locale: Option<string>): (r: string)
    ensures resource.Absent? ==> r == DescriptionMissing
    ensures resource.ReadFails? ==> r == DescriptionError
  {
    match resource
    case Absent => DescriptionMissing
    case ReadFails => DescriptionError
    case Text(full) =>
      var lines := SplitJava(full, "\n");
      var lang := LanguageOf(locale);
      var own := FirstWithPrefix(lines, lang + ":");
      if own.Some? then TrimJava(lines[own.value][|lang| + 1..])
      else
        var en := FirstWithPrefix(lines, "EN:");
        if en.Some? then TrimJava(lines[en.value][3..]) else DescriptionNotInLanguage
  }

  /**
   * The description is the trimmed rest of the first line tagged with the language; else
   * of the first line tagged `EN:`; else the not-in-language message.
   */
  lemma LoadDescriptionChoosesLine(text: string, locale: Option<string>, i: nat)
    ensures var lines := SplitJava(text, "\n");
            var lang := LanguageOf(locale);
            var r := LoadDescription(Text(text), locale);
            && (FirstStarting(lines, lang + ":", i) ==> r == TrimJava(lines[i][|lang| + 1..]))
            && (NoneStarting(lines, lang + ":") && FirstStarting(lines, "EN:", i) ==> r == TrimJava(lines[i][3..]))
            && (NoneStarting(lines, lang + ":") && NoneStarting(lines, "EN:") ==> r == DescriptionNotInLanguage)
  {
    var lines := SplitJava(text, "\n");
    var lang := LanguageOf(locale);
    var own := FirstWithPrefix(lines, lang + ":");
    var en := FirstWithPrefix(lines, "EN:");
    if FirstStarting(lines, lang + ":", i) {
      assert own.Some?;
      assert own.value == i;
    }
    if NoneStarting(lines, lang + ":") && FirstStarting(lines, "EN:", i) {
      assert own.None?;
      assert en.Some?;
      assert en.value == i;
    }
  }

  /** Without a session locale the description is the English one. */
  lemma NoLocaleMeansEnglish(text: string)
    ensures LoadDescription(Text(text), None) == LoadDescription(Text(text), Some("EN"))
  {
  }

  // ---------------------------------------------------------------------------
  // getLocalizedTakeMeText
  // ---------------------------------------------------------------------------

  /** For each part, the rest of its trimmed text when that starts with `tag`. */
  function TagLabels(parts: seq<string>, tag: string): (r: seq<Option<string>>)
    ensures |r| == |parts|
    ensures forall k :: 0 <= k < |parts| ==>
              r[k] == if StartsWith(TrimJava(parts[k]), tag) then Some(TrimJava(parts[k])[|tag|..]) else None
  {
    seq(|parts|, k requires 0 <= k < |parts| =>
      var part := TrimJava(parts[k]);
      if StartsWith(part, tag) then Some(part[|tag|..]) else None)
  }

  /** The rest of the first trimmed part at or after `i` that starts with `tag`. */
  function TaggedFrom(parts: seq<string>, tag: string, i: nat): Option<string> {
    FirstSome(TagLabels(parts, tag), i)
  }

  /** `TaggedFrom` finds the first part at or after `i` whose trimmed text carries `tag`. */
  lemma TaggedFromFirst(parts: seq<string>, tag: string, i: nat)
    ensures var r := TaggedFrom(parts, tag, i);
            && (r.Some? ==> exists k :: i <= k < |parts| && StartsWith(TrimJava(parts[k]), tag)
                                        && r.value == TrimJava(parts[k])[|tag|..]
                                        && forall m :: i <= m < k ==> !StartsWith(TrimJava(parts[m]), tag))
            && (r.None? <==> forall k :: i <= k < |parts| ==> !StartsWith(TrimJava(parts[k]), tag))
  {
    var labels := TagLabels(parts, tag);
    FirstSomeFirst(labels, i);
    var r := FirstSome(labels, i);
    if r.Some? {
      var k :| i <= k < |labels| && labels[k] == r && forall m :: i <= m < k ==> labels[m].None?;
      assert StartsWith(TrimJava(parts[k]), tag);
    }
  }

  /** The label a `takeme;` row gives: its part for the language, else its English part. */
  function RowValue(line: string, code: string): Option<string> {
    var parts := SplitJava(line, ";");
    var own := TaggedFrom(parts, code + ":", 1);
    if own.Some? then own else TaggedFrom(parts, "EN:", 1)
  }

  predicate IsTakeMeRow(line: string) {
    StartsWith(line, "takeme;")
  }

  /** The label each line gives: `RowValue` for a `takeme;` row, none for any other line. */
  function RowLabels(lines: seq<string>, code: string): (r: seq<Option<string>>)
    ensures |r| == |lines|
    ensures forall i :: 0 <= i < |lines| ==>
              r[i] == if IsTakeMeRow(lines[i]) then RowValue(lines[i], code) else None
  {
    seq(|lines|, i requires 0 <= i < |lines| => if IsTakeMeRow(lines[i]) then RowValue(lines[i], code) else None)
  }

  /** The first label at or after `k`. */
  function FirstSome(labels: seq<Option<string>>, k: nat): Option<string>
    decreases |labels| - k
  {
    if k >= |labels| then None
    else if labels[k].Some? then labels[k]
    else FirstSome(labels, k + 1)
  }

  /** `FirstSome` is the first label present at or after `k`, and none exactly when none is. */
  lemma {:induction false} FirstSomeFirst(labels: seq<Option<string>>, k: nat)
    ensures var r := FirstSome(labels, k);
            && (r.Some? ==> exists i :: k <= i < |labels| && labels[i] == r
                                        && forall m :: k <= m < i ==> labels[m].None?)
            && (r.None? <==> forall i :: k <= i < |labels| ==> labels[i].None?)
    decreases |labels| - k
  {
    if k < |labels| && labels[k].None? {
      FirstSomeFirst(labels, k + 1);
      var r := FirstSome(labels, k + 1);
      if r.Some? {
        var i :| k + 1 <= i < |labels| && labels[i] == r && forall m :: k + 1 <= m < i ==> labels[m].None?;
        assert forall m :: k <= m < i ==> labels[m].None?;
      }
    }
  }

  /** The label of the first `takeme;` row at or after `k` that gives one. */
  function TakeMeFrom(lines: seq<string>, code: string, k: nat): Option<string> {
    FirstSome(RowLabels(lines, code), k)
  }

  /** `TakeMeFrom` is the label of the first `takeme;` row that gives one, if any does. */
  lemma TakeMeFromFirst(lines: seq<string>, code: string, k: nat)
    ensures var r := TakeMeFrom(lines, code, k);
            && (r.Some? ==> exists i :: k <= i < |lines| && IsTakeMeRow(lines[i]) && RowValue(lines[i], code) == r
                                        && forall m :: k <= m < i && IsTakeMeRow(lines[m]) ==> RowValue(lines[m], code).None?)
            && (r.None? <==> forall i :: k <= i < |lines| && IsTakeMeRow(lines[i]) ==> RowValue(lines[i], code).None?)
  {
    var labels := RowLabels(lines, code);
    FirstSomeFirst(labels, k);
    var r := FirstSome(labels, k);
    if r.Some? {
      var i :| k <= i < |labels| && labels[i] == r && forall m :: k <= m < i ==> labels[m].None?;
      assert IsTakeMeRow(lines[i]) && RowValue(lines[i], code) == r;
    }
  }

  /** The label `getLocalizedTakeMeText` returns for the title resource. */
  function TakeMeText(resource: LineResource, code: string): string {
    if resource.NoLines? then TakeMeDefault
    else
      var found := TakeMeFrom(resource.read, code, 0);
      if found.Some? then found.value else TakeMeDefault
  }

  /**
   * One of the two `for` loops over the parts of a `takeme;` row: the rest of the first
   * trimmed part from index 1 on that starts with `tag`.
   */
  method FindTagged(parts: seq<string>, tag: string) returns (r: Option<string>)
    ensures r == TaggedFrom(parts, tag, 1)
  {
    var i := 1;
    while i < |parts|
      invariant 1 <= i
      invariant TaggedFrom(parts, tag, 1) == TaggedFrom(parts, tag, i)
    {
      var part := TrimJava(parts[i]);
      assert TagLabels(parts, tag)[i] == if StartsWith(part, tag) then Some(part[|tag|..]) else None;
      if StartsWith(part, tag) {
        return Some(part[|tag|..]);
      }
      i := i + 1;
    }
    return None;
  }

  /**
   * The body of the loop over the lines: for a `takeme;` row, its part for the
   * language, else its English part; nothing for any other line.
   */
  method LineLabel(line: string, code: string) returns (rowLabel: Option<string>)
    ensures rowLabel == if IsTakeMeRow(line) then RowValue(line, code) else None
  {
    if !StartsWith(line, "takeme;") {
      return None;
    }
    var parts := SplitJava(line, ";");
    rowLabel := FindTagged(parts, code + ":");
    if rowLabel.None? {
      rowLabel := FindTagged(parts, "EN:");
    }
  }

  /** The loop over the lines: the label of the first row that gives one. */
  method FirstRowLabel(lines: seq<string>, code: string) returns (found: Option<string>)
    ensures found == TakeMeFrom(lines, code, 0)
  {
    ghost var labels := RowLabels(lines, code);
    var k := 0;
    while k < |lines|
      invariant 0 <= k <= |lines|
      invariant FirstSome(labels, 0) == FirstSome(labels, k)
    {
      var rowLabel := LineLabel(lines[k], code);
      assert labels[k] == rowLabel;
      if rowLabel.Some? {
        return rowLabel;
      }
      k := k + 1;
    }
    return None;
  }

  /**
   * `getLocalizedTakeMeText(locale)`, given the locale's upper-cased language `code`.
   * A missing resource (a null stream) and an I/O error both end in the default label.
   */
  method GetLocalizedTakeMeText(code: string, resource: LineResource) returns (text: string)
    ensures text == TakeMeText(resource, code)
  {
    if resource.NoLines? {
      return TakeMeDefault;
    }
    var found := FirstRowLabel(resource.read, code);
    text := if found.Some? then found.value else TakeMeDefault;
  }

  // ---------------------------------------------------------------------------
  // displayDescription
  // ---------------------------------------------------------------------------

  /** The number of description sections the layout has room for. */
  const SectionCount: nat := 3

  /** `(int) Math.ceil((double) n / 3)`. */
  function PerSection(n: nat): (per: nat)
    ensures 3 * per >= n
    ensures n > 0 ==> 3 * (per - 1) < n
    ensures per <= n
  {
    (n + 2) / 3
  }

  function Min(a: int, b: int): int {
    if a < b then a else b
  }

  /** The text a `StringBuilder` holds after appending each of `ps[lo..hi]` and `"\n\n"`. */
  function Block(ps: seq<string>, lo: nat, hi: nat): (b: string)
    requires hi <= |ps|
    ensures b == "" <==> hi <= lo
    decreases hi
  {
    if hi <= lo then "" else Block(ps, lo, hi - 1) + ps[hi - 1] + "\n\n"
  }

  /** The first paragraph of section `i`, `i * per`, written as `i` additions of `per`. */
  function SectionStart(n: nat, i: nat): nat {
    if i == 0 then 0 else SectionStart(n, i - 1) + PerSection(n)
  }

  lemma {:induction false} SectionStartIsProduct(n: nat, i: nat)
    ensures SectionStart(n, i) == i * PerSection(n)
  {
    if i > 0 {
      SectionStartIsProduct(n, i - 1);
      assert i * PerSection(n) == (i - 1) * PerSection(n) + PerSection(n);
    }
  }

  /** The end of section `i`: `min((i + 1) * per, n)`. */
  function SectionEnd(n: nat, i: nat): (e: nat)
    ensures e <= n
  {
    Min(SectionStart(n, i + 1), n)
  }

  /** Section `i`, trimmed, when it holds at least one paragraph; nothing otherwise. */
  function Section(ps: seq<string>, i: nat): (r: seq<string>)
    ensures |r| <= 1
  {
    var lo := SectionStart(|ps|, i);
    var hi := SectionEnd(|ps|, i);
    if lo < hi then [TrimJava(Block(ps, lo, hi))] else []
  }

  /** The sections `0 .. i - 1` that hold at least one paragraph, trimmed. */
  function SectionsUpTo(ps: seq<string>, i: nat): seq<string>
    decreases i
  {
    if i == 0 then [] else SectionsUpTo(ps, i - 1) + Section(ps, i - 1)
  }

  /** The paragraph texts `displayDescription` lays out for `description`. */
  function Sections(description: string): seq<string> {
    SectionsUpTo(SplitJava(description, "\n\n"), SectionCount)
  }

  /** The inner loop of `displayDescription`: the `StringBuilder` text of paragraphs `lo .. hi - 1`. */
  method SectionText(paragraphs: seq<string>, lo: nat, hi: nat) returns (sectionText: string)
    requires hi <= |paragraphs|
    ensures sectionText == Block(paragraphs, lo, hi)
  {
    sectionText := "";
    var j := lo;
    while j < hi
      invariant lo <= j && (j <= hi || j == lo)
      invariant sectionText == Block(paragraphs, lo, if j <= hi then j else hi)
    {
      sectionText := sectionText + paragraphs[j] + "\n\n";
      j := j + 1;
    }
  }

  /** `displayDescription(description)`: the texts of its paragraphs, in order. */
  method DisplayDescription(description: string) returns (sections: seq<string>)
    ensures sections == Sections(description)
  {
    var paragraphs := SplitJava(description, "\n\n");
    var total := |paragraphs|;
    var per := (total + 2) / 3;
    assert per == PerSection(total);
    sections := [];
    var i := 0;
    while i < 3
      invariant 0 <= i <= SectionCount
      invariant sections == SectionsUpTo(paragraphs, i)
    {
      var lo := i * per;
      var hi := Min((i + 1) * per, total);
      SectionStartIsProduct(total, i);
      SectionStartIsProduct(total, i + 1);
      assert lo == SectionStart(total, i) && hi == SectionEnd(total, i);
      assert Section(paragraphs, i) == if lo < hi then [TrimJava(Block(paragraphs, lo, hi))] else [];
      var sectionText := SectionText(paragraphs, lo, hi);
      if sectionText != "" {
        sections := sections + [TrimJava(sectionText)];
      }
      i := i + 1;
    }
  }

  /** Appending two adjacent runs of paragraphs appends their texts. */
  lemma {:induction false} BlockSplit(ps: seq<string>, lo: nat, mid: nat, hi: nat)
    requires lo <= mid <= hi <= |ps|
    ensures Block(ps, lo, hi) == Block(ps, lo, mid) + Block(ps, mid, hi)
    decreases hi
  {
    if hi > mid {
      BlockSplit(ps, lo, mid, hi - 1);
    }
  }

  /** The three sections are contiguous: the first starts at 0, each starts where the last ended. */
  lemma SectionsContiguous(n: nat)
    ensures SectionStart(n, 0) == 0 && SectionEnd(n, 2) == n
    ensures SectionEnd(n, 0) == SectionStart(n, 1)
    ensures SectionStart(n, 2) <= n ==> SectionEnd(n, 1) == SectionStart(n, 2)
  {
    SectionBounds(n);
  }

  /** The three sections together hold every paragraph once and in order. */
  lemma SectionsCover(ps: seq<string>)
    ensures Block(ps, 0, |ps|) == Block(ps, 0, SectionEnd(|ps|, 0))
                                  + Block(ps, SectionStart(|ps|, 1), SectionEnd(|ps|, 1))
                                  + Block(ps, SectionStart(|ps|, 2), SectionEnd(|ps|, 2))
  {
    var n := |ps|;
    var per := PerSection(n);
    SectionBounds(n);
    var e0, s1, e1, s2, e2 := SectionEnd(n, 0), SectionStart(n, 1), SectionEnd(n, 1), SectionStart(n, 2), SectionEnd(n, 2);
    assert e0 == per && s1 == per && e1 == Min(per + per, n) && s2 == per + per && e2 == n;
    calc {
      Block(ps, 0, n);
    == { ThreeBlocks(ps, per); }
      Block(ps, 0, per) + Block(ps, per, Min(per + per, n)) + Block(ps, per + per, n);
    ==
      Block(ps, 0, e0) + Block(ps, s1, e1) + Block(ps, s2, e2);
    }
  }

  /** No section is longer than `PerSection(n)`. */
  lemma SectionSizes(n: nat)
    ensures forall i :: 0 <= i < 3 ==> SectionEnd(n, i) - SectionStart(n, i) <= PerSection(n)
  {
    var per := PerSection(n);
    SectionBounds(n);
    forall i | 0 <= i < 3 ensures SectionEnd(n, i) - SectionStart(n, i) <= per {
      if i == 0 {
        assert SectionStart(n, 0) == 0 && SectionEnd(n, 0) == per;
      } else if i == 1 {
        assert SectionStart(n, 1) == per && SectionEnd(n, 1) == Min(per + per, n);
      } else {
        assert i == 2;
        assert SectionStart(n, 2) == per + per && SectionEnd(n, 2) == n;
      }
    }
  }

  /** The paragraphs split at `per` and at `per + per` (or the end, if sooner). */
  lemma ThreeBlocks(ps: seq<string>, per: nat)
    requires per <= |ps|
    ensures Block(ps, 0, |ps|) == Block(ps, 0, per) + Block(ps, per, Min(per + per, |ps|)) + Block(ps, per + per, |ps|)
  {
    var n := |ps|;
    BlockSplit(ps, 0, per, n);
    if per + per <= n {
      BlockSplit(ps, per, per + per, n);
    } else {
      assert Block(ps, per + per, n) == "";
    }
  }

  /** The section bounds for `n` paragraphs, written without multiplication. */
  lemma SectionBounds(n: nat)
    ensures var per := PerSection(n);
            && per <= n && n <= per + per + per
            && SectionStart(n, 0) == 0 && SectionEnd(n, 0) == per
            && SectionStart(n, 1) == per && SectionEnd(n, 1) == Min(per + per, n)
            && SectionStart(n, 2) == per + per && SectionEnd(n, 2) == n
  {
    var per := PerSection(n);
    assert SectionStart(n, 1) == per;
    assert SectionStart(n, 2) == per + per;
    assert SectionStart(n, 3) == per + per + per;
  }

  /** There are never more sections than section indices considered. */
  lemma {:induction false} SectionsAtMostThree(ps: seq<string>, i: nat)
    ensures |SectionsUpTo(ps, i)| <= i
    decreases i
  {
    if i > 0 {
      SectionsAtMostThree(ps, i - 1);
      var extra := Section(ps, i - 1);
      assert SectionsUpTo(ps, i) == SectionsUpTo(ps, i - 1) + extra;
    }
  }

  // ---------------------------------------------------------------------------
  // createImageGallery
  // ---------------------------------------------------------------------------

  /** `"/images/" + basePath + i + ".webp"` for a one-digit `i`. */
  function GalleryPath(base: string, i: nat): string
    requires i <= 9
  {
    "/images/" + base + [('0' as int + i) as char] + ".webp"
  }

  /** The three candidate paths of a POI's gallery, in order. */
  function GalleryCandidates(imagePath: string): seq<string> {
    var base := ReplaceAllJava(imagePath, ".webp", "");
    [GalleryPath(base, 1), GalleryPath(base, 2), GalleryPath(base, 3)]
  }

  /** `createImageGallery(poi)`: the candidate paths whose resource exists, in order. */
  method CreateImageGallery(imagePath: string, resourceExists: string -> bool) returns (gallery: seq<string>)
    ensures gallery == Filter(GalleryCandidates(imagePath), resourceExists)
  {
    var basePath := ReplaceAllJava(imagePath, ".webp", "");
    gallery := [];
    var i := 1;
    while i <= 3
      invariant 1 <= i <= 4
      invariant gallery == Filter(GalleryCandidates(imagePath)[..i - 1], resourceExists)
    {
      var path := GalleryPath(basePath, i);
      assert GalleryCandidates(imagePath)[..i][..i - 1] == GalleryCandidates(imagePath)[..i - 1];
      if resourceExists(path) {
        gallery := gallery + [path];
      }
      i := i + 1;
    }
    assert GalleryCandidates(imagePath)[..3] == GalleryCandidates(imagePath);
  }

  /** For an image `stem.webp` whose stem has no dot, the candidates are `stem1.webp` .. `stem3.webp`. */
  lemma GalleryOfWebpImage(stem: string)
    requires '.' !in stem
    ensures GalleryCandidates(stem + ".webp") == ["/images/" + stem + "1.webp", "/images/" + stem + "2.webp", "/images/" + stem + "3.webp"]
  {
    ReplaceAllSuffix(stem, ".webp");
    var pre := "/images/" + stem;
    assert ('0' as int + 1) as char == '1' && ('0' as int + 2) as char == '2' && ('0' as int + 3) as char == '3';
    assert pre + ['1'] + ".webp" == pre + "1.webp";
    assert pre + ['2'] + ".webp" == pre + "2.webp";
    assert pre + ['3'] + ".webp" == pre + "3.webp";
  }

  // ---------------------------------------------------------------------------
  // parseOsmUrl
  // ---------------------------------------------------------------------------

  /**
   * `parseOsmUrl(url)`, with `Double.parseDouble` as `parseDouble` (`None` where it throws
   * a `NumberFormatException`): the last two `/`-segments when there are at least five
   * and both parse, else `(0, 0)`.
   */
  function ParseOsmUrl(url: string, parseDouble: string -> Option<real>): (c: (real, real))
    ensures var parts := SplitJava(url, "/");
            c == if |parts| >= 5 && parseDouble(parts[|parts| - 2]).Some? && parseDouble(parts[|parts| - 1]).Some?
                 then (parseDouble(parts[|parts| - 2]).value, parseDouble(parts[|parts| - 1]).value)
                 else (0.0, 0.0)
  {
    var parts := SplitJava(url, "/");
    if |parts| >= 5 then
      var lat := parseDouble(parts[|parts| - 2]);
      var lng := parseDouble(parts[|parts| - 1]);
      if lat.Some? && lng.Some? then (lat.value, lng.value) else (0.0, 0.0)
    else (0.0, 0.0)
  }

  /**
   * For a URL that does not end in `/`, the longitude is read from the text after its
   * last `/`, which ends the URL.
   */
  lemma OsmLongitudeIsLastSegment(url: string, parseDouble: string -> Option<real>)
    requires |Split(url, "/")| >= 5 && LastSegment(url, "/") != ""
    requires parseDouble(LastSegment(url, "/")).Some?
    requires parseDouble(Split(url, "/")[|Split(url, "/")| - 2]).Some?
    ensures ParseOsmUrl(url, parseDouble).1 == parseDouble(LastSegment(url, "/")).value
    ensures EndsWith(url, LastSegment(url, "/")) && Free(LastSegment(url, "/"), "/")
  {
    LastSegmentFacts(url, "/");
    SplitJavaKeepsLast(url, "/");
  }

  // ---------------------------------------------------------------------------
  // setParameter
  // ---------------------------------------------------------------------------

  /** The index of the first POI with the given name (`stream().filter(...).findFirst()`). */
  function FirstNamed(pois: seq<PointOfInterest>, name: string): (r: Option<nat>)
    ensures r.Some? ==> r.value < |pois| && pois[r.value].name == name
                        && forall k :: 0 <= k < r.value ==> pois[k].name != name
    ensures r.None? <==> forall k :: 0 <= k < |pois| ==> pois[k].name != name
    decreases |pois|
  {
    if pois == [] then None
    else if pois[0].name == name then Some(0)
    else
      var r := FirstNamed(pois[1..], name);
      if r.Some? then Some(r.value + 1) else None
  }

  /** What the view's content layout shows. */
  datatype Content =
    | Blank
    | NotFound(heading: string)
    | Shown(title: string, poi: PointOfInterest, description: seq<string>, gallery: seq<string>,
            takeMe: string, navigationUrl: string)

  /** The environment `setParameter` reads: resources and the session locale. */
  datatype Environment = Environment(
    descriptionOf: string -> Resource,
    titles: LineResource,
    locale: Option<string>,
    resourceExists: string -> bool)

  /** The detail content for `poi`: its title, its description sections, gallery and label. */
  function DetailOf(poi: PointOfInterest, env: Environment): Content
    requires env.locale.Some?
  {
    Shown(
      poi.displayName,
      poi,
      Sections(LoadDescription(env.descriptionOf(poi.name), env.locale)),
      Filter(GalleryCandidates(poi.imagePath), env.resourceExists),
      TakeMeText(env.titles, env.locale.value),
      poi.navigationUrl)
  }

  /** The found branch of `setParameter`: the components laid out for `poi`. */
  method ShowPoi(poi: PointOfInterest, env: Environment) returns (content: Content)
    requires env.locale.Some?
    ensures content.Shown? && content == DetailOf(poi, env)
  {
    var detailed := LoadDescription(env.descriptionOf(poi.name), env.locale);
    var description := DisplayDescription(detailed);
    var gallery := CreateImageGallery(poi.imagePath, env.resourceExists);
    var takeMe := GetLocalizedTakeMeText(env.locale.value, env.titles);
    content := Shown(poi.displayName, poi, description, gallery, takeMe, poi.navigationUrl);
  }

  class DetailView {
    var pointsOfInterest: seq<PointOfInterest>
    var content: Content

    constructor (pois: seq<PointOfInterest>)
      ensures pointsOfInterest == pois && content == Blank
    {
      pointsOfInterest := pois;
      content := Blank;
    }

    /**
     * `setParameter(event, parameter)`: refresh the list, then show the first POI named
     * `parameter`, or the not-found heading when none is. The session must have a locale
     * whenever a POI is shown, since the label lookup reads its language unguarded.
     */
    method SetParameter(parameter: string, refreshed: seq<PointOfInterest>, env: Environment)
      requires FirstNamed(refreshed, parameter).Some? ==> env.locale.Some?
      modifies this
      ensures pointsOfInterest == refreshed
      ensures content.NotFound? <==> forall k :: 0 <= k < |refreshed| ==> refreshed[k].name != parameter
      ensures content.NotFound? ==> content == NotFound(NotFoundTitle)
      ensures !content.NotFound? ==> content == DetailOf(refreshed[FirstNamed(refreshed, parameter).value], env)
    {
      var found := FirstNamed(refreshed, parameter);
      var shown: Content;
      if found.Some? {
        shown := ShowPoi(refreshed[found.value], env);
      } else {
        shown := NotFound(NotFoundTitle);
      }
      pointsOfInterest, content := refreshed, shown;
    }
  }
}
