/**
 * The Java `POIService`: it reads `pois.txt` line by line and turns every line with at
 * least five comma-separated fields into a point of interest.
 */
module PoiService {
  import opened Wrappers
  import opened Text
  import opened Seqs

  /**
   * The record the service builds, with the five constructor arguments in the order the
   * call passes them: name, description, image path, map URL, navigation URL.
   */
  datatype ServicePoi = ServicePoi(
    name: string,
    description: string,
    imagePath: string,
    mapUrl: string,
    navigationUrl: string)

  /**
   * The resource as the reader sees it: absent (a null stream, whose reader throws a
   * `NullPointerException`), or the lines read from it, after which reading either ends
   * or throws an `IOException`.
   */
  datatype Resource = Missing | Lines(read: seq<string>, thenFails: bool)

  /** `line.split(",")`. */
  function Fields(line: string): seq<string> {
    SplitJava(line, ",")
  }

  /** The line yields a record: its Java split has at least five fields. */
  predicate Produces(line: string) {
    |Fields(line)| >= 5
  }

  /** The record a line yields, if any. */
  function RecordOf(line: string): (r: Option<ServicePoi>)
    ensures r.Some? <==> Produces(line)
  {
    var parts := Fields(line);
    if |parts| >= 5 then
      Some(ServicePoi(
        TrimJava(parts[1]),
        TrimJava(parts[2]),
        TrimJava(parts[0]) + ".jpg",
        TrimJava(parts[3]),
        TrimJava(parts[4])))
    else None
  }

  /** The records of `lines`, in line order, skipping the lines that yield none. */
  function Records(lines: seq<string>): seq<ServicePoi> {
    FilterMap(lines, RecordOf)
  }

  /** `getPointsOfInterest()`: the records of every line read before the end or the error. */
  method GetPointsOfInterest(resource: Resource) returns (pointsOfInterest: seq<ServicePoi>)
    ensures resource.Missing? ==> pointsOfInterest == []
    ensures resource.Lines? ==> pointsOfInterest == Records(resource.read)
  {
    pointsOfInterest := [];
    if resource.Missing? {
      return;
    }
    var lines := resource.read;
    var i := 0;
    while i < |lines|
      invariant 0 <= i <= |lines|
      invariant pointsOfInterest == Records(lines[..i])
    {
      var line := lines[i];
      var parts := SplitJava(line, ",");
      RecordsSnoc(lines, i);
      if |parts| >= 5 {
        var poi := ServicePoi(
          TrimJava(parts[1]),
          TrimJava(parts[2]),
          TrimJava(parts[0]) + ".jpg",
          TrimJava(parts[3]),
          TrimJava(parts[4]));
        pointsOfInterest := pointsOfInterest + [poi];
      }
      i := i + 1;
    }
    assert lines[..i] == lines;
  }

  /** The records of the first `i + 1` lines: those of the first `i`, then line `i`'s, if any. */
  lemma RecordsSnoc(lines: seq<string>, i: nat)
    requires i < |lines|
    ensures Records(lines[..i + 1]) == Records(lines[..i]) + match RecordOf(lines[i]) case Some(r) => [r] case None => []
  {
    assert lines[..i + 1][..i] == lines[..i];
  }

  /** Reading more lines only appends the records of those lines. */
  lemma RecordsAppend(a: seq<string>, b: seq<string>)
    ensures Records(a + b) == Records(a) + Records(b)
  {
    FilterMapAppend(a, b, RecordOf);
  }

  /** A line with fewer than five fields is skipped, and the lines after it are still read. */
  lemma ShortLineSkipped(a: seq<string>, line: string, b: seq<string>)
    requires !Produces(line)
    ensures Records(a + [line] + b) == Records(a) + Records(b)
  {
    FilterMapAppend(a + [line], b, RecordOf);
    var l := a + [line];
    assert l[..|l| - 1] == a && l[|l| - 1] == line;
  }

  /**
   * Java `split` drops trailing empty fields: a line of five fields whose last one is
   * empty (a trailing comma) yields no record.
   */
  lemma TrailingCommaSkipped(line: string)
    requires |Split(line, ",")| == 5 && Last(Split(line, ",")) == ""
    ensures !Produces(line)
  {
  }

  /** The fields of a record are trimmed, and the name holds no comma. */
  lemma RecordShape(line: string)
    requires Produces(line)
    ensures var r := RecordOf(line).value;
            && Free(r.name, ",")
            && EndsWith(r.imagePath, ".jpg")
            && (r.name == [] || (!JavaWhitespace(r.name[0]) && !JavaWhitespace(r.name[|r.name| - 1])))
  {
    var parts := Fields(line);
    var js := Split(line, ",");
    SplitFieldsFree(line, ",");
    assert line != "";
    assert parts[1] == js[1];
    TrimFree(parts[1], ",", JavaWhitespace);
    TrimFacts(parts[1], JavaWhitespace);
  }
}
