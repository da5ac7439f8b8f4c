/**
 * The string operations the JavaScript, TypeScript and Java sources rely on, with the
 * semantics of each language written out: JavaScript `split` keeps every field, Java
 * `split` drops trailing empty fields, JavaScript and Java `trim` strip different
 * character sets, Java `replace` replaces every occurrence.
 */
module Text {
  import opened Wrappers

  predicate StartsWith(s: string, prefix: string) {
    |prefix| <= |s| && s[..|prefix|] == prefix
  }

  predicate EndsWith(s: string, suffix: string) {
    |suffix| <= |s| && s[|s| - |suffix|..] == suffix
  }

  /** `pat` occurs in `s` at index `i`. */
  predicate OccursAt(s: string, pat: string, i: nat) {
    i + |pat| <= |s| && s[i..i + |pat|] == pat
  }

  /** `pat` occurs nowhere in `s`. */
  ghost predicate Free(s: string, pat: string) {
    forall i: nat :: !OccursAt(s, pat, i)
  }

  /** An occurrence one place further into `s` is an occurrence in its tail. */
  lemma OccursAtTail(s: string, pat: string, i: nat)
    requires |s| > 0
    ensures OccursAt(s, pat, i + 1) <==> OccursAt(s[1..], pat, i)
  {
    if i + 1 + |pat| <= |s| {
      assert s[i + 1..i + 1 + |pat|] == s[1..][i..i + |pat|];
    }
  }

  /** JavaScript `String.prototype.includes` (and Java `String.contains`). */
  function Includes(s: string, pat: string): (b: bool)
    ensures b <==> exists i: nat :: OccursAt(s, pat, i)
  {
    if StartsWith(s, pat) then
      assert OccursAt(s, pat, 0);
      true
    else if |s| == 0 then
      assert forall i: nat :: !OccursAt(s, pat, i);
      false
    else
      var b := Includes(s[1..], pat);
      assert b ==> exists i: nat :: OccursAt(s, pat, i) by {
        if b {
          var i: nat :| OccursAt(s[1..], pat, i);
          OccursAtTail(s, pat, i);
        }
      }
      assert (exists i: nat :: OccursAt(s, pat, i)) ==> b by {
        if exists i: nat :: OccursAt(s, pat, i) {
          var i: nat :| OccursAt(s, pat, i);
          assert i != 0;
          OccursAtTail(s, pat, i - 1);
        }
      }
      b
  }

  // ---------------------------------------------------------------------------
  // Splitting and joining
  // ---------------------------------------------------------------------------

  /**
   * JavaScript `s.split(sep)` for a non-empty separator: the text between successive
   * leftmost non-overlapping occurrences of `sep`, empty fields included.
   */
  function Split(s: string, sep: string): (parts: seq<string>)
    requires |sep| > 0
    ensures |parts| >= 1
    decreases |s|
  {
    if |s| < |sep| then [s]
    else if s[..|sep|] == sep then [""] + Split(s[|sep|..], sep)
    else
      var rest := Split(s[1..], sep);
      [[s[0]] + rest[0]] + rest[1..]
  }

  /** JavaScript `parts.join(sep)`: the inverse of `Split`. */
  function Join(parts: seq<string>, sep: string): string {
    if |parts| == 0 then ""
    else if |parts| == 1 then parts[0]
    else parts[0] + sep + Join(parts[1..], sep)
  }

  lemma {:induction false} JoinConsChar(c: char, ps: seq<string>, sep: string)
    requires |ps| >= 1
    ensures Join([[c] + ps[0]] + ps[1..], sep) == [c] + Join(ps, sep)
  {
    var qs := [[c] + ps[0]] + ps[1..];
    if |ps| > 1 {
      assert qs[1..] == ps[1..];
      assert Join(qs, sep) == ([c] + ps[0]) + sep + Join(ps[1..], sep);
    }
  }

  /** Splitting and then joining with the same separator gives back the text. */
  lemma {:induction false} JoinSplit(s: string, sep: string)
    requires |sep| > 0
    ensures Join(Split(s, sep), sep) == s
    decreases |s|
  {
    if |s| < |sep| {
    } else if s[..|sep|] == sep {
      var rest := Split(s[|sep|..], sep);
      JoinSplit(s[|sep|..], sep);
      assert Split(s, sep) == [""] + rest;
      assert ([""] + rest)[1..] == rest;
      assert Join([""] + rest, sep) == "" + sep + Join(rest, sep);
      assert s == sep + s[|sep|..];
    } else {
      var rest := Split(s[1..], sep);
      JoinSplit(s[1..], sep);
      assert Split(s, sep) == [[s[0]] + rest[0]] + rest[1..];
      JoinConsChar(s[0], rest, sep);
      assert s == [s[0]] + s[1..];
    }
  }

  /** The first field of a split is a prefix of the text. */
  lemma {:induction false} SplitHeadIsPrefix(s: string, sep: string)
    requires |sep| > 0
    ensures StartsWith(s, Split(s, sep)[0])
    decreases |s|
  {
    if |s| < |sep| {
    } else if s[..|sep|] == sep {
    } else {
      var rest := Split(s[1..], sep);
      SplitHeadIsPrefix(s[1..], sep);
      assert ([s[0]] + rest[0]) == s[..|rest[0]| + 1];
    }
  }

  /** No field of a split contains the separator. */
  lemma {:induction false} SplitFieldsFree(s: string, sep: string)
    requires |sep| > 0
    ensures forall k :: 0 <= k < |Split(s, sep)| ==> Free(Split(s, sep)[k], sep)
    decreases |s|
  {
    var parts := Split(s, sep);
    if |s| < |sep| {
      forall i: nat ensures !OccursAt(s, sep, i) { }
    } else if s[..|sep|] == sep {
      var rest := Split(s[|sep|..], sep);
      SplitFieldsFree(s[|sep|..], sep);
      forall k | 0 <= k < |parts| ensures Free(parts[k], sep) {
        if k == 0 {
          forall i: nat ensures !OccursAt("", sep, i) { }
        } else {
          assert parts[k] == rest[k - 1];
        }
      }
    } else {
      var rest := Split(s[1..], sep);
      SplitFieldsFree(s[1..], sep);
      SplitHeadIsPrefix(s[1..], sep);
      var head := [s[0]] + rest[0];
      assert StartsWith(s, head) by {
        assert s[..|head|] == [s[0]] + s[1..][..|rest[0]|];
      }
      assert |head| >= |sep| ==> head[..|sep|] == s[..|sep|];
      forall i: nat ensures !OccursAt(head, sep, i) {
        if i > 0 && i + |sep| <= |head| {
          assert head[i..i + |sep|] == rest[0][i - 1..i - 1 + |sep|];
          assert !OccursAt(rest[0], sep, i - 1);
        }
      }
      forall k | 0 <= k < |parts| ensures Free(parts[k], sep) {
        if k > 0 {
          assert parts[k] == rest[k];
        }
      }
    }
  }

  /** The last element of a non-empty sequence of fields. */
  function Last(parts: seq<string>): string
    requires |parts| > 0
  {
    parts[|parts| - 1]
  }

  /** JavaScript `s.split(sep).pop()`: the text after the last separator. */
  function LastSegment(s: string, sep: string): string
    requires |sep| > 0
  {
    Last(Split(s, sep))
  }

  lemma {:induction false} JoinEndsWithLast(parts: seq<string>, sep: string)
    requires |parts| > 0
    ensures EndsWith(Join(parts, sep), Last(parts))
  {
    if |parts| > 1 {
      JoinEndsWithLast(parts[1..], sep);
      assert Last(parts[1..]) == Last(parts);
    }
  }

  /** A text free of the one-character separator splits into itself alone. */
  lemma {:induction false} SplitFree(b: string, c: char)
    requires c !in b
    ensures Split(b, [c]) == [b]
    decreases |b|
  {
    if |b| >= 1 {
      assert b[..1] != [c] by {
        assert b[..1][0] == b[0];
      }
      SplitFree(b[1..], c);
      assert [b[0]] + b[1..] == b;
    }
  }

  /**
   * The text after the last occurrence of a one-character separator is the last field of
   * the split, which then has at least two fields.
   */
  lemma {:induction false} SplitAfterLast(a: string, c: char, b: string)
    requires c !in b
    ensures |Split(a + [c] + b, [c])| >= 2
    ensures Last(Split(a + [c] + b, [c])) == b
    decreases |a|
  {
    var s := a + [c] + b;
    if a == [] {
      assert s == [c] + b && s[..1] == [c] && s[1..] == b;
      SplitFree(b, c);
    } else {
      assert s[1..] == a[1..] + [c] + b;
      SplitAfterLast(a[1..], c, b);
      if s[..1] == [c] {
      } else {
        var rest := Split(s[1..], [c]);
        assert Split(s, [c]) == [[s[0]] + rest[0]] + rest[1..];
      }
    }
  }

  /** The last segment ends the text and contains no separator. */
  lemma LastSegmentFacts(s: string, sep: string)
    requires |sep| > 0
    ensures EndsWith(s, LastSegment(s, sep))
    ensures Free(LastSegment(s, sep), sep)
  {
    var parts := Split(s, sep);
    JoinSplit(s, sep);
    JoinEndsWithLast(parts, sep);
    SplitFieldsFree(s, sep);
    assert Free(parts[|parts| - 1], sep);
  }

  /** Every trailing empty field of `parts` removed. */
  function DropTrailingEmpty(parts: seq<string>): (r: seq<string>)
    ensures |r| <= |parts| && r == parts[..|r|]
    ensures r == [] || r[|r| - 1] != ""
    ensures forall k :: |r| <= k < |parts| ==> parts[k] == ""
  {
    if parts == [] || parts[|parts| - 1] != "" then parts
    else DropTrailingEmpty(parts[..|parts| - 1])
  }

  /**
   * Java `s.split(sep)` for a separator without regular-expression metacharacters:
   * the JavaScript fields with trailing empty fields removed, except that a text in
   * which the separator does not occur (the empty text included) gives itself.
   */
  function SplitJava(s: string, sep: string): (parts: seq<string>)
    requires |sep| > 0
  {
    if s == "" then [""] else DropTrailingEmpty(Split(s, sep))
  }

  /** Java and JavaScript split alike when the last JavaScript field is not empty. */
  lemma SplitJavaKeepsLast(s: string, sep: string)
    requires |sep| > 0 && |Split(s, sep)| > 1 && LastSegment(s, sep) != ""
    ensures SplitJava(s, sep) == Split(s, sep)
  {
    assert |s| >= |sep|;
  }

  // ---------------------------------------------------------------------------
  // Trimming
  // ---------------------------------------------------------------------------

  /** Characters Java `String.trim` removes: every code point up to U+0020. */
  predicate JavaWhitespace(c: char) {
    c <= ' '
  }

  /** Characters JavaScript `String.prototype.trim` removes: WhiteSpace and LineTerminator. */
  predicate JsWhitespace(c: char) {
    || c == '\t' || c == '\n' || c == '\U{B}' || c == '\U{C}' || c == '\r' || c == ' '
    || c == '\U{A0}' || c == '\U{1680}' || ('\U{2000}' <= c <= '\U{200A}')
    || c == '\U{2028}' || c == '\U{2029}' || c == '\U{202F}' || c == '\U{205F}'
    || c == '\U{3000}' || c == '\U{FEFF}'
  }

  /** The number of leading characters of `s` that `ws` holds of. */
  function LeadingCount(s: string, ws: char -> bool): (n: nat)
    ensures n <= |s|
    ensures forall k :: 0 <= k < n ==> ws(s[k])
    ensures n < |s| ==> !ws(s[n])
  {
    if |s| == 0 || !ws(s[0]) then 0 else 1 + LeadingCount(s[1..], ws)
  }

  /** The index at which the trailing run of characters that `ws` holds of starts. */
  function TrailingStart(s: string, ws: char -> bool): (n: nat)
    ensures n <= |s|
    ensures forall k :: n <= k < |s| ==> ws(s[k])
    ensures n > 0 ==> !ws(s[n - 1])
  {
    if |s| == 0 || !ws(s[|s| - 1]) then |s| else TrailingStart(s[..|s| - 1], ws)
  }

  /** `s` without its leading and trailing characters that `ws` holds of. */
  function Trim(s: string, ws: char -> bool): string {
    var i := LeadingCount(s, ws);
    var j := TrailingStart(s, ws);
    if j <= i then "" else s[i..j]
  }

  /**
   * The trimmed text starts and ends with a kept character, is empty exactly when every
   * character is removed, and is the slice of `s` after its leading run, followed in `s`
   * only by removed characters.
   */
  lemma TrimFacts(s: string, ws: char -> bool)
    ensures var r := Trim(s, ws);
            && (r == [] || (!ws(r[0]) && !ws(r[|r| - 1])))
            && (r == [] <==> forall k :: 0 <= k < |s| ==> ws(s[k]))
            && var i := LeadingCount(s, ws);
               i + |r| <= |s| && r == s[i..i + |r|] && forall k :: i + |r| <= k < |s| ==> ws(s[k])
  {
    var i := LeadingCount(s, ws);
    var j := TrailingStart(s, ws);
    if j <= i {
      assert i == |s|;
    } else {
      assert i < |s|;
    }
  }

  /** A slice of a slice is a slice of the original text. */
  lemma SliceOfSlice(s: string, i: nat, j: nat, k: nat, n: nat)
    requires i <= j <= |s| && k + n <= j - i
    ensures s[i..j][k..k + n] == s[i + k..i + k + n]
  {
    var t := s[i..j];
    var a := t[k..k + n];
    var b := s[i + k..i + k + n];
    assert |a| == |b|;
    forall m | 0 <= m < n ensures a[m] == b[m] {
      assert a[m] == t[k + m];
    }
  }

  /** A slice of a text free of `pat` is free of `pat`. */
  lemma FreeSlice(s: string, pat: string, i: nat, j: nat)
    requires Free(s, pat) && i <= j <= |s|
    ensures Free(s[i..j], pat)
  {
    forall k: nat ensures OccursAt(s[i..j], pat, k) ==> OccursAt(s, pat, i + k) {
      if k + |pat| <= j - i {
        SliceOfSlice(s, i, j, k, |pat|);
      }
    }
  }

  /** Trimming a text free of `pat` leaves it free of `pat`. */
  lemma TrimFree(s: string, pat: string, ws: char -> bool)
    requires Free(s, pat)
    ensures Free(Trim(s, ws), pat)
  {
    var i := LeadingCount(s, ws);
    TrimFacts(s, ws);
    FreeSlice(s, pat, i, i + |Trim(s, ws)|);
  }

  function TrimJava(s: string): string {
    Trim(s, JavaWhitespace)
  }

  function TrimJs(s: string): string {
    Trim(s, JsWhitespace)
  }

  // ---------------------------------------------------------------------------
  // Replacing and searching
  // ---------------------------------------------------------------------------

  /** Java `s.replace(pat, rep)`: every leftmost non-overlapping occurrence replaced. */
  function ReplaceAllJava(s: string, pat: string, rep: string): string
    requires |pat| > 0
    decreases |s|
  {
    if |s| < |pat| then s
    else if s[..|pat|] == pat then rep + ReplaceAllJava(s[|pat|..], pat, rep)
    else [s[0]] + ReplaceAllJava(s[1..], pat, rep)
  }

  /** A text in which the pattern's first character never appears is left unchanged. */
  lemma {:induction false} ReplaceAllAbsent(s: string, pat: string, rep: string)
    requires |pat| > 0 && pat[0] !in s
    ensures ReplaceAllJava(s, pat, rep) == s
    decreases |s|
  {
    if |s| >= |pat| {
      assert s[..|pat|][0] == s[0];
      ReplaceAllAbsent(s[1..], pat, "");
      ReplaceAllAbsent(s[1..], pat, rep);
      assert s == [s[0]] + s[1..];
    }
  }

  /** Removing a suffix pattern from a stem free of its first character gives the stem. */
  lemma {:induction false} ReplaceAllSuffix(stem: string, pat: string)
    requires |pat| > 0 && pat[0] !in stem
    ensures ReplaceAllJava(stem + pat, pat, "") == stem
    decreases |stem|
  {
    var s := stem + pat;
    if stem == [] {
      assert s[..|pat|] == pat;
      assert s[|pat|..] == [];
    } else {
      assert s[..|pat|][0] == stem[0];
      assert s[1..] == stem[1..] + pat;
      ReplaceAllSuffix(stem[1..], pat);
      assert stem == [stem[0]] + stem[1..];
    }
  }

  /** The index of the first line at or after `from` that starts with `prefix`. */
  function FirstWithPrefixFrom(lines: seq<string>, prefix: string, from: nat): (r: Option<nat>)
    requires from <= |lines|
    ensures r.Some? ==> from <= r.value < |lines| && StartsWith(lines[r.value], prefix)
                        && forall k :: from <= k < r.value ==> !StartsWith(lines[k], prefix)
    ensures r.None? ==> forall k :: from <= k < |lines| ==> !StartsWith(lines[k], prefix)
    decreases |lines| - from
  {
    if from == |lines| then None
    else if StartsWith(lines[from], prefix) then Some(from)
    else FirstWithPrefixFrom(lines, prefix, from + 1)
  }

  /** JavaScript `lines.find(l => l.startsWith(prefix))` and Java `filter(startsWith).findFirst()`, as an index. */
  function FirstWithPrefix(lines: seq<string>, prefix: string): (r: Option<nat>)
    ensures r.Some? ==> r.value < |lines| && StartsWith(lines[r.value], prefix)
                        && forall k :: 0 <= k < r.value ==> !StartsWith(lines[k], prefix)
    ensures r.None? <==> forall k :: 0 <= k < |lines| ==> !StartsWith(lines[k], prefix)
  {
    FirstWithPrefixFrom(lines, prefix, 0)
  }

  /** `i` is the first of `lines` that starts with `prefix`. */
  ghost predicate FirstStarting(lines: seq<string>, prefix: string, i: nat) {
    i < |lines| && StartsWith(lines[i], prefix) && forall k :: 0 <= k < i ==> !StartsWith(lines[k], prefix)
  }

  ghost predicate NoneStarting(lines: seq<string>, prefix: string) {
    forall k :: 0 <= k < |lines| ==> !StartsWith(lines[k], prefix)
  }

  /** JavaScript `s.toLowerCase()` restricted to the ASCII letters. */
  function LowerAscii(s: string): (r: string)
    ensures |r| == |s|
    ensures forall k :: 0 <= k < |s| ==> r[k] == if 'A' <= s[k] <= 'Z' then (s[k] as int + 32) as char else s[k]
  {
    if s == [] then []
    else [if 'A' <= s[0] <= 'Z' then (s[0] as int + 32) as char else s[0]] + LowerAscii(s[1..])
  }
}
