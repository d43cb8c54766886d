/**
 * Character classes and trimming.
 *
 * Strings are sequences of characters. A JavaScript string is a sequence of
 * UTF-16 code units; for text in the Basic Multilingual Plane outside the
 * surrogate range U+D800 to U+DFFF the two agree element by element (see the
 * Classifier for why the verdict is the same on characters above it). A lone
 * surrogate, which a JavaScript string can hold, is no character here.
 */
module Text {

  /** JavaScript's `\s`, which is also exactly the set `String.prototype.trim` strips:
      the ECMAScript WhiteSpace and LineTerminator characters. */
  predicate IsSpace(c: char) {
    c == '\t' || c == '\n' || c == '\U{000B}' || c == '\U{000C}' || c == '\r' || c == ' '
    || c == '\U{00A0}' || c == '\U{1680}' || ('\U{2000}' <= c <= '\U{200A}')
    || c == '\U{2028}' || c == '\U{2029}' || c == '\U{202F}' || c == '\U{205F}'
    || c == '\U{3000}' || c == '\U{FEFF}'
  }

  const FullWidthComma: char := '\U{FF0C}'
  const FullWidthSemicolon: char := '\U{FF1B}'

  /** One character of the delimiter class `[\s,;，；]`. */
  predicate IsDelimiter(c: char) {
    IsSpace(c) || c == ',' || c == ';' || c == FullWidthComma || c == FullWidthSemicolon
  }

  /** `\w` of a regular expression without the `u` flag. */
  predicate IsWordChar(c: char) {
    ('A' <= c <= 'Z') || ('a' <= c <= 'z') || ('0' <= c <= '9') || c == '_'
  }

  /** The CJK Unified Ideographs block `一-鿿`. */
  predicate IsCjk(c: char) {
    '\U{4E00}' <= c <= '\U{9FFF}'
  }

  predicate AllSpaces(s: string) {
    forall k :: 0 <= k < |s| ==> IsSpace(s[k])
  }

  predicate NoDelimiter(s: string) {
    forall k :: 0 <= k < |s| ==> !IsDelimiter(s[k])
  }

  /** Every character of `s[i..j]` is whitespace. */
  predicate SpacesIn(s: string, i: nat, j: nat)
    requires i <= j <= |s|
  {
    forall k :: i <= k < j ==> IsSpace(s[k])
  }

  /** The first index at or after `i` that does not hold whitespace. */
  function SkipSpaces(s: string, i: nat): (j: nat)
    requires i <= |s|
    ensures i <= j <= |s| && SpacesIn(s, i, j)
    ensures j < |s| ==> !IsSpace(s[j])
    decreases |s| - i
  {
    if i == |s| || !IsSpace(s[i]) then i else SkipSpaces(s, i + 1)
  }

  /** The last index at or before `j` that does not follow whitespace. */
  function SkipSpacesBack(s: string, j: nat): (i: nat)
    requires j <= |s|
    ensures i <= j && SpacesIn(s, i, j)
    ensures i > 0 ==> !IsSpace(s[i - 1])
  {
    if j == 0 || !IsSpace(s[j - 1]) then j else SkipSpacesBack(s, j - 1)
  }

  /** Where the trimmed text starts. */
  function TrimStart(s: string): nat {
    SkipSpaces(s, 0)
  }

  /** Where the trimmed text ends. */
  function TrimEnd(s: string): nat {
    SkipSpacesBack(s, |s|)
  }

  /** `String.prototype.trim`, the core of `safeTrim`: the text between the
      leading and the trailing whitespace, empty when there is only whitespace. */
  function Trim(s: string): (r: string)
    ensures |r| <= |s|
  {
    if TrimEnd(s) <= TrimStart(s) then [] else s[TrimStart(s)..TrimEnd(s)]
  }

  /**
   * What trimming leaves: either nothing, when the whole text is whitespace, or
   * the slice between the leading and the trailing whitespace, which neither
   * starts nor ends with whitespace.
   */
  lemma TrimShape(s: string)
    ensures Trim(s) == [] ==> AllSpaces(s)
    ensures Trim(s) != [] ==>
      var a := TrimStart(s); var e := TrimEnd(s);
      a < e && Trim(s) == s[a..e] && SpacesIn(s, 0, a) && SpacesIn(s, e, |s|)
      && !IsSpace(s[a]) && !IsSpace(s[e - 1])
  {
    var a := TrimStart(s);
    var e := TrimEnd(s);
    if e <= a {
      assert a == |s|;
    } else {
      assert a < |s|;
    }
  }

  /** Trimming gives the empty string exactly for whitespace-only input. */
  lemma TrimEmptyIff(s: string)
    ensures Trim(s) == [] <==> AllSpaces(s)
  {
    TrimShape(s);
  }

  /** `parts.join(sep)` for a one-character separator: no separator before the
      first part or after the last, and the empty string for no parts. */
  function Join(parts: seq<string>, sep: char): string {
    if parts == [] then []
    else if |parts| == 1 then parts[0]
    else parts[0] + [sep] + Join(parts[1..], sep)
  }

  /** A string `safeTrim` turns into the empty string. */
  predicate IsBlank(s: string) {
    Trim(s) == []
  }

  /** Trimming a string twice is trimming it once. */
  lemma TrimIdempotent(s: string)
    ensures Trim(Trim(s)) == Trim(s)
  {
    var t := Trim(s);
    TrimShape(s);
    if t != [] {
      assert t[0] == s[TrimStart(s)] && t[|t| - 1] == s[TrimEnd(s) - 1];
      TrimOfUnpadded(t);
    }
  }

  /** A string that neither starts nor ends with whitespace is its own trim. */
  lemma TrimOfUnpadded(t: string)
    requires t != [] && !IsSpace(t[0]) && !IsSpace(t[|t| - 1])
    ensures Trim(t) == t
  {
    assert TrimStart(t) == 0;
    assert TrimEnd(t) == |t|;
    assert t[0..|t|] == t;
  }

  /** A string without delimiters (in particular without whitespace) is its own trim. */
  lemma TrimOfDelimiterFree(t: string)
    requires NoDelimiter(t)
    ensures Trim(t) == t
  {
    if t != [] {
      TrimOfUnpadded(t);
    }
  }
}
