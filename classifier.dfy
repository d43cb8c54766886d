/**
 * The classifier `looksLikeSeparatedList`: does a text look like a list of
 * short tokens separated by delimiters, rather than prose, SQL or code?
 *
 * The source is a short-circuit cascade of gates, cheapest first. `Classify`
 * follows it gate by gate and names the rule that rejected; the source's
 * boolean is `Classify(text) == Accept`. The ratio tests of the source are on
 * floating-point quotients of small integers; here they are the equivalent
 * integer comparisons (`a / b > k` with `b > 0` is `a > k * b`).
 */
module Classifier {
  import opened Text
  import opened Tokenizer

  const MaxTextLength: nat := 10000
  const MaxTokenLength: nat := 200
  /** A token with more CJK characters than this reads as a sentence fragment. */
  const MaxCjkPerToken: nat := 6
  /** Dense CJK text is prose when the average token is longer than this. */
  const MaxDenseAverage: nat := 3
  /** Longest over shortest token above this ratio reads as prose ... */
  const MaxLengthRatio: nat := 5
  /** ... in a list of fewer tokens than this. */
  const ShortListSize: nat := 10

  // ---------------------------------------------------------------------------
  // SQL keywords: `\b(SELECT|…|ORDER\s+BY|GROUP\s+BY|…)\b` with the `i` flag.

  const SqlKeywords: seq<string> :=
    ["SELECT", "INSERT", "UPDATE", "DELETE", "FROM", "WHERE", "JOIN", "LIMIT",
     "CREATE", "DROP", "ALTER", "INTO", "VALUES"]

  /** First words of the two-word keywords `ORDER\s+BY` and `GROUP\s+BY`. */
  const SqlKeywordPairs: seq<string> := ["ORDER", "GROUP"]

  predicate IsUpperLetter(c: char) { 'A' <= c <= 'Z' }

  predicate IsAsciiLetter(c: char) { ('A' <= c <= 'Z') || ('a' <= c <= 'z') }

  /** Case-insensitive match of `c` against the upper-case pattern character `p`.
      Without the `u` flag only ASCII letters have a case partner. */
  predicate SameIgnoringCase(c: char, p: char) {
    c == p || (IsUpperLetter(p) && c as int == p as int + 32)
  }

  /** `w` occurs in `s` at position `i`, ignoring case. */
  predicate MatchesAt(s: string, i: nat, w: string) {
    i + |w| <= |s| && forall k :: 0 <= k < |w| ==> SameIgnoringCase(s[i + k], w[k])
  }

  /** `\b` in front of a match that starts with a word character. */
  predicate BoundaryBefore(s: string, i: nat) {
    i == 0 || (i <= |s| && !IsWordChar(s[i - 1]))
  }

  /** `\b` after a match that ends with a word character. */
  predicate BoundaryAfter(s: string, j: nat) {
    j >= |s| || !IsWordChar(s[j])
  }

  /** A whole-word SQL keyword, in any letter case, starts at `i`. */
  predicate KeywordAt(s: string, i: nat) {
    BoundaryBefore(s, i) &&
    ((exists n :: 0 <= n < |SqlKeywords| && MatchesAt(s, i, SqlKeywords[n])
                  && BoundaryAfter(s, i + |SqlKeywords[n]|))
     || (exists n, j :: 0 <= n < |SqlKeywordPairs| && i + |SqlKeywordPairs[n]| < j <= |s|
                  && MatchesAt(s, i, SqlKeywordPairs[n])
                  && AllSpaces(s[i + |SqlKeywordPairs[n]|..j])
                  && MatchesAt(s, j, "BY") && BoundaryAfter(s, j + 2)))
  }

  /** The SQL-keyword regular expression matches somewhere in `s`. */
  predicate HasSqlKeyword(s: string) {
    exists i :: 0 <= i < |s| && KeywordAt(s, i)
  }

  // ---------------------------------------------------------------------------
  // Character and token tests.

  const Brackets: string := "(){}[]"
  const JsonChars: string := "\":{}"

  /** `/[chars]/.test(s)` */
  predicate ContainsAny(s: string, chars: string) {
    exists k :: 0 <= k < |s| && s[k] in chars
  }

  /** `/[\s,;，；]/.test(s)` */
  predicate HasDelimiter(s: string) {
    exists k :: 0 <= k < |s| && IsDelimiter(s[k])
  }

  /** A character of the class `[\w一-鿿\-._@#]`. */
  predicate IsSimpleChar(c: char) {
    IsWordChar(c) || IsCjk(c) || c == '-' || c == '.' || c == '_' || c == '@' || c == '#'
  }

  /** `/^[\w一-鿿\-._@#]+$/.test(t) && t.length <= 200` */
  predicate IsSimpleToken(t: string) {
    0 < |t| <= MaxTokenLength && forall k :: 0 <= k < |t| ==> IsSimpleChar(t[k])
  }

  /** Number of CJK characters, `s.replace(/[^一-鿿]/g, '').length`. */
  function CjkCount(s: string): (n: nat)
    ensures n <= |s|
  {
    if s == [] then 0 else (if IsCjk(s[0]) then 1 else 0) + CjkCount(s[1..])
  }

  /** Sum of the token lengths. */
  function TotalLength(ts: seq<string>): nat {
    if ts == [] then 0 else |ts[0]| + TotalLength(ts[1..])
  }

  /** `Math.max(...lengths)`: a bound on every token length, reached by one of them. */
  function MaxLength(ts: seq<string>): (m: nat)
    requires ts != []
    ensures forall i :: 0 <= i < |ts| ==> |ts[i]| <= m
    ensures exists i :: 0 <= i < |ts| && |ts[i]| == m
  {
    if |ts| == 1 then |ts[0]|
    else
      var rest := MaxLength(ts[1..]);
      assert forall i :: 1 <= i < |ts| ==> ts[i] == ts[1..][i - 1];
      if |ts[0]| >= rest then |ts[0]| else rest
  }

  /** `Math.min(...lengths)`: at most every token length, reached by one of them. */
  function MinLength(ts: seq<string>): (m: nat)
    requires ts != []
    ensures forall i :: 0 <= i < |ts| ==> m <= |ts[i]|
    ensures exists i :: 0 <= i < |ts| && |ts[i]| == m
  {
    if |ts| == 1 then |ts[0]|
    else
      var rest := MinLength(ts[1..]);
      assert forall i :: 1 <= i < |ts| ==> ts[i] == ts[1..][i - 1];
      if |ts[0]| <= rest then |ts[0]| else rest
  }

  // ---------------------------------------------------------------------------
  // The three prose heuristics.

  /** Heuristic 1: more than half of the text is CJK (`chineseRatio > 0.5`) and
      the average token is longer than 3 (`avgLen > 3`). */
  predicate DenseCjkProse(trimmed: string, tokens: seq<string>) {
    2 * CjkCount(trimmed) > |trimmed| && TotalLength(tokens) > MaxDenseAverage * |tokens|
  }

  /** Heuristic 2: some token holds more than 6 CJK characters. */
  predicate HasLongCjkToken(tokens: seq<string>) {
    exists i :: 0 <= i < |tokens| && CjkCount(tokens[i]) > MaxCjkPerToken
  }

  /** Heuristic 3: `minLen > 0 && maxLen / minLen > 5 && tokens.length < 10`. */
  predicate UnevenLengths(tokens: seq<string>)
    requires tokens != []
  {
    MinLength(tokens) > 0 && MaxLength(tokens) > MaxLengthRatio * MinLength(tokens)
    && |tokens| < ShortListSize
  }

  // ---------------------------------------------------------------------------
  // The cascade.

  datatype Rule =
    | SizeGate          // empty after trimming, or longer than 10000
    | SqlKeyword        // a whole-word SQL keyword
    | Bracket           // one of ( ) { } [ ]
    | JsonLiteral       // one of " : { }
    | NoDelimiterFound  // no whitespace, comma or semicolon at all
    | TooFewTokens      // fewer than 2 tokens
    | TokenShape        // a token with other characters, or longer than 200
    | DenseCjk          // heuristic 1
    | LongCjkToken      // heuristic 2
    | Uneven            // heuristic 3

  datatype Verdict = Accept | Reject(rule: Rule)

  /** The gates of `looksLikeSeparatedList`, in the source's order. */
  function Classify(text: string): Verdict {
    ClassifyTrimmed(Trim(text))
  }

  /** The cascade on the trimmed text: the text-level gates, then the tokens. */
  function ClassifyTrimmed(trimmed: string): Verdict {
    var gates := TextVerdict(trimmed);
    if gates.Reject? then gates else TokensVerdict(trimmed, ParseTokens(trimmed))
  }

  /** The gates that look at the text as a whole, before it is tokenized. */
  function TextVerdict(trimmed: string): Verdict {
    if |trimmed| == 0 || |trimmed| > MaxTextLength then Reject(SizeGate)
    else if HasSqlKeyword(trimmed) then Reject(SqlKeyword)
    else if ContainsAny(trimmed, Brackets) then Reject(Bracket)
    else if ContainsAny(trimmed, JsonChars) then Reject(JsonLiteral)
    else if !HasDelimiter(trimmed) then Reject(NoDelimiterFound)
    else Accept
  }

  /** The checks on the tokens of a text that passed the text-level gates. */
  function TokensVerdict(trimmed: string, tokens: seq<string>): Verdict {
    if |tokens| < 2 then Reject(TooFewTokens)
    else if !(forall i :: 0 <= i < |tokens| ==> IsSimpleToken(tokens[i])) then Reject(TokenShape)
    else ProseVerdict(trimmed, tokens)
  }

  /** The three prose heuristics, in the source's order. */
  function ProseVerdict(trimmed: string, tokens: seq<string>): Verdict
    requires tokens != []
  {
    if DenseCjkProse(trimmed, tokens) then Reject(DenseCjk)
    else if HasLongCjkToken(tokens) then Reject(LongCjkToken)
    else if UnevenLengths(tokens) then Reject(Uneven)
    else Accept
  }

  /**
   * `looksLikeSeparatedList(text)`. It is false when the trimmed text is empty
   * or longer than 10000 characters, holds a whole-word SQL keyword, holds one
   * of `( ) { } [ ] " :`, or holds no delimiter.
   */
  function LooksLikeSeparatedList(text: string): (r: bool)
    ensures r ==> 0 < |Trim(text)| <= MaxTextLength
    ensures r ==> !HasSqlKeyword(Trim(text))
    ensures r ==> !ContainsAny(Trim(text), Brackets) && !ContainsAny(Trim(text), JsonChars)
    ensures r ==> HasDelimiter(Trim(text))
  {
    Classify(text) == Accept
  }

  // ---------------------------------------------------------------------------
  // What an accepted text is.

  /** The prose heuristics let through only texts that none of them flags. */
  lemma ProseAccepted(trimmed: string, tokens: seq<string>)
    requires tokens != [] && ProseVerdict(trimmed, tokens) == Accept
    ensures !DenseCjkProse(trimmed, tokens)
    ensures forall i :: 0 <= i < |tokens| ==> CjkCount(tokens[i]) <= MaxCjkPerToken
    ensures !UnevenLengths(tokens)
  {
  }

  /** A trimmed text that passes the text gates and splits into at least two
      simple tokens is judged by the prose heuristics alone. */
  lemma TextGatesPassed(s: string, tokens: seq<string>)
    requires Trim(s) == s && 0 < |s| <= MaxTextLength
    requires !HasSqlKeyword(s) && !ContainsAny(s, Brackets) && !ContainsAny(s, JsonChars)
    requires HasDelimiter(s)
    requires ParseTokens(s) == tokens && |tokens| >= 2
    requires forall i :: 0 <= i < |tokens| ==> IsSimpleToken(tokens[i])
    ensures Classify(s) == ProseVerdict(s, tokens)
  {
    assert Classify(s) == ClassifyTrimmed(s);
    assert !(|s| == 0 || |s| > MaxTextLength);
  }

  /** What the cascade demands of an already trimmed text it accepts. */
  lemma AcceptedTrimmed(trimmed: string)
    requires ClassifyTrimmed(trimmed) == Accept
    ensures var tokens := ParseTokens(trimmed);
      |tokens| >= 2
      && (forall i :: 0 <= i < |tokens| ==> IsSimpleToken(tokens[i]))
      && ProseVerdict(trimmed, tokens) == Accept
  {
  }

  /** An accepted text has at least two tokens, each simple and at most 200
      long, and passed all three prose heuristics. */
  lemma AcceptedTokens(text: string)
    requires LooksLikeSeparatedList(text)
    ensures var tokens := ParseTokens(text);
      |tokens| >= 2
      && (forall i :: 0 <= i < |tokens| ==> IsSimpleToken(tokens[i]))
      && !DenseCjkProse(Trim(text), tokens)
      && (forall i :: 0 <= i < |tokens| ==> CjkCount(tokens[i]) <= MaxCjkPerToken)
      && !(MaxLength(tokens) > MaxLengthRatio * MinLength(tokens) && |tokens| < ShortListSize)
  {
    var trimmed := Trim(text);
    var tokens := ParseTokens(text);
    AcceptedTrimmed(trimmed);
    ParseTokensOfTrim(text);
    ProseAccepted(trimmed, tokens);
    ParseTokensAreTokens(text);
    assert MinLength(tokens) > 0;
  }

  /** The `minLen > 0` guard of heuristic 3 always holds: tokens are never empty. */
  lemma MinLengthPositive(text: string)
    requires ParseTokens(text) != []
    ensures MinLength(ParseTokens(text)) >= 1
  {
    ParseTokensAreTokens(text);
  }

  /** The classifier sees only the trimmed text. */
  lemma ClassifyOfTrim(text: string)
    ensures Classify(Trim(text)) == Classify(text)
    ensures LooksLikeSeparatedList(Trim(text)) == LooksLikeSeparatedList(text)
  {
    TrimIdempotent(text);
  }

  /** Every non-delimiter character of a text lies inside one of its tokens. */
  lemma {:induction false} CharInSomeWord(s: string, k: nat)
    requires k < |s| && !IsDelimiter(s[k])
    ensures exists i, j :: 0 <= i < |Words(s)| && 0 <= j < |Words(s)[i]| && Words(s)[i][j] == s[k]
    decreases |s|
  {
    if IsDelimiter(s[0]) {
      assert k >= 1 && s[1..][k - 1] == s[k];
      CharInSomeWord(s[1..], k - 1);
      var i, j :| 0 <= i < |Words(s[1..])| && 0 <= j < |Words(s[1..])[i]| && Words(s[1..])[i][j] == s[1..][k - 1];
      assert Words(s)[i][j] == s[k];
    } else {
      var n := RunLength(s);
      var ws := Words(s);
      assert ws == [s[..n]] + Words(s[n..]);
      if k < n {
        assert ws[0][k] == s[k];
      } else {
        CharInSomeWord(s[n..], k - n);
        var i, j :| 0 <= i < |Words(s[n..])| && 0 <= j < |Words(s[n..])[i]| && Words(s[n..])[i][j] == s[n..][k - n];
        assert ws[i + 1][j] == s[k];
      }
    }
  }

  /**
   * An accepted text is written only with delimiters and the token alphabet
   * `[\w一-鿿\-._@#]`. In particular all its characters lie in the
   * Basic Multilingual Plane, so counting characters and counting UTF-16 code
   * units agree on every text the classifier accepts.
   */
  lemma AcceptedAlphabet(text: string)
    requires LooksLikeSeparatedList(text)
    ensures forall k :: 0 <= k < |Trim(text)| ==>
      IsDelimiter(Trim(text)[k]) || IsSimpleChar(Trim(text)[k])
    ensures forall k :: 0 <= k < |Trim(text)| ==> Trim(text)[k] as int < 0x1_0000
  {
    var t := Trim(text);
    AcceptedTokens(text);
    ParseTokensOfTrim(text);
    TokensCoverText(t);
    forall k | 0 <= k < |t| ensures t[k] as int < 0x1_0000 {
      AlphabetInBmp(t[k]);
    }
  }

  lemma AlphabetInBmp(c: char)
    requires IsDelimiter(c) || IsSimpleChar(c)
    ensures c as int < 0x1_0000
  {
  }

  /** When every token is simple, every character is a delimiter or a token character. */
  lemma TokensCoverText(t: string)
    requires forall i :: 0 <= i < |ParseTokens(t)| ==> IsSimpleToken(ParseTokens(t)[i])
    ensures forall k :: 0 <= k < |t| ==> IsDelimiter(t[k]) || IsSimpleChar(t[k])
  {
    ParseTokensIsWords(t);
    forall k | 0 <= k < |t| && !IsDelimiter(t[k]) ensures IsSimpleChar(t[k]) {
      CharInSomeWord(t, k);
    }
  }

  // ---------------------------------------------------------------------------
  // Counting CJK characters.

  lemma {:induction false} CjkCountAppend(a: string, b: string)
    ensures CjkCount(a + b) == CjkCount(a) + CjkCount(b)
  {
    if a == [] {
      assert a + b == b;
    } else {
      assert (a + b)[1..] == a[1..] + b;
      CjkCountAppend(a[1..], b);
    }
  }

  lemma {:induction false} CjkCountOfCjk(s: string)
    requires forall k :: 0 <= k < |s| ==> IsCjk(s[k])
    ensures CjkCount(s) == |s|
  {
    if s != [] {
      CjkCountOfCjk(s[1..]);
    }
  }

  lemma {:induction false} CjkCountOfNonCjk(s: string)
    requires forall k :: 0 <= k < |s| ==> !IsCjk(s[k])
    ensures CjkCount(s) == 0
  {
    if s != [] {
      CjkCountOfNonCjk(s[1..]);
    }
  }

  // ---------------------------------------------------------------------------
  // SQL keywords need two adjacent letters.

  lemma NoKeywordWithoutAdjacentLetters(s: string)
    requires forall k :: 0 <= k < |s| - 1 ==> !(IsAsciiLetter(s[k]) && IsAsciiLetter(s[k + 1]))
    ensures !HasSqlKeyword(s)
  {
    forall i, n | 0 <= i < |s| && 0 <= n < |SqlKeywords| ensures !MatchesAt(s, i, SqlKeywords[n]) {
      KeywordNeedsLetters(s, i, SqlKeywords[n]);
    }
    forall i, n | 0 <= i < |s| && 0 <= n < |SqlKeywordPairs| ensures !MatchesAt(s, i, SqlKeywordPairs[n]) {
      KeywordNeedsLetters(s, i, SqlKeywordPairs[n]);
    }
  }

  /** A match of a word starting with two letters covers two adjacent letters. */
  lemma KeywordNeedsLetters(s: string, i: nat, w: string)
    requires |w| >= 2 && IsUpperLetter(w[0]) && IsUpperLetter(w[1])
    ensures MatchesAt(s, i, w) ==> IsAsciiLetter(s[i]) && i + 1 < |s| && IsAsciiLetter(s[i + 1])
  {
    if MatchesAt(s, i, w) {
      assert SameIgnoringCase(s[i + 0], w[0]) && SameIgnoringCase(s[i + 1], w[1]);
    }
  }
}
