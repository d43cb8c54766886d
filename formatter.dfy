/**
 * The formatter `formatQuotedList` and its two escapers.
 *
 * Single style renders `'a','b'` with the SQL convention of doubling quotes;
 * double style renders `"a","b"` escaping backslash and then the double quote,
 * as in a JSON or code string literal. The decoders below read such a list
 * back; they are the partners against which the formatter is proved
 * (`DecodeSqlList(FormatQuotedList(ts, "'")) == Some(ts)` and likewise for
 * double style).
 */
module Formatter {
  import opened Wrappers
  import opened Text
  import opened Tokenizer

  /** Number of occurrences of `c` in `s`. */
  function Count(s: string, c: char): (n: nat)
    ensures n <= |s|
  {
    if s == [] then 0 else (if s[0] == c then 1 else 0) + Count(s[1..], c)
  }

  /** `s.replace(/c/g, rep)` for a single-character pattern and a replacement
      without `$` patterns: every `c` becomes `rep`, every other character stays. */
  function ReplaceAll(s: string, c: char, rep: string): (r: string)
    ensures |r| == |s| + (|rep| - 1) * Count(s, c)
  {
    if s == [] then []
    else (if s[0] == c then rep else [s[0]]) + ReplaceAll(s[1..], c, rep)
  }

  /** Replacing characters one by one distributes over concatenation. */
  lemma {:induction false} ReplaceAllAppend(a: string, b: string, c: char, rep: string)
    ensures ReplaceAll(a + b, c, rep) == ReplaceAll(a, c, rep) + ReplaceAll(b, c, rep)
  {
    if a != [] {
      assert (a + b)[1..] == a[1..] + b;
      ReplaceAllAppend(a[1..], b, c, rep);
    } else {
      assert a + b == b;
    }
  }

  /** Replacing a character that does not occur changes nothing. */
  lemma {:induction false} ReplaceAllAbsent(s: string, c: char, rep: string)
    requires forall k :: 0 <= k < |s| ==> s[k] != c
    ensures ReplaceAll(s, c, rep) == s
  {
    if s != [] {
      ReplaceAllAbsent(s[1..], c, rep);
      assert s == [s[0]] + s[1..];
    }
  }

  /** Replacement keeps a delimiter-free text delimiter-free when the replacement is. */
  lemma {:induction false} ReplaceAllNoDelimiter(s: string, c: char, rep: string)
    requires NoDelimiter(s) && NoDelimiter(rep)
    ensures NoDelimiter(ReplaceAll(s, c, rep))
  {
    if s != [] {
      ReplaceAllNoDelimiter(s[1..], c, rep);
      var head := if s[0] == c then rep else [s[0]];
      var tail := ReplaceAll(s[1..], c, rep);
      assert forall k :: 0 <= k < |head + tail| ==>
        (head + tail)[k] == if k < |head| then head[k] else tail[k - |head|];
    }
  }

  // ---------------------------------------------------------------------------
  // Single style.

  /** `escapeSqlSingleQuote`: every `'` becomes `''`, so the length grows by the number of quotes. */
  function EscapeSqlSingleQuote(s: string): (r: string)
    ensures |r| == |s| + Count(s, '\'')
  {
    ReplaceAll(s, '\'', "''")
  }

  /** The single-style entry `'…'`. */
  function SqlLiteral(t: string): string {
    "'" + EscapeSqlSingleQuote(t) + "'"
  }

  // ---------------------------------------------------------------------------
  // Double style.

  /** `escapeDoubleQuoteForCode`: first `\` becomes `\\`, then `"` becomes `\"`. */
  function EscapeDoubleQuoteForCode(s: string): string {
    ReplaceAll(ReplaceAll(s, '\\', "\\\\"), '"', "\\\"")
  }

  /** The intended escaping of one character in a code string. */
  function EscapeCodeChar(c: char): string {
    if c == '\\' then "\\\\" else if c == '"' then "\\\"" else [c]
  }

  /** Single-pass reference escaping: each character escaped on its own. */
  function EscapeCodeChars(s: string): string {
    if s == [] then [] else EscapeCodeChar(s[0]) + EscapeCodeChars(s[1..])
  }

  /**
   * Because backslashes are escaped before quotes, the two passes escape each
   * character independently: the backslash inserted in front of a quote is not
   * doubled again.
   */
  lemma {:induction false} EscapeDoubleQuoteIsPerCharacter(s: string)
    ensures EscapeDoubleQuoteForCode(s) == EscapeCodeChars(s)
  {
    if s != [] {
      EscapeDoubleQuoteIsPerCharacter(s[1..]);
      var first := if s[0] == '\\' then "\\\\" else [s[0]];
      ReplaceAllAppend(first, ReplaceAll(s[1..], '\\', "\\\\"), '"', "\\\"");
      if s[0] != '\\' && s[0] != '"' {
        ReplaceAllAbsent(first, '"', "\\\"");
      } else if s[0] == '\\' {
        ReplaceAllAbsent(first, '"', "\\\"");
      }
    }
  }

  /** The double-style entry `"…"`. */
  function CodeLiteral(t: string): string {
    "\"" + EscapeDoubleQuoteForCode(t) + "\""
  }

  // ---------------------------------------------------------------------------
  // The list.

  function SqlLiterals(tokens: seq<string>): (r: seq<string>)
    ensures |r| == |tokens|
  {
    seq(|tokens|, i requires 0 <= i < |tokens| => SqlLiteral(tokens[i]))
  }

  function CodeLiterals(tokens: seq<string>): (r: seq<string>)
    ensures |r| == |tokens|
  {
    seq(|tokens|, i requires 0 <= i < |tokens| => CodeLiteral(tokens[i]))
  }

  /**
   * `formatQuotedList(tokens, quote)`: the entries joined by single commas. The
   * quote argument `'` selects single style; any other argument selects
   * double style. No tokens give the empty string.
   */
  function FormatQuotedList(tokens: seq<string>, quote: string): (r: string)
    ensures tokens == [] ==> r == []
  {
    if quote == "'" then Join(SqlLiterals(tokens), ',')
    else Join(CodeLiterals(tokens), ',')
  }

  // ---------------------------------------------------------------------------
  // Decoders: reading a formatted list back.

  function Prepend(c: char, r: Option<(string, string)>): Option<(string, string)> {
    match r
    case None => None
    case Some((t, rest)) => Some(([c] + t, rest))
  }

  /** Reads the body of a SQL literal up to its closing quote, undoubling `''`.
      Returns the value and what follows the closing quote. */
  function ReadSqlBody(s: string): (r: Option<(string, string)>)
    ensures r.Some? ==> |r.value.1| < |s|
  {
    if s == [] then None
    else if s[0] == '\'' then
      if |s| > 1 && s[1] == '\'' then Prepend('\'', ReadSqlBody(s[2..]))
      else Some(([], s[1..]))
    else Prepend(s[0], ReadSqlBody(s[1..]))
  }

  /** Reads one or more comma-separated SQL literals that make up all of `s`. */
  function DecodeSqlEntries(s: string): Option<seq<string>>
    decreases |s|
  {
    if s == [] || s[0] != '\'' then None
    else
      match ReadSqlBody(s[1..])
      case None => None
      case Some((t, rest)) =>
        if rest == [] then Some([t])
        else if rest[0] != ',' then None
        else
          match DecodeSqlEntries(rest[1..])
          case None => None
          case Some(ts) => Some([t] + ts)
  }

  /** Reads a single-style list; the empty string is the empty list. */
  function DecodeSqlList(s: string): Option<seq<string>> {
    if s == [] then Some([]) else DecodeSqlEntries(s)
  }

  /** Reads the body of a code string up to its closing `"`; `\x` stands for `x`. */
  function ReadCodeBody(s: string): (r: Option<(string, string)>)
    ensures r.Some? ==> |r.value.1| < |s|
  {
    if s == [] then None
    else if s[0] == '"' then Some(([], s[1..]))
    else if s[0] == '\\' then
      if |s| > 1 then Prepend(s[1], ReadCodeBody(s[2..])) else None
    else Prepend(s[0], ReadCodeBody(s[1..]))
  }

  /** Reads one or more comma-separated code strings that make up all of `s`. */
  function DecodeCodeEntries(s: string): Option<seq<string>>
    decreases |s|
  {
    if s == [] || s[0] != '"' then None
    else
      match ReadCodeBody(s[1..])
      case None => None
      case Some((t, rest)) =>
        if rest == [] then Some([t])
        else if rest[0] != ',' then None
        else
          match DecodeCodeEntries(rest[1..])
          case None => None
          case Some(ts) => Some([t] + ts)
  }

  /** Reads a double-style list; the empty string is the empty list. */
  function DecodeCodeList(s: string): Option<seq<string>> {
    if s == [] then Some([]) else DecodeCodeEntries(s)
  }

  // ---------------------------------------------------------------------------
  // Round trips.

  /** An escaped SQL body followed by the closing quote reads back as the value,
      provided what follows cannot be mistaken for a doubled quote. */
  lemma {:induction false} SqlBodyRoundTrip(t: string, rest: string)
    requires rest == [] || rest[0] != '\''
    ensures ReadSqlBody(EscapeSqlSingleQuote(t) + "'" + rest) == Some((t, rest))
  {
    if t == [] {
      var s := EscapeSqlSingleQuote(t) + "'" + rest;
      assert s == "'" + rest;
      assert s[1..] == rest;
    } else {
      var tail := EscapeSqlSingleQuote(t[1..]) + "'" + rest;
      SqlBodyRoundTrip(t[1..], rest);
      SqlEscapeCons(t);
      var e := if t[0] == '\'' then "''" else [t[0]];
      assert EscapeSqlSingleQuote(t) + "'" + rest == e + tail;
      ReadSqlBodyStep(t[0], tail);
      assert [t[0]] + t[1..] == t;
    }
  }

  /** Escaping the first character, then the rest. */
  lemma SqlEscapeCons(t: string)
    requires t != []
    ensures EscapeSqlSingleQuote(t) == (if t[0] == '\'' then "''" else [t[0]]) + EscapeSqlSingleQuote(t[1..])
  {
  }

  /** Reading an escaped character in front of a body that reads as `r`. */
  lemma ReadSqlBodyStep(c: char, tail: string)
    requires tail != []
    ensures ReadSqlBody((if c == '\'' then "''" else [c]) + tail) == Prepend(c, ReadSqlBody(tail))
  {
    var s := (if c == '\'' then "''" else [c]) + tail;
    if c == '\'' {
      assert s[2..] == tail;
    } else {
      assert s[1..] == tail;
    }
  }

  /** A single SQL literal reads back as its value. */
  lemma SqlEntrySingle(t: string)
    ensures DecodeSqlEntries(SqlLiteral(t)) == Some([t])
  {
    var s := SqlLiteral(t);
    SqlBodyRoundTrip(t, []);
    assert s[1..] == EscapeSqlSingleQuote(t) + "'" + [];
  }

  /** A SQL literal followed by a comma and a readable list reads as one more entry. */
  lemma SqlEntryCons(t: string, tail: string, ts: seq<string>)
    requires DecodeSqlEntries(tail) == Some(ts)
    ensures DecodeSqlEntries(SqlLiteral(t) + [','] + tail) == Some([t] + ts)
  {
    var s := SqlLiteral(t) + [','] + tail;
    SqlBodyRoundTrip(t, [','] + tail);
    assert s[1..] == EscapeSqlSingleQuote(t) + "'" + ([','] + tail);
    assert ([','] + tail)[1..] == tail;
  }

  /** The first part of a join, then the separator, then the join of the rest. */
  lemma JoinCons(parts: seq<string>, sep: char)
    requires |parts| >= 2
    ensures Join(parts, sep) == parts[0] + [sep] + Join(parts[1..], sep)
  {
  }

  lemma SqlLiteralsCons(tokens: seq<string>)
    requires tokens != []
    ensures SqlLiterals(tokens)[0] == SqlLiteral(tokens[0])
    ensures SqlLiterals(tokens)[1..] == SqlLiterals(tokens[1..])
  {
  }

  lemma {:induction false} SqlEntriesRoundTrip(tokens: seq<string>)
    requires tokens != []
    ensures DecodeSqlEntries(Join(SqlLiterals(tokens), ',')) == Some(tokens)
    decreases |tokens|
  {
    var lits := SqlLiterals(tokens);
    SqlLiteralsCons(tokens);
    if |tokens| == 1 {
      SqlEntrySingle(tokens[0]);
      assert tokens == [tokens[0]];
    } else {
      JoinCons(lits, ',');
      SqlEntriesRoundTrip(tokens[1..]);
      SqlEntryCons(tokens[0], Join(SqlLiterals(tokens[1..]), ','), tokens[1..]);
      assert [tokens[0]] + tokens[1..] == tokens;
    }
  }

  /** Any token list, including tokens holding quotes or commas, is read back
      unchanged from its single-style rendering. */
  lemma SqlListRoundTrip(tokens: seq<string>)
    ensures DecodeSqlList(FormatQuotedList(tokens, "'")) == Some(tokens)
  {
    if tokens != [] {
      SqlEntriesRoundTrip(tokens);
      assert SqlLiterals(tokens)[0][0] == '\'';
      JoinStartsWith(SqlLiterals(tokens), ',');
    }
  }

  /** A join of non-empty parts starts with the first character of the first part. */
  lemma JoinStartsWith(parts: seq<string>, sep: char)
    requires parts != [] && parts[0] != []
    ensures Join(parts, sep) != [] && Join(parts, sep)[0] == parts[0][0]
  {
  }

  /** An escaped code body followed by the closing `"` reads back as the value. */
  lemma {:induction false} CodeBodyRoundTrip(t: string, rest: string)
    ensures ReadCodeBody(EscapeCodeChars(t) + "\"" + rest) == Some((t, rest))
  {
    var s := EscapeCodeChars(t) + "\"" + rest;
    if t == [] {
      assert s == "\"" + rest;
      assert s[1..] == rest;
    } else {
      CodeBodyRoundTrip(t[1..], rest);
      var e := EscapeCodeChar(t[0]);
      assert s == e + (EscapeCodeChars(t[1..]) + "\"" + rest);
      assert [t[0]] + t[1..] == t;
      if t[0] == '\\' || t[0] == '"' {
        assert s[2..] == EscapeCodeChars(t[1..]) + "\"" + rest;
      } else {
        assert s[1..] == EscapeCodeChars(t[1..]) + "\"" + rest;
      }
    }
  }

  /** A single code string reads back as its value. */
  lemma CodeEntrySingle(t: string)
    ensures DecodeCodeEntries(CodeLiteral(t)) == Some([t])
  {
    var s := CodeLiteral(t);
    EscapeDoubleQuoteIsPerCharacter(t);
    CodeBodyRoundTrip(t, []);
    assert s[1..] == EscapeCodeChars(t) + "\"" + [];
  }

  /** A code string followed by a comma and a readable list reads as one more entry. */
  lemma CodeEntryCons(t: string, tail: string, ts: seq<string>)
    requires DecodeCodeEntries(tail) == Some(ts)
    ensures DecodeCodeEntries(CodeLiteral(t) + [','] + tail) == Some([t] + ts)
  {
    var b := EscapeDoubleQuoteForCode(t);
    var after := [','] + tail;
    var s := CodeLiteral(t) + [','] + tail;
    EscapeDoubleQuoteIsPerCharacter(t);
    CodeBodyRoundTrip(t, after);
    assert s == "\"" + (b + "\"" + after);
    assert after[1..] == tail;
  }

  lemma CodeLiteralsCons(tokens: seq<string>)
    requires tokens != []
    ensures CodeLiterals(tokens)[0] == CodeLiteral(tokens[0])
    ensures CodeLiterals(tokens)[1..] == CodeLiterals(tokens[1..])
  {
  }

  lemma {:induction false} CodeEntriesRoundTrip(tokens: seq<string>)
    requires tokens != []
    ensures DecodeCodeEntries(Join(CodeLiterals(tokens), ',')) == Some(tokens)
    decreases |tokens|
  {
    var lits := CodeLiterals(tokens);
    CodeLiteralsCons(tokens);
    if |tokens| == 1 {
      CodeEntrySingle(tokens[0]);
      assert tokens == [tokens[0]];
    } else {
      JoinCons(lits, ',');
      CodeEntriesRoundTrip(tokens[1..]);
      CodeEntryCons(tokens[0], Join(CodeLiterals(tokens[1..]), ','), tokens[1..]);
      assert [tokens[0]] + tokens[1..] == tokens;
    }
  }

  /** Any token list is read back unchanged from its double-style rendering,
      whatever non-`'` quote argument selected that style. */
  lemma CodeListRoundTrip(tokens: seq<string>, quote: string)
    requires quote != "'"
    ensures DecodeCodeList(FormatQuotedList(tokens, quote)) == Some(tokens)
  {
    if tokens != [] {
      CodeEntriesRoundTrip(tokens);
      assert CodeLiterals(tokens)[0][0] == '"';
      JoinStartsWith(CodeLiterals(tokens), ',');
    }
  }

  // ---------------------------------------------------------------------------
  // The formatted list seen by the tokenizer.

  lemma SqlLiteralIsToken(t: string)
    requires NoDelimiter(t)
    ensures IsToken(SqlLiteral(t))
  {
    ReplaceAllNoDelimiter(t, '\'', "''");
    NoDelimiterConcat("'", EscapeSqlSingleQuote(t), "'");
  }

  lemma CodeLiteralIsToken(t: string)
    requires NoDelimiter(t)
    ensures IsToken(CodeLiteral(t))
  {
    ReplaceAllNoDelimiter(t, '\\', "\\\\");
    ReplaceAllNoDelimiter(ReplaceAll(t, '\\', "\\\\"), '"', "\\\"");
    NoDelimiterConcat("\"", EscapeDoubleQuoteForCode(t), "\"");
  }

  lemma NoDelimiterConcat(a: string, b: string, c: string)
    requires NoDelimiter(a) && NoDelimiter(b) && NoDelimiter(c)
    ensures NoDelimiter(a + b + c)
  {
    assert forall k :: 0 <= k < |a + b + c| ==>
      (a + b + c)[k] == if k < |a| then a[k] else if k < |a| + |b| then b[k - |a|] else c[k - |a| - |b|];
  }

  /**
   * Re-tokenizing a formatted list of tokens gives one entry per token, in
   * order: each token wrapped in its quotes, with its escapes (the escapes add
   * only quote and backslash characters, never a delimiter).
   */
  lemma ParseTokensOfFormattedList(tokens: seq<string>, quote: string)
    requires AllTokens(tokens)
    ensures ParseTokens(FormatQuotedList(tokens, quote)) ==
      if quote == "'" then SqlLiterals(tokens) else CodeLiterals(tokens)
  {
    if quote == "'" {
      forall i | 0 <= i < |tokens| ensures IsToken(SqlLiterals(tokens)[i]) {
        SqlLiteralIsToken(tokens[i]);
      }
      ParseTokensOfJoin(SqlLiterals(tokens), ',');
    } else {
      forall i | 0 <= i < |tokens| ensures IsToken(CodeLiterals(tokens)[i]) {
        CodeLiteralIsToken(tokens[i]);
      }
      ParseTokensOfJoin(CodeLiterals(tokens), ',');
    }
  }

  // ---------------------------------------------------------------------------
  // Worked examples.

  /** `it's` in single style: the quote is doubled. */
  lemma FormatSingleExample()
    ensures FormatQuotedList(["it's"], "'") == "'it''s'"
  {
    SqlLiteralExample();
    var lits := SqlLiterals(["it's"]);
    assert lits[0] == SqlLiteral("it's");
    assert lits == ["'it''s'"];
  }

  lemma SqlLiteralExample()
    ensures SqlLiteral("it's") == "'it''s'"
  {
    ReplaceAllAppend("it", "'s", '\'', "''");
    ReplaceAllAbsent("it", '\'', "''");
    assert ReplaceAll("'s", '\'', "''") == "''s";
  }

  /** `a"b` in double style: the quote is preceded by one backslash. */
  lemma FormatDoubleExample()
    ensures FormatQuotedList(["a\"b"], "\"") == "\"a\\\"b\""
  {
    CodeLiteralExample();
    var lits := CodeLiterals(["a\"b"]);
    assert lits[0] == CodeLiteral("a\"b");
    assert lits == ["\"a\\\"b\""];
  }

  lemma CodeLiteralExample()
    ensures CodeLiteral("a\"b") == "\"a\\\"b\""
  {
    EscapeDoubleQuoteIsPerCharacter("a\"b");
    CodeCharsExample();
  }

  lemma CodeCharsExample()
    ensures EscapeCodeChars("a\"b") == "a\\\"b"
  {
  }

  lemma SqlLiteralOfIdentifier(t: string)
    requires forall k :: 0 <= k < |t| ==> t[k] != '\''
    ensures SqlLiteral(t) == "'" + t + "'"
  {
    ReplaceAllAbsent(t, '\'', "''");
  }

  lemma SampleLiterals()
    ensures SqlLiterals(["A001", "A002"]) == ["'A001'", "'A002'"]
  {
    SqlLiteralOfIdentifier("A001");
    SqlLiteralOfIdentifier("A002");
    var lits := SqlLiterals(["A001", "A002"]);
    assert lits[0] == "'A001'" && lits[1] == "'A002'";
  }

  /** Two identifiers in single style, and no tokens in either style. */
  lemma FormatListExample()
    ensures FormatQuotedList(["A001", "A002"], "'") == "'A001','A002'"
    ensures FormatQuotedList([], "'") == "" && FormatQuotedList([], "\"") == ""
  {
    SampleLiterals();
    JoinCons(["'A001'", "'A002'"], ',');
    assert ["'A001'", "'A002'"][1..] == ["'A002'"];
  }

}
