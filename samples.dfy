/**
 * The classifier and the tokenizer on the texts the userscript itself uses:
 * the sample button's `A001, A002; A003\nA004`, the hint's `1,2,3`, and
 * texts that must be turned down for a named reason.
 *
 * A list text is handled as the tokens and separators it is made of (`Join`,
 * `Spaced`), a lemma spells that value out as the literal, and every fact about
 * it is a lemma of its own; the verdicts are then read off the cascade.
 */
module Samples {
  import opened Text
  import opened Tokenizer
  import opened Classifier

  // ---------------------------------------------------------------------------
  // `A001, A002; A003\nA004`

  lemma SampleTextSpelling()
    ensures Spaced(["A001", "A002", "A003", "A004"], [", ", "; ", "\n"]) == "A001, A002; A003\nA004"
  {
  }

  lemma SampleTextTrim()
    ensures var s := Spaced(["A001", "A002", "A003", "A004"], [", ", "; ", "\n"]);
      Trim(s) == s && |s| == 21
  {
    SampleTextSpelling();
    TrimOfUnpadded("A001, A002; A003\nA004");
  }

  lemma SampleTextNoKeyword()
    ensures !HasSqlKeyword(Spaced(["A001", "A002", "A003", "A004"], [", ", "; ", "\n"]))
  {
    SampleTextSpelling();
    NoKeywordWithoutAdjacentLetters("A001, A002; A003\nA004");
  }

  lemma SampleTextCharacters()
    ensures var s := Spaced(["A001", "A002", "A003", "A004"], [", ", "; ", "\n"]);
      !ContainsAny(s, Brackets) && !ContainsAny(s, JsonChars) && HasDelimiter(s)
  {
    SampleTextSpelling();
    assert IsDelimiter("A001, A002; A003\nA004"[4]);
  }

  lemma SampleTextTokens()
    ensures ParseTokens(Spaced(["A001", "A002", "A003", "A004"], [", ", "; ", "\n"]))
      == ["A001", "A002", "A003", "A004"]
  {
    ParseTokensOfSpaced(["A001", "A002", "A003", "A004"], [", ", "; ", "\n"]);
  }

  lemma SampleTextCjk()
    ensures CjkCount(Spaced(["A001", "A002", "A003", "A004"], [", ", "; ", "\n"])) == 0
  {
    SampleTextSpelling();
    CjkCountOfNonCjk("A001, A002; A003\nA004");
  }

  lemma SampleTokensShape()
    ensures forall i :: 0 <= i < 4 ==>
      IsSimpleToken(["A001", "A002", "A003", "A004"][i]) && CjkCount(["A001", "A002", "A003", "A004"][i]) == 0
    ensures MaxLength(["A001", "A002", "A003", "A004"]) == 4 && MinLength(["A001", "A002", "A003", "A004"]) == 4
  {
    CjkCountOfNonCjk("A001");
    CjkCountOfNonCjk("A002");
    CjkCountOfNonCjk("A003");
    CjkCountOfNonCjk("A004");
  }

  lemma SampleTextProse()
    ensures ProseVerdict(Spaced(["A001", "A002", "A003", "A004"], [", ", "; ", "\n"]),
                         ["A001", "A002", "A003", "A004"]) == Accept
  {
    SampleTextCjk();
    SampleTokensShape();
  }

  lemma SampleTextClassified()
    ensures Classify(Spaced(["A001", "A002", "A003", "A004"], [", ", "; ", "\n"])) == Accept
  {
    SampleTextTrim();
    SampleTextNoKeyword();
    SampleTextCharacters();
    SampleTextTokens();
    SampleTokensShape();
    SampleTextProse();
    TextGatesPassed(Spaced(["A001", "A002", "A003", "A004"], [", ", "; ", "\n"]), ["A001", "A002", "A003", "A004"]);
  }

  /** The sample text is split into its four identifiers and accepted. */
  lemma SampleTextAccepted()
    ensures ParseTokens("A001, A002; A003\nA004") == ["A001", "A002", "A003", "A004"]
    ensures LooksLikeSeparatedList("A001, A002; A003\nA004")
  {
    SampleTextClassified();
    SampleTextTokens();
    SampleTextSpelling();
  }

  // ---------------------------------------------------------------------------
  // `1,2,3`

  lemma DigitListSpelling()
    ensures Join(["1", "2", "3"], ',') == "1,2,3"
  {
  }

  lemma DigitListTrim()
    ensures Trim(Join(["1", "2", "3"], ',')) == Join(["1", "2", "3"], ',')
    ensures |Join(["1", "2", "3"], ',')| == 5
  {
    DigitListSpelling();
    TrimOfUnpadded("1,2,3");
  }

  lemma DigitListCharacters()
    ensures !HasSqlKeyword(Join(["1", "2", "3"], ','))
    ensures !ContainsAny(Join(["1", "2", "3"], ','), Brackets)
    ensures !ContainsAny(Join(["1", "2", "3"], ','), JsonChars)
    ensures HasDelimiter(Join(["1", "2", "3"], ','))
  {
    DigitListSpelling();
    NoKeywordWithoutAdjacentLetters("1,2,3");
    assert IsDelimiter("1,2,3"[1]);
  }

  lemma DigitListTokens()
    ensures ParseTokens(Join(["1", "2", "3"], ',')) == ["1", "2", "3"]
  {
    ParseTokensOfJoin(["1", "2", "3"], ',');
  }

  lemma DigitListCjk()
    ensures CjkCount(Join(["1", "2", "3"], ',')) == 0
  {
    DigitListSpelling();
    CjkCountOfNonCjk("1,2,3");
  }

  lemma DigitTokensShape()
    ensures forall i :: 0 <= i < 3 ==> IsSimpleToken(["1", "2", "3"][i]) && CjkCount(["1", "2", "3"][i]) == 0
    ensures MaxLength(["1", "2", "3"]) == 1 && MinLength(["1", "2", "3"]) == 1
  {
    CjkCountOfNonCjk("1");
    CjkCountOfNonCjk("2");
    CjkCountOfNonCjk("3");
  }

  lemma DigitListProse()
    ensures ProseVerdict(Join(["1", "2", "3"], ','), ["1", "2", "3"]) == Accept
  {
    DigitListCjk();
    DigitTokensShape();
  }

  lemma DigitListClassified()
    ensures Classify(Join(["1", "2", "3"], ',')) == Accept
  {
    DigitListTrim();
    DigitListCharacters();
    DigitListTokens();
    DigitTokensShape();
    DigitListProse();
    TextGatesPassed(Join(["1", "2", "3"], ','), ["1", "2", "3"]);
  }

  /** `1,2,3` is split into its three numbers and accepted. */
  lemma DigitListAccepted()
    ensures ParseTokens("1,2,3") == ["1", "2", "3"]
    ensures LooksLikeSeparatedList("1,2,3")
  {
    DigitListClassified();
    DigitListTokens();
    DigitListSpelling();
  }

  // ---------------------------------------------------------------------------
  // Texts turned down before tokenizing.

  lemma SqlStatementTrim()
    ensures Trim("SELECT * FROM users WHERE id IN (1,2,3)") == "SELECT * FROM users WHERE id IN (1,2,3)"
  {
    TrimOfUnpadded("SELECT * FROM users WHERE id IN (1,2,3)");
  }

  lemma SqlStatementKeyword()
    ensures HasSqlKeyword("SELECT * FROM users WHERE id IN (1,2,3)")
  {
    var s := "SELECT * FROM users WHERE id IN (1,2,3)";
    assert MatchesAt(s, 0, SqlKeywords[0]);
    assert KeywordAt(s, 0);
  }

  /** A SQL statement is turned down by its keywords. */
  lemma SqlStatementRejected()
    ensures Classify("SELECT * FROM users WHERE id IN (1,2,3)") == Reject(SqlKeyword)
  {
    SqlStatementTrim();
    SqlStatementKeyword();
  }

  lemma JsonObjectTrim()
    ensures Trim("{\"a\":1,\"b\":2}") == "{\"a\":1,\"b\":2}"
  {
    TrimOfUnpadded("{\"a\":1,\"b\":2}");
  }

  lemma JsonObjectCharacters()
    ensures !HasSqlKeyword("{\"a\":1,\"b\":2}") && ContainsAny("{\"a\":1,\"b\":2}", Brackets)
  {
    NoKeywordWithoutAdjacentLetters("{\"a\":1,\"b\":2}");
    assert "{\"a\":1,\"b\":2}"[0] in Brackets;
  }

  /** A JSON object is turned down by its braces. */
  lemma JsonObjectRejected()
    ensures Classify("{\"a\":1,\"b\":2}") == Reject(Bracket)
  {
    JsonObjectTrim();
    JsonObjectCharacters();
  }

  lemma SingleWordFacts()
    ensures Trim("a") == "a" && !HasSqlKeyword("a") && !HasDelimiter("a")
    ensures !ContainsAny("a", Brackets) && !ContainsAny("a", JsonChars)
  {
    TrimOfUnpadded("a");
    NoKeywordWithoutAdjacentLetters("a");
  }

  /** A single word has no delimiter. */
  lemma SingleWordRejected()
    ensures Classify("a") == Reject(NoDelimiterFound)
  {
    SingleWordFacts();
  }

  // ---------------------------------------------------------------------------
  // Uneven lengths: a short list whose longest token is more than five times
  // its shortest is turned down.

  lemma UnevenListSpelling()
    ensures Join(["1", "2", "1234567"], ',') == "1,2,1234567"
  {
  }

  lemma UnevenListTrim()
    ensures var s := Join(["1", "2", "1234567"], ',');
      Trim(s) == s && |s| == 11
  {
    UnevenListSpelling();
    TrimOfUnpadded("1,2,1234567");
  }

  lemma UnevenListNoKeyword()
    ensures !HasSqlKeyword(Join(["1", "2", "1234567"], ','))
  {
    UnevenListSpelling();
    NoKeywordWithoutAdjacentLetters("1,2,1234567");
  }

  lemma UnevenListCharacters()
    ensures var s := Join(["1", "2", "1234567"], ',');
      !ContainsAny(s, Brackets) && !ContainsAny(s, JsonChars) && HasDelimiter(s)
  {
    UnevenListSpelling();
    assert IsDelimiter("1,2,1234567"[1]);
  }

  lemma UnevenListTokens()
    ensures ParseTokens(Join(["1", "2", "1234567"], ','))
      == ["1", "2", "1234567"]
  {
    ParseTokensOfJoin(["1", "2", "1234567"], ',');
  }

  lemma UnevenListCjk()
    ensures CjkCount(Join(["1", "2", "1234567"], ',')) == 0
  {
    UnevenListSpelling();
    CjkCountOfNonCjk("1,2,1234567");
  }

  lemma UnevenTokensShape()
    ensures forall i :: 0 <= i < 3 ==>
      IsSimpleToken(["1", "2", "1234567"][i]) && CjkCount(["1", "2", "1234567"][i]) == 0
    ensures MaxLength(["1", "2", "1234567"]) == 7
    ensures MinLength(["1", "2", "1234567"]) == 1
  {
    CjkCountOfNonCjk("1");
    CjkCountOfNonCjk("2");
    CjkCountOfNonCjk("1234567");
  }

  lemma UnevenListProse()
    ensures ProseVerdict(Join(["1", "2", "1234567"], ','),
                         ["1", "2", "1234567"]) == Reject(Uneven)
  {
    UnevenListCjk();
    UnevenTokensShape();
  }

  lemma UnevenListClassified()
    ensures Classify(Join(["1", "2", "1234567"], ',')) == Reject(Uneven)
  {
    UnevenListTrim();
    UnevenListNoKeyword();
    UnevenListCharacters();
    UnevenListTokens();
    UnevenTokensShape();
    UnevenListProse();
    TextGatesPassed(Join(["1", "2", "1234567"], ','), ["1", "2", "1234567"]);
  }

  /** Three tokens of lengths 1, 1 and 7 read as prose. */
  lemma UnevenListRejected()
    ensures Classify("1,2,1234567") == Reject(Uneven)
  {
    UnevenListClassified();
    UnevenListSpelling();
  }
}
