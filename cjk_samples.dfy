/**
 * The classifier on a short Chinese sentence cut by one full-width comma:
 * `今天天气很好，我们出去玩吧`, two tokens of six CJK characters each.
 */
module CjkSamples {
  import opened Text
  import opened Tokenizer
  import opened Classifier

  lemma CjkSentenceSpelling()
    ensures Join(["今天天气很好", "我们出去玩吧"], FullWidthComma) == "今天天气很好，我们出去玩吧"
  {
  }

  lemma CjkSentenceTrim()
    ensures var s := Join(["今天天气很好", "我们出去玩吧"], FullWidthComma);
      Trim(s) == s && |s| == 13
  {
    CjkSentenceSpelling();
    TrimOfUnpadded("今天天气很好，我们出去玩吧");
  }

  lemma CjkSentenceNoKeyword()
    ensures !HasSqlKeyword(Join(["今天天气很好", "我们出去玩吧"], FullWidthComma))
  {
    CjkSentenceSpelling();
    NoKeywordWithoutAdjacentLetters("今天天气很好，我们出去玩吧");
  }

  lemma CjkSentenceCharacters()
    ensures var s := Join(["今天天气很好", "我们出去玩吧"], FullWidthComma);
      !ContainsAny(s, Brackets) && !ContainsAny(s, JsonChars) && HasDelimiter(s)
  {
    CjkSentenceSpelling();
    assert IsDelimiter("今天天气很好，我们出去玩吧"[6]);
  }

  lemma CjkSentenceTokens()
    ensures ParseTokens(Join(["今天天气很好", "我们出去玩吧"], FullWidthComma)) == ["今天天气很好", "我们出去玩吧"]
  {
    ParseTokensOfJoin(["今天天气很好", "我们出去玩吧"], FullWidthComma);
  }

  lemma CjkTokensShape()
    ensures forall i :: 0 <= i < 2 ==> IsSimpleToken(["今天天气很好", "我们出去玩吧"][i])
    ensures CjkCount("今天天气很好") == 6 && CjkCount("我们出去玩吧") == 6
    ensures TotalLength(["今天天气很好", "我们出去玩吧"]) == 12
  {
    CjkCountOfCjk("今天天气很好");
    CjkCountOfCjk("我们出去玩吧");
  }

  /** Twelve of the thirteen characters are CJK. */
  lemma CjkSentenceCjk()
    ensures CjkCount(Join(["今天天气很好", "我们出去玩吧"], FullWidthComma)) == 12
  {
    var a := "今天天气很好";
    var b := "我们出去玩吧";
    assert Join([a, b], FullWidthComma) == a + [FullWidthComma] + b;
    CjkCountAppend(a + [FullWidthComma], b);
    CjkCountAppend(a, [FullWidthComma]);
    CjkTokensShape();
    CjkCountOfNonCjk([FullWidthComma]);
  }

  lemma CjkSentenceProse()
    ensures ProseVerdict(Join(["今天天气很好", "我们出去玩吧"], FullWidthComma),
                         ["今天天气很好", "我们出去玩吧"]) == Reject(DenseCjk)
  {
    CjkSentenceTrim();
    CjkSentenceCjk();
    CjkTokensShape();
  }

  lemma CjkSentenceClassified()
    ensures Classify(Join(["今天天气很好", "我们出去玩吧"], FullWidthComma)) == Reject(DenseCjk)
  {
    CjkSentenceTrim();
    CjkSentenceNoKeyword();
    CjkSentenceCharacters();
    CjkSentenceTokens();
    CjkTokensShape();
    CjkSentenceProse();
    TextGatesPassed(Join(["今天天气很好", "我们出去玩吧"], FullWidthComma), ["今天天气很好", "我们出去玩吧"]);
  }

  /** A Chinese sentence cut by a full-width comma passes every gate up to the
      prose heuristics and is turned down as dense CJK prose: 12 of its 13
      characters are CJK and its two tokens average 6 characters. */
  lemma CjkSentenceRejected()
    ensures Classify("今天天气很好，我们出去玩吧") == Reject(DenseCjk)
  {
    CjkSentenceClassified();
    CjkSentenceSpelling();
  }
}
