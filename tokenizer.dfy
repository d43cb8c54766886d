/**
 * The tokenizer `parseTokens`: trim the input, split it on runs of the
 * delimiter class `[\s,;，；]+`, trim every segment and keep the non-empty ones.
 *
 * `ParseTokens` follows that expression chain step by step; `Words` is an
 * independent reference definition (the maximal delimiter-free runs, left to
 * right), and `ParseTokensIsWords` proves the two equal. The properties of the
 * tokenizer are then proved about `Words`.
 */
module Tokenizer {
  import opened Text

  /** A token: non-empty and free of delimiter characters. */
  predicate IsToken(t: string) {
    |t| > 0 && NoDelimiter(t)
  }

  predicate AllTokens(ts: seq<string>) {
    forall i :: 0 <= i < |ts| ==> IsToken(ts[i])
  }

  /** Length of the longest delimiter-free prefix. */
  function RunLength(s: string): (n: nat)
    ensures n <= |s| && NoDelimiter(s[..n])
    ensures n < |s| ==> IsDelimiter(s[n])
  {
    if s == [] || IsDelimiter(s[0]) then 0 else 1 + RunLength(s[1..])
  }

  /** Number of leading delimiter characters. */
  function DelimiterRun(s: string): (n: nat)
    ensures n <= |s|
    ensures forall k :: 0 <= k < n ==> IsDelimiter(s[k])
    ensures n < |s| ==> !IsDelimiter(s[n])
  {
    if s == [] || !IsDelimiter(s[0]) then 0 else 1 + DelimiterRun(s[1..])
  }

  /**
   * `s.split(/[\s,;，；]+/g)`: the segments between maximal delimiter runs,
   * including the empty segment before a leading run and after a trailing one
   * (and the single empty segment of the empty string).
   */
  function SplitOnDelimiterRuns(s: string): (segs: seq<string>)
    ensures |segs| >= 1
    ensures forall i :: 0 <= i < |segs| ==> NoDelimiter(segs[i])
    decreases |s|
  {
    var n := RunLength(s);
    var rest := s[n..];
    if rest == [] then [s[..n]]
    else
      var after := rest[DelimiterRun(rest)..];
      [s[..n]] + SplitOnDelimiterRuns(after)
  }

  /** `.map((s) => safeTrim(s))` */
  function TrimEach(segs: seq<string>): (r: seq<string>)
    ensures |r| == |segs|
  {
    seq(|segs|, i requires 0 <= i < |segs| => Trim(segs[i]))
  }

  /** `.filter(Boolean)`: keeps the non-empty strings, in order. */
  function DropEmpty(segs: seq<string>): (r: seq<string>)
    ensures |r| <= |segs|
    ensures forall x :: x in r <==> x in segs && x != []
  {
    if segs == [] then []
    else if segs[0] == [] then DropEmpty(segs[1..])
    else [segs[0]] + DropEmpty(segs[1..])
  }

  /** Filtering works piece by piece: what survives of `a` comes before what
      survives of `b`. */
  lemma {:induction false} DropEmptyAppend(a: seq<string>, b: seq<string>)
    ensures DropEmpty(a + b) == DropEmpty(a) + DropEmpty(b)
  {
    if a == [] {
      assert a + b == b;
    } else {
      assert (a + b)[0] == a[0];
      assert (a + b)[1..] == a[1..] + b;
      DropEmptyAppend(a[1..], b);
    }
  }

  /** A list without empty strings passes the filter unchanged. */
  lemma {:induction false} DropEmptyKeepsNonEmpty(segs: seq<string>)
    requires forall i :: 0 <= i < |segs| ==> segs[i] != []
    ensures DropEmpty(segs) == segs
  {
    if segs != [] {
      DropEmptyKeepsNonEmpty(segs[1..]);
      assert segs == [segs[0]] + segs[1..];
    }
  }

  /** The delimiter runs that `SplitOnDelimiterRuns` cuts out, in order. */
  function SplitGaps(s: string): (gaps: seq<string>)
    decreases |s|
  {
    var n := RunLength(s);
    var rest := s[n..];
    if rest == [] then []
    else
      var m := DelimiterRun(rest);
      [rest[..m]] + SplitGaps(rest[m..])
  }

  /** One piece more than delimiter runs, and every run is a non-empty run of
      delimiters. */
  lemma {:induction false} SplitGapsShape(s: string)
    ensures |SplitOnDelimiterRuns(s)| == |SplitGaps(s)| + 1
    ensures forall i :: 0 <= i < |SplitGaps(s)| ==> IsGap(SplitGaps(s)[i])
    decreases |s|
  {
    var rest := s[RunLength(s)..];
    if rest != [] {
      var m := DelimiterRun(rest);
      assert IsDelimiter(rest[0]);
      SplitGapsShape(rest[m..]);
      var gaps := SplitGaps(s);
      assert gaps == [rest[..m]] + SplitGaps(rest[m..]);
      forall i | 0 <= i < |gaps| ensures IsGap(gaps[i]) {
        if i > 0 {
          assert gaps[i] == SplitGaps(rest[m..])[i - 1];
        }
      }
    }
  }

  /**
   * The pieces of the split, put back together with the delimiter runs between
   * them, give the text again. With `SplitGapsShape`, `SplitInteriorNonEmpty`
   * and `SplitUnique`, the pieces are exactly the text between maximal
   * delimiter runs.
   */
  lemma {:induction false} SplitReassembles(s: string)
    ensures |SplitOnDelimiterRuns(s)| == |SplitGaps(s)| + 1
    ensures Spaced(SplitOnDelimiterRuns(s), SplitGaps(s)) == s
    decreases |s|
  {
    SplitGapsShape(s);
    var n := RunLength(s);
    var rest := s[n..];
    if rest == [] {
      assert s[..n] == s;
    } else {
      var m := DelimiterRun(rest);
      var after := rest[m..];
      SplitReassembles(after);
      SplitStep(s);
      SpacedStep(SplitOnDelimiterRuns(s), SplitGaps(s), after);
      Recompose(s, n, m);
    }
  }

  /** One step of the split: the first piece, the first run, then the split of what follows. */
  lemma SplitStep(s: string)
    requires s[RunLength(s)..] != []
    ensures var n := RunLength(s); var rest := s[n..]; var m := DelimiterRun(rest);
      var segs := SplitOnDelimiterRuns(s); var gaps := SplitGaps(s);
      gaps != [] && |segs| == |gaps| + 1
      && segs[0] == s[..n] && gaps[0] == rest[..m]
      && segs[1..] == SplitOnDelimiterRuns(rest[m..]) && gaps[1..] == SplitGaps(rest[m..])
  {
    SplitGapsShape(s);
  }

  lemma SpacedStep(ts: seq<string>, gaps: seq<string>, after: string)
    requires |ts| == |gaps| + 1 && gaps != []
    requires Spaced(ts[1..], gaps[1..]) == after
    ensures Spaced(ts, gaps) == ts[0] + gaps[0] + after
  {
  }

  lemma Recompose(s: string, n: nat, m: nat)
    requires n <= |s| && m <= |s| - n
    ensures s == s[..n] + s[n..][..m] + s[n..][m..]
  {
  }

  /**
   * Neighbouring delimiter runs collapse into one cut: only the first and the
   * last piece of the split can be empty.
   */
  lemma {:induction false} SplitInteriorNonEmpty(s: string)
    ensures var segs := SplitOnDelimiterRuns(s);
      forall i :: 0 < i < |segs| - 1 ==> segs[i] != []
    decreases |s|
  {
    var rest := s[RunLength(s)..];
    if rest != [] {
      var after := rest[DelimiterRun(rest)..];
      SplitInteriorNonEmpty(after);
      SplitStep(s);
      var segs := SplitOnDelimiterRuns(s);
      var tail := SplitOnDelimiterRuns(after);
      if |tail| > 1 {
        // the split of `after` goes on, so `after` starts with a non-delimiter
        assert after[RunLength(after)..] != [];
        assert tail[0] == after[..RunLength(after)];
        assert tail[0] != [];
      }
      forall i | 0 < i < |segs| - 1 ensures segs[i] != [] {
        assert segs[i] == tail[i - 1];
      }
    }
  }

  /** A run of delimiters followed by a non-delimiter (or nothing) is the
      whole leading delimiter run. */
  lemma {:induction false} DelimiterRunOfGap(g: string, b: string)
    requires forall k :: 0 <= k < |g| ==> IsDelimiter(g[k])
    requires b == [] || !IsDelimiter(b[0])
    ensures DelimiterRun(g + b) == |g|
    decreases |g|
  {
    if g == [] {
      assert g + b == b;
    } else {
      assert (g + b)[1..] == g[1..] + b;
      DelimiterRunOfGap(g[1..], b);
    }
  }

  /** A spaced text whose first piece is a non-empty token, or is all of it,
      does not start with a delimiter. */
  lemma SpacedHead(ts: seq<string>, gaps: seq<string>)
    requires |ts| == |gaps| + 1 && NoDelimiter(ts[0])
    requires ts[0] != [] || gaps == []
    ensures var s := Spaced(ts, gaps); s == [] || !IsDelimiter(s[0])
  {
    if gaps != [] {
      var after := Spaced(ts[1..], gaps[1..]);
      SpacedStep(ts, gaps, after);
      var t, rest := ts[0], gaps[0] + after;
      assert Spaced(ts, gaps) == t + rest;
      assert (t + rest)[0] == t[0];
    }
  }

  /** A delimiter-free text is split into itself alone. */
  lemma SplitOfDelimiterFree(t: string)
    requires NoDelimiter(t)
    ensures SplitOnDelimiterRuns(t) == [t] && SplitGaps(t) == []
  {
    RunLengthOfDelimiterFree(t);
    assert t[..|t|] == t;
  }

  /** A piece, a whole delimiter run, then a text starting with a non-delimiter:
      the split cuts exactly at that run. */
  lemma SplitCons(t: string, g: string, after: string)
    requires NoDelimiter(t) && IsGap(g)
    requires after == [] || !IsDelimiter(after[0])
    ensures SplitOnDelimiterRuns(t + g + after) == [t] + SplitOnDelimiterRuns(after)
    ensures SplitGaps(t + g + after) == [g] + SplitGaps(after)
  {
    var s := t + g + after;
    assert s == t + (g + after);
    RunLengthOfDelimiterFree(t);
    RunLengthOfExtension(t, g + after);
    assert s[..|t|] == t && s[|t|..] == g + after;
    DelimiterRunOfGap(g, after);
    assert (g + after)[..|g|] == g && (g + after)[|g|..] == after;
    SplitStep(s);
    var segs := SplitOnDelimiterRuns(s);
    var gaps := SplitGaps(s);
    assert segs == [segs[0]] + segs[1..] && gaps == [gaps[0]] + gaps[1..];
  }

  /** One step of `SplitUnique`: a first piece and a first run in front of a
      text that is already cut as the split cuts it. */
  lemma SplitUniqueStep(t: string, g: string, ts': seq<string>, gaps': seq<string>)
    requires |ts'| == |gaps'| + 1
    requires NoDelimiter(t) && IsGap(g)
    requires NoDelimiter(ts'[0]) && (ts'[0] != [] || gaps' == [])
    requires SplitOnDelimiterRuns(Spaced(ts', gaps')) == ts'
    requires SplitGaps(Spaced(ts', gaps')) == gaps'
    ensures SplitOnDelimiterRuns(Spaced([t] + ts', [g] + gaps')) == [t] + ts'
    ensures SplitGaps(Spaced([t] + ts', [g] + gaps')) == [g] + gaps'
  {
    var after := Spaced(ts', gaps');
    var ts, gaps := [t] + ts', [g] + gaps';
    assert ts[1..] == ts' && gaps[1..] == gaps';
    SpacedStep(ts, gaps, after);
    SpacedHead(ts', gaps');
    SplitCons(t, g, after);
  }

  /**
   * A cut of a text: delimiter-free pieces with a non-empty delimiter run
   * between each two neighbours, and no empty piece between two runs.
   */
  predicate IsCut(ts: seq<string>, gaps: seq<string>) {
    && |ts| == |gaps| + 1
    && (forall i :: 0 <= i < |ts| ==> NoDelimiter(ts[i]))
    && (forall i :: 0 <= i < |gaps| ==> IsGap(gaps[i]))
    && (forall i :: 0 < i < |ts| - 1 ==> ts[i] != [])
  }

  /** Dropping the first piece and the first run of a cut leaves a cut. */
  lemma IsCutTail(ts: seq<string>, gaps: seq<string>)
    requires IsCut(ts, gaps) && gaps != []
    ensures NoDelimiter(ts[0]) && IsGap(gaps[0])
    ensures IsCut(ts[1..], gaps[1..])
    ensures ts[1] != [] || |gaps| == 1
  {
    var ts', gaps' := ts[1..], gaps[1..];
    forall i | 0 <= i < |ts'| ensures NoDelimiter(ts'[i]) {
      assert ts'[i] == ts[i + 1];
    }
    forall i | 0 <= i < |gaps'| ensures IsGap(gaps'[i]) {
      assert gaps'[i] == gaps[i + 1];
    }
    forall i | 0 < i < |ts'| - 1 ensures ts'[i] != [] {
      assert ts'[i] == ts[i + 1];
    }
  }

  /**
   * The split is the only cut: any way of cutting a text into delimiter-free
   * pieces and non-empty delimiter runs, with no empty piece between two runs,
   * is the one `SplitOnDelimiterRuns` and `SplitGaps` make.
   */
  lemma {:induction false} SplitUnique(ts: seq<string>, gaps: seq<string>)
    requires IsCut(ts, gaps)
    ensures SplitOnDelimiterRuns(Spaced(ts, gaps)) == ts
    ensures SplitGaps(Spaced(ts, gaps)) == gaps
    decreases |gaps|
  {
    if gaps == [] {
      SplitOfDelimiterFree(ts[0]);
    } else {
      var ts', gaps' := ts[1..], gaps[1..];
      assert ts == [ts[0]] + ts' && gaps == [gaps[0]] + gaps';
      IsCutTail(ts, gaps);
      assert ts'[0] != [] || gaps' == [];
      SplitUnique(ts', gaps');
      SplitUniqueStep(ts[0], gaps[0], ts', gaps');
    }
  }

  /** The split and its delimiter runs form a cut of the text. Together with
      `SplitUnique`: the split is the one and only cut of every text. */
  lemma SplitIsCut(s: string)
    ensures IsCut(SplitOnDelimiterRuns(s), SplitGaps(s))
    ensures Spaced(SplitOnDelimiterRuns(s), SplitGaps(s)) == s
  {
    SplitGapsShape(s);
    SplitInteriorNonEmpty(s);
    SplitReassembles(s);
  }

  /** `parseTokens(input)` */
  function ParseTokens(input: string): seq<string> {
    DropEmpty(TrimEach(SplitOnDelimiterRuns(Trim(input))))
  }

  /** Reference tokenizer: the maximal delimiter-free runs of `s`, left to right. */
  function Words(s: string): (ws: seq<string>)
    ensures AllTokens(ws)
    decreases |s|
  {
    if s == [] then []
    else if IsDelimiter(s[0]) then Words(s[1..])
    else
      var n := RunLength(s);
      [s[..n]] + Words(s[n..])
  }

  // ---------------------------------------------------------------------------
  // The JavaScript chain computes the reference tokenizer.

  lemma {:induction false} WordsSkipsDelimiters(s: string, n: nat)
    requires n <= |s| && forall k :: 0 <= k < n ==> IsDelimiter(s[k])
    ensures Words(s[n..]) == Words(s)
  {
    if n > 0 {
      WordsSkipsDelimiters(s[1..], n - 1);
      assert s[1..][n - 1..] == s[n..];
    }
  }

  lemma {:induction false} SplitMatchesWords(s: string)
    ensures DropEmpty(SplitOnDelimiterRuns(s)) == Words(s)
    decreases |s|
  {
    var n := RunLength(s);
    var rest := s[n..];
    if rest == [] {
      if n == 0 {
        assert s == [];
      } else {
        assert s[n..] == [];
        assert Words(s) == [s[..n]] + Words(s[n..]);
      }
    } else {
      var m := DelimiterRun(rest);
      var after := rest[m..];
      SplitMatchesWords(after);
      assert IsDelimiter(rest[0]);
      WordsSkipsDelimiters(rest, m);
      var segs := SplitOnDelimiterRuns(s);
      assert segs == [s[..n]] + SplitOnDelimiterRuns(after);
      assert segs[1..] == SplitOnDelimiterRuns(after);
      if n == 0 {
        assert rest == s;
      } else {
        assert Words(s) == [s[..n]] + Words(rest);
      }
    }
  }

  lemma {:induction false} TrimEachOfDelimiterFree(segs: seq<string>)
    requires forall i :: 0 <= i < |segs| ==> NoDelimiter(segs[i])
    ensures TrimEach(segs) == segs
  {
    forall i | 0 <= i < |segs| ensures TrimEach(segs)[i] == segs[i] {
      TrimOfDelimiterFree(segs[i]);
    }
  }

  /** Words that end in delimiters end there. */
  lemma {:induction false} WordsDropsTrailingDelimiters(s: string, n: nat)
    requires n <= |s| && forall k :: |s| - n <= k < |s| ==> IsDelimiter(s[k])
    ensures Words(s[..|s| - n]) == Words(s)
  {
    if n > 0 {
      var head := s[..|s| - n];
      var d := s[|s| - n];
      var tail := s[|s| - n + 1..];
      assert s == head + [d] + tail;
      assert forall k :: 0 <= k < |tail| ==> tail[k] == s[|s| - n + 1 + k];
      WordsSplitsAtDelimiter(head, d, tail);
      WordsSkipsDelimiters(tail, |tail|);
      assert tail[|tail|..] == [];
    } else {
      assert s[..|s|] == s;
    }
  }

  /** Surrounding whitespace holds no token. */
  lemma WordsOfTrim(input: string)
    ensures Words(Trim(input)) == Words(input)
  {
    TrimShape(input);
    var t := Trim(input);
    if t == [] {
      WordsSkipsDelimiters(input, |input|);
      assert input[|input|..] == [];
    } else {
      var a := TrimStart(input);
      var e := TrimEnd(input);
      var u := input[a..];
      WordsSkipsDelimiters(input, a);
      forall k | |u| - (|input| - e) <= k < |u| ensures IsDelimiter(u[k]) {
        assert u[k] == input[k + a];
      }
      WordsDropsTrailingDelimiters(u, |input| - e);
      assert u[..|u| - (|input| - e)] == t;
    }
  }

  /** The tokenizer computes the maximal delimiter-free runs. */
  lemma ParseTokensIsWords(input: string)
    ensures ParseTokens(input) == Words(input)
  {
    var t := Trim(input);
    var segs := SplitOnDelimiterRuns(t);
    TrimEachOfDelimiterFree(segs);
    SplitMatchesWords(t);
    WordsOfTrim(input);
  }

  // ---------------------------------------------------------------------------
  // Properties of the reference tokenizer.

  /** Splitting at one delimiter character: the tokens of each side, in order. */
  lemma {:induction false} WordsSplitsAtDelimiter(a: string, d: char, b: string)
    requires IsDelimiter(d)
    ensures Words(a + [d] + b) == Words(a) + Words(b)
    decreases |a|
  {
    var s := a + [d] + b;
    if a == [] {
      assert s[1..] == b;
    } else if IsDelimiter(a[0]) {
      assert s[1..] == a[1..] + [d] + b;
      WordsSplitsAtDelimiter(a[1..], d, b);
    } else {
      var n := RunLength(a);
      RunLengthOfExtension(a, [d] + b);
      assert s == a + ([d] + b);
      assert s[..n] == a[..n];
      assert s[n..] == a[n..] + [d] + b;
      WordsSplitsAtDelimiter(a[n..], d, b);
    }
  }

  lemma {:induction false} RunLengthOfExtension(a: string, b: string)
    requires b != [] && IsDelimiter(b[0])
    ensures RunLength(a + b) == RunLength(a)
    decreases |a|
  {
    if a != [] {
      assert (a + b)[1..] == a[1..] + b;
      RunLengthOfExtension(a[1..], b);
    } else {
      assert a + b == b;
    }
  }

  /** A single token is tokenized to itself. */
  lemma WordsOfToken(w: string)
    requires IsToken(w)
    ensures Words(w) == [w]
  {
    assert RunLength(w) == |w| by {
      RunLengthOfDelimiterFree(w);
    }
    assert w[..|w|] == w;
    assert w[|w|..] == [];
  }

  lemma {:induction false} RunLengthOfDelimiterFree(w: string)
    requires NoDelimiter(w)
    ensures RunLength(w) == |w|
  {
    if w != [] {
      RunLengthOfDelimiterFree(w[1..]);
    }
  }

  /** No tokens exactly when the text consists of delimiters only. */
  lemma {:induction false} WordsEmptyIff(s: string)
    ensures Words(s) == [] <==> forall k :: 0 <= k < |s| ==> IsDelimiter(s[k])
    decreases |s|
  {
    if s != [] {
      WordsEmptyIff(s[1..]);
      if !IsDelimiter(s[0]) {
        assert Words(s) != [];
      } else {
        assert forall k :: 1 <= k < |s| ==> s[1..][k - 1] == s[k];
      }
    }
  }

  /** Tokens joined with any delimiter character are split back into the same tokens. */
  lemma {:induction false} WordsOfJoin(ts: seq<string>, sep: char)
    requires AllTokens(ts) && IsDelimiter(sep)
    ensures Words(Join(ts, sep)) == ts
  {
    if ts == [] {
    } else if |ts| == 1 {
      WordsOfToken(ts[0]);
    } else {
      WordsOfToken(ts[0]);
      WordsOfJoin(ts[1..], sep);
      WordsSplitsAtDelimiter(ts[0], sep, Join(ts[1..], sep));
      assert ts == [ts[0]] + ts[1..];
    }
  }

  // ---------------------------------------------------------------------------
  // What `parseTokens` promises.

  /** Every token is non-empty and holds no whitespace, `,`, `;`, `，` or `；`. */
  lemma ParseTokensAreTokens(input: string)
    ensures AllTokens(ParseTokens(input))
  {
    ParseTokensIsWords(input);
  }

  /** Blank input (empty or whitespace only) gives no tokens; more generally,
      the tokens are empty exactly when the input is delimiters only. */
  lemma ParseTokensEmptyIff(input: string)
    ensures ParseTokens(input) == [] <==> forall k :: 0 <= k < |input| ==> IsDelimiter(input[k])
    ensures IsBlank(input) ==> ParseTokens(input) == []
  {
    ParseTokensIsWords(input);
    WordsEmptyIff(input);
  }

  /** Source order: cutting the input at a delimiter concatenates the two token lists. */
  lemma ParseTokensSplitsAtDelimiter(a: string, d: char, b: string)
    requires IsDelimiter(d)
    ensures ParseTokens(a + [d] + b) == ParseTokens(a) + ParseTokens(b)
  {
    ParseTokensIsWords(a + [d] + b);
    ParseTokensIsWords(a);
    ParseTokensIsWords(b);
    WordsSplitsAtDelimiter(a, d, b);
  }

  /** A delimiter-free, non-empty input is a single token. */
  lemma ParseTokensOfToken(w: string)
    requires IsToken(w)
    ensures ParseTokens(w) == [w]
  {
    ParseTokensIsWords(w);
    WordsOfToken(w);
  }

  /** Re-tokenizing tokens joined by a delimiter gives the same tokens. */
  lemma ParseTokensOfJoin(ts: seq<string>, sep: char)
    requires AllTokens(ts) && IsDelimiter(sep)
    ensures ParseTokens(Join(ts, sep)) == ts
  {
    ParseTokensIsWords(Join(ts, sep));
    WordsOfJoin(ts, sep);
  }

  /** A run of one or more delimiter characters. */
  predicate IsGap(g: string) {
    |g| > 0 && forall k :: 0 <= k < |g| ==> IsDelimiter(g[k])
  }

  /** Tokens with the given delimiter run between each neighbouring pair. */
  function Spaced(ts: seq<string>, gaps: seq<string>): string
    requires |ts| == |gaps| + 1
    decreases |gaps|
  {
    if gaps == [] then ts[0] else ts[0] + gaps[0] + Spaced(ts[1..], gaps[1..])
  }

  /** Any run of delimiters separates two tokens: the tokens come back in order. */
  lemma {:induction false} WordsOfSpaced(ts: seq<string>, gaps: seq<string>)
    requires |ts| == |gaps| + 1 && AllTokens(ts)
    requires forall i :: 0 <= i < |gaps| ==> IsGap(gaps[i])
    ensures Words(Spaced(ts, gaps)) == ts
    decreases |gaps|
  {
    WordsOfToken(ts[0]);
    if gaps != [] {
      var g := gaps[0];
      var rest := Spaced(ts[1..], gaps[1..]);
      WordsOfSpaced(ts[1..], gaps[1..]);
      assert ts[0] + g + rest == ts[0] + [g[0]] + (g[1..] + rest);
      WordsSplitsAtDelimiter(ts[0], g[0], g[1..] + rest);
      WordsSkipsDelimiters(g[1..] + rest, |g| - 1);
      assert (g[1..] + rest)[|g| - 1..] == rest;
      assert ts == [ts[0]] + ts[1..];
    }
  }

  /** Re-tokenizing tokens separated by arbitrary delimiter runs gives the tokens. */
  lemma ParseTokensOfSpaced(ts: seq<string>, gaps: seq<string>)
    requires |ts| == |gaps| + 1 && AllTokens(ts)
    requires forall i :: 0 <= i < |gaps| ==> IsGap(gaps[i])
    ensures ParseTokens(Spaced(ts, gaps)) == ts
  {
    ParseTokensIsWords(Spaced(ts, gaps));
    WordsOfSpaced(ts, gaps);
  }

  /** The tokenizer ignores surrounding whitespace: tokenizing the trimmed text is the same. */
  lemma ParseTokensOfTrim(input: string)
    ensures ParseTokens(Trim(input)) == ParseTokens(input)
  {
    TrimIdempotent(input);
  }
}
