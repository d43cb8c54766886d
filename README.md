# Text to quoted list, in Dafny

A model of the core of the userscript `text-to-quoted-list.user.js`. The script
watches copies on a page. When the copied text looks like a list of short
values separated by whitespace, commas or semicolons (ASCII or full-width), it
opens a panel. The panel shows the list in two renderings: `'a','b'` for SQL and
`"a","b"` for code. The model covers four pieces.

- **Trimming and tokenizing.** `safeTrim` and `parseTokens` are in `text.dfy`
  and `tokenizer.dfy`. `Tokenizer.ParseTokens` follows the JavaScript chain:
  trim, split on delimiter runs, trim each piece, drop the empty ones.
  `Tokenizer.Words` is an independent reference definition: the maximal
  delimiter-free runs, left to right. `Tokenizer.ParseTokensIsWords` proves the
  two equal.
- **Formatting.** `escapeSqlSingleQuote`, `escapeDoubleQuoteForCode` and
  `formatQuotedList` are in `formatter.dfy`. Each style has a decoder, which is
  the formatter's partner: decoding a formatted list gives back the tokens.
- **Classification.** `looksLikeSeparatedList` is in `classifier.dfy`.
  `Classifier.Classify` follows the source's cascade of early returns and
  names the gate that rejected. The source's boolean is
  `Classify(text) == Accept`. The ratio tests are on floating-point quotients
  of small integers in the source. Here they are the equal integer
  comparisons: `chineseRatio > 0.5` is `2 * cjk > length`, `avgLen > 3` is
  `total > 3 * count`, and `maxLen / minLen > 5` is `maxLen > 5 * minLen`.
  The last one is exact because tokens are never empty.
- **The trigger gate.** It lives in `trigger.dfy`. The two closure variables
  `ignoreAutoPopupUntil` and `lastCopyGestureAt` are the fields of the class
  `Trigger.TriggerGate`. `Date.now()` becomes an explicit time argument in
  milliseconds. The clipboard, the page selection and the event path become
  parameters.

`samples.dfy` and `cjk_samples.dfy` prove the classifier's verdict on the texts
the script itself offers as examples, and on one text for each of several
rejecting gates.

Characters are Unicode scalar values. A JavaScript string is a sequence of
UTF-16 code units. The two agree on the Basic Multilingual Plane outside the
surrogate range U+D800 to U+DFFF, and `Classifier.AcceptedAlphabet` shows that
every accepted text lies there. A JavaScript string can hold a lone surrogate,
which no Dafny `char` can.
JavaScript's `\s` is modelled as the exact set of ECMAScript WhiteSpace and
LineTerminator characters. This is also the set `String.prototype.trim` strips.

## Model

| member | source | states |
|---|---|---|
| Text.SkipSpaces | text-to-quoted-list.user.js:64-66 | the start index `trim` finds: everything before it (from `i`) is whitespace and the character at it is not |
| Text.SkipSpacesBack | text-to-quoted-list.user.js:64-66 | the end index `trim` finds: everything after it (up to `j`) is whitespace and the character before it is not |
| Text.IsSpace | text-to-quoted-list.user.js:69 | `\s`: the ECMAScript WhiteSpace and LineTerminator characters, the same set `String.prototype.trim` strips; `TrimShape` rests on it |
| Text.IsDelimiter | text-to-quoted-list.user.js:69 | the split class: whitespace, `,`, `;`, the full-width comma and the full-width semicolon; `ParseTokensAreTokens` states no token holds one |
| Text.IsWordChar | text-to-quoted-list.user.js:103 | `\w` of an expression without the `u` flag: ASCII letters, digits and `_` |
| Text.IsCjk | text-to-quoted-list.user.js:114 | the CJK Unified Ideographs range U+4E00 to U+9FFF the script counts |
| Text.Trim | text-to-quoted-list.user.js:64-66 | `safeTrim` of a string never makes it longer; what it leaves is stated by `TrimShape` and `TrimEmptyIff` |
| Text.IsBlank | text-to-quoted-list.user.js:788-789 | `!safeTrim(x)`, also the test at :839-840; by `TrimEmptyIff` it holds exactly for all-whitespace text |
| Text.Join | text-to-quoted-list.user.js:149-151 | `.join(',')`: the pieces with one separator between neighbours and none at either end, and "" for no pieces; `WordsOfJoin`, `SqlEntriesRoundTrip`, `CodeEntriesRoundTrip` and `FormatListExample` state what it gives |
| Text.TrimShape | text-to-quoted-list.user.js:64-66 | `safeTrim` gives either nothing, for an all-whitespace text, or the slice between leading and trailing whitespace, which neither starts nor ends with whitespace |
| Text.TrimEmptyIff | text-to-quoted-list.user.js:64-66 | trimming gives the empty string exactly when the text is all whitespace |
| Text.TrimIdempotent | text-to-quoted-list.user.js:64-66 | trimming twice is trimming once |
| Text.TrimOfUnpadded | text-to-quoted-list.user.js:64-66 | a text that neither starts nor ends with whitespace is its own trim |
| Text.TrimOfDelimiterFree | text-to-quoted-list.user.js:64-66 | a text without delimiters is its own trim |
| Tokenizer.RunLength | text-to-quoted-list.user.js:69-73 | the delimiter-free prefix at the head of a text is maximal: it is followed by a delimiter or by the end |
| Tokenizer.DelimiterRun | text-to-quoted-list.user.js:69-73 | a run matched by `[\s,;，；]+` is maximal: all delimiters, followed by a non-delimiter or by the end |
| Tokenizer.SplitOnDelimiterRuns | text-to-quoted-list.user.js:69-73 | `split(SPLIT_RE)` gives at least one piece, and no piece holds a delimiter; `SplitReassembles`, `SplitInteriorNonEmpty`, `SplitUnique` and `SplitIsCut` pin down which pieces |
| Tokenizer.SplitGapsShape | text-to-quoted-list.user.js:69-73 | the split cuts out one non-empty run of delimiters between each two neighbouring pieces |
| Tokenizer.SplitReassembles | text-to-quoted-list.user.js:69-73 | the pieces of the split, with the cut-out delimiter runs put back between them, give the text again |
| Tokenizer.SplitInteriorNonEmpty | text-to-quoted-list.user.js:69-73 | consecutive delimiters collapse into one cut: only the first and the last piece can be empty |
| Tokenizer.SplitCons | text-to-quoted-list.user.js:69-73 | a delimiter-free piece followed by a whole delimiter run is cut off as the first piece, with that run as the first cut |
| Tokenizer.SplitUnique | text-to-quoted-list.user.js:69-73 | any cut of a text into delimiter-free pieces and non-empty delimiter runs, with no empty piece between two runs, is the split's own cut; so the pieces are exactly the text between maximal delimiter runs |
| Tokenizer.SplitIsCut | text-to-quoted-list.user.js:69-73 | the split's pieces and delimiter runs form such a cut of the text and give it back; with `SplitUnique`, the split is the only cut of every text |
| Tokenizer.TrimEach | text-to-quoted-list.user.js:74 | `map(safeTrim)` gives one trimmed piece per piece; `TrimEachOfDelimiterFree` shows it changes no piece of the split |
| Tokenizer.DropEmpty | text-to-quoted-list.user.js:75 | `filter(Boolean)` keeps exactly the non-empty strings: a string is in the result if and only if it is a non-empty string of the input |
| Tokenizer.DropEmptyAppend | text-to-quoted-list.user.js:75 | the filter keeps order: what survives of a first part comes before what survives of a second |
| Tokenizer.DropEmptyKeepsNonEmpty | text-to-quoted-list.user.js:75 | a list without empty strings passes the filter unchanged |
| Tokenizer.Words | text-to-quoted-list.user.js:69-76 | the reference tokenizer yields only non-empty, delimiter-free tokens |
| Tokenizer.SplitMatchesWords | text-to-quoted-list.user.js:73-75 | splitting on delimiter runs and dropping empty pieces gives exactly the maximal delimiter-free runs |
| Tokenizer.TrimEachOfDelimiterFree | text-to-quoted-list.user.js:74 | the per-piece `safeTrim` changes no piece of the split |
| Tokenizer.WordsSkipsDelimiters | text-to-quoted-list.user.js:69-76 | leading delimiters hold no token |
| Tokenizer.WordsDropsTrailingDelimiters | text-to-quoted-list.user.js:69-76 | trailing delimiters hold no token |
| Tokenizer.WordsOfTrim | text-to-quoted-list.user.js:72 | the surrounding whitespace that `safeTrim` strips holds no token |
| Tokenizer.ParseTokens | text-to-quoted-list.user.js:71-76 | `parseTokens` as the chain trim, split, trim each, filter; `ParseTokensIsWords` proves it returns the maximal delimiter-free runs |
| Tokenizer.ParseTokensIsWords | text-to-quoted-list.user.js:71-76 | `parseTokens` returns the maximal delimiter-free runs of the input, in order |
| Tokenizer.WordsSplitsAtDelimiter | text-to-quoted-list.user.js:69-76 | tokens on either side of a delimiter are tokenized independently and kept in order |
| Tokenizer.WordsOfToken | text-to-quoted-list.user.js:69-76 | a delimiter-free non-empty text is one token |
| Tokenizer.WordsEmptyIff | text-to-quoted-list.user.js:69-76 | there are no tokens exactly when every character is a delimiter |
| Tokenizer.WordsOfJoin | text-to-quoted-list.user.js:69-76 | tokens joined by one delimiter are read back unchanged |
| Tokenizer.ParseTokensAreTokens | text-to-quoted-list.user.js:71-76 | every token of `parseTokens` is non-empty and holds no whitespace, `,`, `;`, `，` or `；` |
| Tokenizer.ParseTokensEmptyIff | text-to-quoted-list.user.js:64-76 | `parseTokens` is empty exactly for text made only of delimiters, and in particular for blank text |
| Tokenizer.ParseTokensSplitsAtDelimiter | text-to-quoted-list.user.js:71-76 | `parseTokens(a + d + b)` is `parseTokens(a)` followed by `parseTokens(b)` for a delimiter `d`: order is kept |
| Tokenizer.ParseTokensOfToken | text-to-quoted-list.user.js:71-76 | a single token parses to itself |
| Tokenizer.ParseTokensOfJoin | text-to-quoted-list.user.js:71-76 | tokens joined by any one delimiter parse back to the same tokens |
| Tokenizer.WordsOfSpaced | text-to-quoted-list.user.js:69-76 | tokens separated by arbitrary non-empty delimiter runs are read back unchanged |
| Tokenizer.ParseTokensOfSpaced | text-to-quoted-list.user.js:71-76 | `parseTokens` reads back tokens separated by arbitrary non-empty delimiter runs, such as `, ` or `; ` |
| Tokenizer.ParseTokensOfTrim | text-to-quoted-list.user.js:72 | tokenizing the trimmed text is tokenizing the text |
| Formatter.ReplaceAll | text-to-quoted-list.user.js:139 | a global one-character `replace` grows the text by one less than the replacement length per occurrence |
| Formatter.ReplaceAllAppend | text-to-quoted-list.user.js:139 | a global one-character `replace` distributes over concatenation |
| Formatter.ReplaceAllAbsent | text-to-quoted-list.user.js:139 | replacing a character that does not occur changes nothing |
| Formatter.ReplaceAllNoDelimiter | text-to-quoted-list.user.js:139 | a replacement without delimiters introduces none |
| Formatter.EscapeSqlSingleQuote | text-to-quoted-list.user.js:137-140 | the escaped length is the input length plus the number of `'` |
| Formatter.SqlEscapeCons | text-to-quoted-list.user.js:137-140 | escaping is per character: a leading `'` becomes `''`, any other leading character stays, then the rest is escaped |
| Formatter.EscapeDoubleQuoteForCode | text-to-quoted-list.user.js:142-145 | the two global replacements, backslash first; `EscapeDoubleQuoteIsPerCharacter` and `CodeBodyRoundTrip` state what they produce |
| Formatter.EscapeDoubleQuoteIsPerCharacter | text-to-quoted-list.user.js:142-145 | the two passes (backslash first, then quote) equal escaping each character on its own: `\` becomes `\\`, `"` becomes `\"`, and the backslash added before a quote is not doubled again |
| Formatter.SqlLiteral | text-to-quoted-list.user.js:149 | one single-style entry; `SqlEntrySingle` shows it reads back as its token |
| Formatter.CodeLiteral | text-to-quoted-list.user.js:151 | one double-style entry; `CodeEntrySingle` shows it reads back as its token |
| Formatter.SqlLiterals | text-to-quoted-list.user.js:149 | one entry per token |
| Formatter.CodeLiterals | text-to-quoted-list.user.js:151 | one entry per token |
| Formatter.FormatQuotedList | text-to-quoted-list.user.js:147-152 | an empty token list gives the empty string in both styles |
| Formatter.SqlBodyRoundTrip | text-to-quoted-list.user.js:137-140 | an escaped SQL body and its closing quote read back as the original value |
| Formatter.SqlEntrySingle | text-to-quoted-list.user.js:149 | one SQL entry `'…'` reads back as its token |
| Formatter.SqlEntryCons | text-to-quoted-list.user.js:149 | an entry, a comma and a readable rest read as one more token in front |
| Formatter.SqlEntriesRoundTrip | text-to-quoted-list.user.js:149 | the SQL entries joined by commas read back as the tokens, one per entry, in order |
| Formatter.SqlListRoundTrip | text-to-quoted-list.user.js:147-149 | `formatQuotedList(tokens, "'")` decodes back to exactly `tokens`, for every token list including tokens holding quotes |
| Formatter.CodeBodyRoundTrip | text-to-quoted-list.user.js:142-145 | a per-character escaped code body and its closing quote read back as the original value |
| Formatter.CodeEntrySingle | text-to-quoted-list.user.js:151 | one code entry `"…"` reads back as its token |
| Formatter.CodeEntryCons | text-to-quoted-list.user.js:151 | an entry, a comma and a readable rest read as one more token in front |
| Formatter.CodeEntriesRoundTrip | text-to-quoted-list.user.js:151 | the code entries joined by commas read back as the tokens, one per entry, in order |
| Formatter.CodeListRoundTrip | text-to-quoted-list.user.js:147-151 | for any quote argument other than `'`, the output decodes back to exactly `tokens` in double style |
| Formatter.SqlLiteralIsToken | text-to-quoted-list.user.js:149 | a SQL entry of a delimiter-free token is itself a token: no space, comma or semicolon is added |
| Formatter.CodeLiteralIsToken | text-to-quoted-list.user.js:151 | a code entry of a delimiter-free token is itself a token |
| Formatter.ParseTokensOfFormattedList | text-to-quoted-list.user.js:147-152 | re-tokenizing a formatted list gives exactly one entry per token, in order: no spaces and no trailing comma |
| Formatter.SqlLiteralExample | text-to-quoted-list.user.js:137-140 | `it's` escapes to `'it''s'` |
| Formatter.FormatSingleExample | text-to-quoted-list.user.js:147-149 | `["it's"]` formats to `'it''s'` in single style |
| Formatter.CodeLiteralExample | text-to-quoted-list.user.js:142-145 | `a"b` escapes to `"a\"b"` |
| Formatter.FormatDoubleExample | text-to-quoted-list.user.js:147-151 | `["a\"b"]` formats to `"a\"b"` in double style |
| Formatter.SqlLiteralOfIdentifier | text-to-quoted-list.user.js:137-140 | a token without `'` is only wrapped in quotes |
| Formatter.FormatListExample | text-to-quoted-list.user.js:147-152 | `A001`, `A002` format to `'A001','A002'`, and no tokens give `""` in both styles |
| Classifier.CjkCount | text-to-quoted-list.user.js:114 | the number of characters in `一-鿿` is at most the length |
| Classifier.CjkCountAppend | text-to-quoted-list.user.js:114 | CJK counts add up over concatenation |
| Classifier.CjkCountOfCjk | text-to-quoted-list.user.js:114 | a text made of CJK characters counts all of them |
| Classifier.CjkCountOfNonCjk | text-to-quoted-list.user.js:114 | a text without CJK characters counts zero |
| Classifier.MaxLength | text-to-quoted-list.user.js:129-130 | `Math.max(...lengths)` is at least every token length and equal to one of them |
| Classifier.MinLength | text-to-quoted-list.user.js:129-131 | `Math.min(...lengths)` is at most every token length and equal to one of them |
| Classifier.ContainsAny | text-to-quoted-list.user.js:89-92 | the bracket test and the JSON-character test: some character of the text is in the class; `LooksLikeSeparatedList` states both gates |
| Classifier.HasDelimiter | text-to-quoted-list.user.js:95-96 | some character of the text is in the split class; `LooksLikeSeparatedList` states the gate |
| Classifier.IsSimpleChar | text-to-quoted-list.user.js:103 | the token class: `\w`, U+4E00 to U+9FFF, `-`, `.`, `_`, `@` and `#`; `AlphabetInBmp` states each is one UTF-16 unit |
| Classifier.TotalLength | text-to-quoted-list.user.js:109 | the sum of the token lengths, the numerator of the average at :110; `DenseCjkProse` compares it without division |
| Classifier.HasSqlKeyword | text-to-quoted-list.user.js:85-86 | the keyword expression, whole word and ignoring ASCII case, with `ORDER`/`GROUP` and `BY` separated by one or more whitespace characters; `NoKeywordWithoutAdjacentLetters` and `SqlStatementRejected` are about it |
| Classifier.IsSimpleToken | text-to-quoted-list.user.js:103-104 | the token regular expression and the 200-character limit; `AcceptedTokens` and `AcceptedAlphabet` are about it |
| Classifier.DenseCjkProse | text-to-quoted-list.user.js:109-118 | heuristic 1 in integer form; `CjkSentenceRejected` shows it firing and `AcceptedTokens` that accepted texts pass it |
| Classifier.HasLongCjkToken | text-to-quoted-list.user.js:120-125 | heuristic 2; `AcceptedTokens` states that no token of an accepted text has more than 6 CJK characters |
| Classifier.UnevenLengths | text-to-quoted-list.user.js:127-132 | heuristic 3 in integer form; `UnevenListRejected` shows it firing and `MinLengthPositive` that its guard always holds |
| Classifier.Classify | text-to-quoted-list.user.js:80-135 | the whole cascade on the trimmed text; `ClassifyOfTrim`, `AcceptedTokens` and the samples are about it |
| Classifier.ClassifyTrimmed | text-to-quoted-list.user.js:82-134 | the text-level gates, then the token checks; `AcceptedTrimmed` is about it |
| Classifier.TextVerdict | text-to-quoted-list.user.js:82-96 | the gates on the whole text, in order; `LooksLikeSeparatedList` states what passing them means |
| Classifier.TokensVerdict | text-to-quoted-list.user.js:99-134 | the token count and token shape checks, then the prose heuristics; `AcceptedTrimmed` states what passing them means |
| Classifier.ProseVerdict | text-to-quoted-list.user.js:109-134 | the three prose heuristics, in order; `ProseAccepted` states what passing them means |
| Classifier.LooksLikeSeparatedList | text-to-quoted-list.user.js:80-96 | false when the trimmed text is empty or longer than 10000, holds a whole-word SQL keyword, holds one of `( ) { } [ ] " :`, or holds no delimiter |
| Classifier.ProseAccepted | text-to-quoted-list.user.js:109-134 | passing the prose heuristics means: not dense CJK prose, no token with more than 6 CJK characters, and not uneven |
| Classifier.AcceptedTrimmed | text-to-quoted-list.user.js:98-105 | an accepted trimmed text has at least two tokens, all simple, that passed the prose heuristics |
| Classifier.AcceptedTokens | text-to-quoted-list.user.js:98-134 | an accepted text has at least 2 tokens, each of `[\w一-鿿\-._@#]` and at most 200 long, with not (CJK ratio > 1/2 and average > 3), no token over 6 CJK characters, and not (max > 5·min with fewer than 10 tokens) |
| Classifier.MinLengthPositive | text-to-quoted-list.user.js:132 | the guard `minLen > 0` always holds, so the integer form of the ratio test is exact |
| Classifier.ClassifyOfTrim | text-to-quoted-list.user.js:81 | the classifier sees only the trimmed text: trimming first changes no verdict |
| Classifier.CharInSomeWord | text-to-quoted-list.user.js:99 | every non-delimiter character of a text lies in one of its tokens |
| Classifier.TokensCoverText | text-to-quoted-list.user.js:99-105 | when all tokens are simple, every character of the text is a delimiter or a token character |
| Classifier.AcceptedAlphabet | text-to-quoted-list.user.js:80-105 | an accepted text is written only with delimiters and token characters, all in the Basic Multilingual Plane |
| Classifier.AlphabetInBmp | text-to-quoted-list.user.js:95-103 | delimiters and token characters are single UTF-16 code units |
| Classifier.KeywordNeedsLetters | text-to-quoted-list.user.js:85 | a case-insensitive keyword match covers two adjacent ASCII letters |
| Classifier.NoKeywordWithoutAdjacentLetters | text-to-quoted-list.user.js:85-86 | a text with no two adjacent ASCII letters never matches the SQL keyword expression |
| Classifier.TextGatesPassed | text-to-quoted-list.user.js:80-105 | a trimmed text that passes every text-level gate and has at least 2 simple tokens gets the verdict of the prose heuristics |
| Samples.SampleTextAccepted | text-to-quoted-list.user.js:651 | the sample `A001, A002; A003\nA004` tokenizes to `A001 A002 A003 A004` and is accepted |
| Samples.DigitListAccepted | text-to-quoted-list.user.js:533 | the hint's `1,2,3` tokenizes to `1 2 3` and is accepted |
| Samples.SqlStatementRejected | text-to-quoted-list.user.js:85-86 | a `SELECT … FROM … WHERE` statement is rejected by the SQL keyword gate |
| Samples.JsonObjectRejected | text-to-quoted-list.user.js:89 | a JSON object is rejected by the bracket gate |
| Samples.SingleWordRejected | text-to-quoted-list.user.js:95-96 | a text without any delimiter is rejected |
| Samples.UnevenListRejected | text-to-quoted-list.user.js:127-132 | `1,2,1234567` (lengths 1, 1, 7) is rejected as uneven |
| CjkSamples.CjkSentenceRejected | text-to-quoted-list.user.js:112-118 | a Chinese sentence cut by a full-width comma is rejected as dense CJK prose |
| Trigger.PopupFor | text-to-quoted-list.user.js:785-797 | what a detection outside the window shows; `PopupForIsClassifier` states it |
| Trigger.IsCopyGesture | text-to-quoted-list.user.js:858-859 | the key is `c` in either case and Cmd or Ctrl is held; `OnKeyDown` is about it |
| Trigger.PopupForIsClassifier | text-to-quoted-list.user.js:785-797 | a detection shows exactly the texts the classifier accepts, trimmed; blank texts never show |
| Trigger.PickCopyText | text-to-quoted-list.user.js:833-840 | the copy handler takes the clipboard data, else the page selection, else the input selection, skipping each one that is blank |
| Trigger.TriggerGate.constructor | text-to-quoted-list.user.js:672-673 | both timestamps start at 0 |
| Trigger.TriggerGate.ShouldIgnoreAutoPopup | text-to-quoted-list.user.js:679-681 | the gate ignores detections strictly before the end of the window; `MarkIgnoreAutoPopup` states it after each mark |
| Trigger.TriggerGate.MarkIgnoreAutoPopup | text-to-quoted-list.user.js:675-681 | after marking at `now` for `ms`, the gate ignores exactly the times before `now + ms`, whatever the window was before; nothing else changes |
| Trigger.TriggerGate.OnToolCopyButton | text-to-quoted-list.user.js:683-684 | the tool's own copy buttons suppress detections for the default 900 ms |
| Trigger.TriggerGate.TryAutoPopupFromText | text-to-quoted-list.user.js:785-797 | inside the window nothing happens; otherwise the trimmed text is shown exactly when the classifier accepts it, and then the window is overwritten to end 400 ms later |
| Trigger.TriggerGate.OnCopyEvent | text-to-quoted-list.user.js:826-846 | copies inside the tool are ignored; otherwise the chosen text is handed to the detection when the timer fires |
| Trigger.TriggerGate.OnKeyDown | text-to-quoted-list.user.js:855-867 | a Cmd/Ctrl+C outside the tool records the gesture time and schedules a read; anything else changes nothing |
| Trigger.TriggerGate.OnDeferredTimer | text-to-quoted-list.user.js:867-870 | the keydown timer goes on to read the clipboard exactly when at most 800 ms have passed since the last gesture and the window is not open; nothing changes |
| Trigger.CopyThenDeferredRead | text-to-quoted-list.user.js:785-797 | when the copy event shows the panel, the keydown timer of the same gesture firing within 400 ms does not read the clipboard, so nothing more is shown |
| Trigger.ToolCopyDuringClipboardRead | text-to-quoted-list.user.js:867-876 | a tool copy button clicked while the clipboard read is under way suppresses the text that then arrives, although the read was allowed when its timer fired |

## Left out

- DOM construction, CSS, Shadow DOM, panel and logo placement, dragging, toasts and the panel's `compute` wiring: presentation only.
- `copyToClipboard`, `navigator.clipboard.readText` and `execCommand`: platform clipboard calls. The text that arrives is a parameter. A read that is unavailable or fails ends the chain: the arrival call is never made.
- `gmGet`/`gmSet` and `isPromiseLike`: asynchronous userscript storage.
- The `await` of the clipboard read: the keydown timer (`OnDeferredTimer`) and the arrival of the text (`TryAutoPopupFromText` at the arrival time) are two separate calls, and any other handler may be called between them.
- `setTimeout` scheduling: the 30 ms and 120 ms delays are not modelled. The times at which the deferred callbacks run are parameters. The model does not assume the clock is monotonic.
- `composedPath` checks: reduced to the boolean `insideTool`.
- `getSelectionText` and `getActiveInputSelectionText`: their results are string parameters of `PickCopyText`.
- `safeTrim` of `null`, `undefined` or a non-string: every input here is already a string.
- UTF-16 code units: characters are scalar values. For a text with characters outside the Basic Multilingual Plane, the 10000 limit and the CJK ratio count characters rather than code units. Such a text is rejected anyway, by the token-shape gate if not by the size gate, so only the rejecting rule can differ.
- Lone surrogates: a JavaScript string can hold a code unit in U+D800 to U+DFFF that is not part of a pair. No Dafny `char` is such a unit, so texts holding one are outside the model.
- `escapeDoubleQuoteForCode` leaves control characters as they are. The double style is therefore a complete JSON string (section 7 of RFC 8259) only for texts without control characters. The decoder reads them back raw.
