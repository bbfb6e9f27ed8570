# Chat-message markup: scanner and parser

This project models `parseMessage` from `src/parser.ts`, the function that
turns an LLM reply into HTML in two stages.

1. A hand-written **scanner** cuts the message into three kinds of token:
   - text runs;
   - LaTeX delimiters (`\(`, `\[`, `\)`, `\]`, `$`, `$$`);
   - code fences (three backticks).
2. A **parser** walks the tokens and builds the HTML:
   - A delimiter whose closer is two tokens ahead becomes one KaTeX render of the token between.
   - A fence opens a highlighted code block. The next payload is split into a language tag and code at its first whitespace. Payloads are then added up to the next fence or the end.
   - Every other token is copied through.

## How the model is organised

Both stages are classes in the source, each with a cursor and a growing array.
Here they are Dafny classes whose methods keep the source's loops and fields:

- `Scanning.Scanner`: `input`, `start`, `current` and `tokens`.
- `Parsing.Parser`: `tokens`, `current` and `output`.

Each class is proved against pure specification functions:

- `Scanner.Scan` returns `Tokenize(input, 0)`. `Tokenize` repeats `ScanStep`, which says what one call of `nextToken` does at one position.
- `Parser.Parse` returns the fragments pushed so far, joined, followed by `ParseFrom`. `ParseFrom` is `Segments` (the constructs the loop recognises, or the error it raises), then `Render` on each construct, then `Join`.

The properties are lemmas about these functions:

- `ScanningProperties`: what the scanner produces.
- `ParsingProperties`: what the parser does with any token list.
- `Markup`: whole messages.

The module layout is:

- `Wrappers`: `Option` and `Result`.
- `JsStrings`: the JavaScript string behaviour the code relies on:
  - `substring` clamps its bounds;
  - concatenating `undefined` gives the text `"undefined"`;
  - `trim()` and `join("")`.
- `Tokens`: token kinds, the delimiter tables and `getClosingDelimiter`.
- `Scanning` and `ScanningProperties`: the scanner.
- `Parsing` and `ParsingProperties`: the parser.
- `Markup`: `parseMessage`, plus end-to-end results for plain text, math, `$` pairing and code blocks.
- `Findings`: two places where the code departs from its evident intent, each shown as written and repaired.

The model follows what the code does, including two places where that is
not what the component is meant to do:

- A message is meant to scan losslessly, but the code drops a lone backtick at the start of a token.
- An unterminated block is meant to render best-effort, and `parseMessage` is meant never to throw. The code throws on a trailing fence.

One more consequence of the code is easy to miss. `$5 and $10` renders `5 and ` as math. Pairing looks exactly two tokens ahead, the rule stated at src/parser.ts:163 (`Markup.FiveAndTen`).

## Model

| member | source | states |
|---|---|---|
| JsStrings.Show | src/parser.ts:76 | concatenating a peeked character gives that character, or the 9-character text `undefined` past the end |
| JsStrings.Substring | src/parser.ts:83 | `substring` is the slice when the bounds are in order and in range, and clamps the upper bound to the length |
| JsStrings.TrimStart | src/parser.ts:146 | the result is a suffix, everything removed is whitespace, and it does not start with whitespace |
| JsStrings.TrimEnd | src/parser.ts:146 | the result is a prefix, everything removed is whitespace, and it does not end with whitespace |
| JsStrings.TrimSpec | src/parser.ts:146 | `trim()` gives an infix that neither starts nor ends with whitespace, and everything cut from either side is whitespace |
| JsStrings.JoinAppend | src/parser.ts:182 | `join("")` of two fragment lists put together is the two joins concatenated |
| Tokens.DelimiterChars | src/parser.ts:18-23 | `isStartOfLatexDelimiter` holds exactly for `\` and `$`; `isLatexDelimiter` on one or two characters holds exactly for `$`, `$$` and a backslash before one of `([)]` |
| Tokens.IsLatexDelimiter | src/parser.ts:18-20 | exactly `$`, `$$`, and a backslash followed by one of `([)]` |
| Tokens.IsStartOfLatexDelimiter | src/parser.ts:21-23 | exactly a single backslash or `$`, which are the first characters of the delimiters |
| Tokens.ClosingDelimiter | src/parser.ts:24-31 | a closer is a delimiter of the same length and first character as its opener, and a bracket closes its own kind: `\(` with `\)`, `\[` with `\]`. Among the delimiters, exactly `\)` and `\]` have no closer |
| Scanning.TextEnd | src/parser.ts:71-84 | the run ends at the first stop at or after the cursor (a `$`, a backslash that begins a delimiter, a triple backtick) or at the end of the input |
| Scanning.ScanStep | src/parser.ts:86-109 | one token step moves forward. An emitted payload is exactly the input slice it covers, and the token is well shaped. A text token ends at the first stop after its first character, or at the end. For a backslash-initial token the first stop after its first two characters counts. A backslash-initial text token holds the next character too. Exactly a backtick that does not start a fence is dropped, one character |
| Scanning.ShowDelimiter | src/parser.ts:74-76 | the delimiter tests on a peek past the end (`undefined`) are false, and otherwise they are the tests on the character |
| Scanning.Scanner.constructor | src/parser.ts:41-46 | a fresh scanner over the input, with the cursor at 0 and no tokens |
| Scanning.Scanner.IsAtEnd | src/parser.ts:48-50 | true exactly when the cursor has reached the end of the input, counting a cursor one past the end |
| Scanning.Scanner.Peek | src/parser.ts:55-57 | the character `offset` places past the cursor, or none (JavaScript's `undefined`) past the end |
| Scanning.Scanner.Advance | src/parser.ts:51-54 | the cursor moves one step, even past the end; the result is the character passed, or none past the end |
| Scanning.Scanner.AddToken | src/parser.ts:58-61 | one token is appended and nothing else changes |
| Scanning.Scanner.Scan | src/parser.ts:63-69 | it terminates at the end of the input; the token list grows by exactly `Tokenize` of the rest of the input, which is also what it returns |
| Scanning.Scanner.ScanText | src/parser.ts:71-84 | the cursor stops at `TextEnd`, and the one token appended is the text from `start` to there (with `substring` clamping) |
| Scanning.Scanner.NextToken | src/parser.ts:86-109 | the cursor lands where `ScanStep` says and the tokens grow by what `ScanStep` emits; the loop in `scan` therefore builds `Tokenize` |
| ScanningProperties.Lossless | src/parser.ts:86-109 | the payloads, concatenated in order, are the input with exactly the positions marked as dropped erased, so they form a subsequence of the input |
| ScanningProperties.DroppedAreLoneBackticks | src/parser.ts:103-108 | every dropped character is a backtick that does not begin a triple-backtick run |
| ScanningProperties.LosslessWithoutBackticks | src/parser.ts:63-109 | for an input without backticks, the payloads concatenate to the input exactly |
| ScanningProperties.TokenShapes | src/parser.ts:83-106 | every token is a non-empty text that is a slice of the input, one of the six LaTeX delimiters, or a fence of exactly three backticks |
| ScanningProperties.DoubleDollar | src/parser.ts:92-95 | at the start of a token, `$$` is always one `$$` token, never two `$` tokens |
| ScanningProperties.LoneDollar | src/parser.ts:92-98 | at the start of a token, a `$` not followed by `$`, also at the end of the input, is a one-character `$` token |
| ScanningProperties.BackslashDelimiter | src/parser.ts:92-95 | at the start of a token, a backslash before one of `([)]` is a two-character delimiter token |
| ScanningProperties.BackslashEscape | src/parser.ts:99-102 | any other token-initial backslash starts a text token that also holds the next character, whatever it is |
| ScanningProperties.Backtick | src/parser.ts:103-108 | a token-initial triple backtick is a fence token; a token-initial backtick that does not start a fence is skipped |
| Parsing.FirstWhitespace | src/parser.ts:153-157 | the index of the first whitespace character at or after the start, or the length when there is none |
| Parsing.SplitLanguage | src/parser.ts:151-159 | none exactly for the empty string; otherwise the two parts concatenate to the text, the first part has no whitespace, and the second is empty or starts with whitespace |
| Parsing.FenceEnd | src/parser.ts:171-173 | the index of the next fence at or after the start, or the end; no fence lies before it |
| Parsing.Parser.constructor | src/parser.ts:117-122 | a fresh parser over the tokens, with the cursor at 0 and empty output |
| Parsing.Parser.IsAtEnd | src/parser.ts:124-126 | true exactly when the cursor has reached the end of the tokens, counting a cursor one past the end |
| Parsing.Parser.Peek | src/parser.ts:131-133 | the token `offset` places past the cursor, or none (JavaScript's `undefined`) past the end |
| Parsing.Parser.Advance | src/parser.ts:127-130 | the cursor moves one step, even past the end; the result is the token passed, or none past the end |
| Parsing.Parser.AddText | src/parser.ts:135-137 | the text is pushed as one fragment |
| Parsing.Parser.AddKatex | src/parser.ts:138-143 | one KaTeX render of the math is pushed, in display mode exactly for `$$` and `\[` |
| Parsing.Parser.AddCode | src/parser.ts:144-150 | one block is pushed: `'<pre><code">' + value + '</code></pre>'`. The value is the highlight of the trimmed code in the named language, or autodetection on the untrimmed code when no language is named |
| Parsing.Parser.GetCodeLanguage | src/parser.ts:151-159 | the search loop returns `SplitLanguage` of the text |
| Parsing.Parser.CollectCode | src/parser.ts:171-173 | the inner loop stops at the next fence or the end, and appends every payload before it, in order |
| Parsing.Parser.CodeBlock | src/parser.ts:168-177 | the fence branch raises exactly the error `Segments` predicts; otherwise it pushes the render of the block `Segments` recognises and leaves the cursor after it |
| Parsing.Parser.ParseOne | src/parser.ts:161-180 | one pass of the loop body consumes the construct `Segments` finds at the cursor and pushes its render, or raises the error `Segments` predicts |
| Parsing.Parser.Parse | src/parser.ts:160-183 | it terminates; the result is the fragments pushed before, joined, followed by `ParseFrom` of the tokens from the cursor, or the same error. On success the cursor is at the end and the result is `output` joined, so every fragment stays in `output` |
| ParsingProperties.FirstConstruct | src/parser.ts:161-180 | where the loop does not fail, the first construct covers the tokens from the cursor up to the next one, in order, and has its branch's shape |
| ParsingProperties.SegmentsFlatten | src/parser.ts:160-183 | on success, the constructs together cover every token exactly once and in order |
| ParsingProperties.SegmentsWellFormed | src/parser.ts:164-179 | on success, every math construct pairs an opener with its closer. Every code block starts at a fence, keeps its split first line and holds no fence in its body. Every copied token is not a fence |
| ParsingProperties.ParseConstruct | src/parser.ts:160-183 | each construct's fragment comes in front of the output for the rest of the tokens |
| ParsingProperties.ParseMath | src/parser.ts:164-167 | a delimiter whose closer is two tokens ahead renders the token between, of any kind, once. Display mode is exactly for `$$` and `\[`. All three tokens are consumed |
| ParsingProperties.ParseCode | src/parser.ts:168-177 | a fence as the last token raises the read past the end. An empty next payload raises the `null` destructuring. Otherwise the block's code is the split remainder followed by every payload up to the next fence, and the parse resumes after that fence, or ends |
| ParsingProperties.ParsePlain | src/parser.ts:178-179 | any other token is copied verbatim in front of the rest |
| ParsingProperties.Passthrough | src/parser.ts:178-182 | with no fence and no matched delimiter, the output is the payloads concatenated |
| ParsingProperties.ParseErrors | src/parser.ts:169-170 | a read past the end happens only when the last token is a fence; the `null` split happens only at a fence followed by an empty payload |
| ParsingProperties.SplitLanguageUnique | src/parser.ts:151-159 | the converse of `SplitLanguage`: any tag without whitespace, followed by a rest that is empty or starts with whitespace, is the split |
| Markup.ParseMessage | src/parser.ts:187-192 | scanning with a fresh scanner and parsing with a fresh parser gives `MessageHtml`, the specification of the whole pipeline |
| Markup.EmptyMessage | src/parser.ts:187-192 | the empty message gives the empty string |
| Markup.PlainMessage | src/parser.ts:187-192 | a message without `$`, backslash or backtick comes back unchanged |
| Markup.MathMessage | src/parser.ts:164-167 | opener, ordinary text, closer: exactly one KaTeX render of the text, in display mode exactly for `$$` and `\[` |
| Markup.DollarsPairAcrossText | src/parser.ts:164-167 | `$a$b` renders `a` as inline math and copies `b` |
| Markup.FiveAndTen | src/parser.ts:164-167 | `$5 and $10` gives inline math of `5 and ` followed by `10` |
| Markup.UnpairedDollar | src/parser.ts:178-179 | a `$` without a closer two tokens ahead is copied with the text after it |
| Markup.SpanTokens | src/parser.ts:71-98 | any two delimiters around ordinary text scan as three tokens: the first delimiter, the text, the second delimiter |
| Markup.UnmatchedDelimiters | src/parser.ts:163-167 | two delimiters around ordinary text, where the second is not the first's closer, come back unchanged with no KaTeX render |
| Markup.MismatchedBrackets | src/parser.ts:24-31 | `\(x\]` and `\[x\)` are not math; each message comes back unchanged |
| Markup.FencedCode | src/parser.ts:168-177 | a closed fence holding a tag and the code after it gives one block for that code and tag |
| Markup.UnterminatedCode | src/parser.ts:171-177 | the same block without a closing fence is still rendered |
| Markup.TaggedBlock | src/parser.ts:144-150 | ```` ```lang\ncode\n``` ```` gives the highlighter the language and the code without its surrounding newlines |
| Markup.UntaggedBlock | src/parser.ts:147-148 | a block whose first line starts with whitespace is autodetected on the untrimmed code |
| Markup.TrailingFence | src/parser.ts:169 | ordinary text followed by a fence at the very end raises the read past the end |
| Markup.OnlyTrailingFenceFails | src/parser.ts:168-170 | the only way `parseMessage` can fail is a last token that is a fence. The `null` split never arises, because the scanner emits no empty payload |
| Findings.LeadingBacktickDropped | src/parser.ts:103-108 | a message made of a backtick and ordinary text comes back without the backtick |
| Findings.InnerBacktickKept | src/parser.ts:71-84 | a backtick after ordinary text stays in the text token, and the message comes back unchanged |
| Findings.KeptStep | src/parser.ts:86-109 | the repaired step always emits, and its payload is the slice it covers |
| Findings.KeptLossless | src/parser.ts:86-109 | with the repair, the payloads concatenate to the input exactly, on every input |
| Findings.TolerantSegmentsAgree | src/parser.ts:160-183 | wherever the original loop succeeds, the repaired loop recognises the same constructs |
| Findings.TolerantAgrees | src/parser.ts:187-192 | the repair changes no message that the original renders |
| Findings.TolerantTrailingFence | src/parser.ts:168-177 | with the repair, text followed by a trailing fence renders the text and an empty autodetected block |

## Left out

- The internals of `katex.renderToString`, `hljs.highlight` and `hljs.highlightAuto` are not modelled. They are arbitrary total functions, the fields of `Parsing.Renderers`. The exceptions they may throw (KaTeX by default on malformed math, highlight.js on an unknown language name) are not modelled.
- The `console.log` calls only log; they have no effect on results.
- Strings are sequences of Unicode characters, not UTF-16 code units. Characters outside the Basic Multilingual Plane count as one position here and as two in JavaScript.
- `IsWhitespace` is the set of characters `trim()` removes (ECMAScript WhiteSpace and LineTerminator), written out as a predicate.
- `getClosingDelimiter` indexes an object literal. Lookups of inherited keys such as `"constructor"` are not modelled. The parser only looks up delimiter tokens, and none of them is such a key.
- The two TypeErrors that `parse` raises are modelled as `Err` values of `Parsing.ParseError`, not as JavaScript exceptions.
- Parts of `parse` are split out as methods:
  - `Parsing.Parser.ParseOne` is the loop body;
  - `Parsing.Parser.CodeBlock` is the fence branch;
  - `Parsing.Parser.CollectCode` is the inner loop.

  They run the same statements in the same order.
- The rest of the repository (UI, network requests, vendored libraries) is not part of this model.
- HTML escaping, sanitising, entity decoding and newline stripping around fences do not occur in `src/parser.ts`, so they are not modelled. `parseMessage` is scan, then parse.
- `Markup.TaggedBlock`, `Markup.FencedCode`, `Markup.UnterminatedCode`, `Markup.MathMessage` and the other `Markup` lemmas cover messages whose text parts contain no `$`, backslash or backtick. Arbitrary messages are covered only at the token level, by the `ParsingProperties` lemmas.

## Findings

| source | as written | input that shows it | evidently intended | confidence | as-written member | corrected member |
|---|---|---|---|---|---|---|
| src/parser.ts:169 | a fence that is the last token makes `this.advance().data` read a property of `undefined`, and `parseMessage` throws | ```` abc``` ```` (or just ```` ``` ````) | an unterminated block is rendered best-effort, so a trailing fence should give an empty block and never throw | not executed | Markup.TrailingFence | Findings.TolerantTrailingFence |
| src/parser.ts:103-108 | a token-initial backtick that does not start a fence is consumed and no token is emitted, while a backtick inside a text run is kept (`Findings.InnerBacktickKept`) | `` `a `` renders as `a` | the backtick is ordinary text, and scanning is lossless | not executed | Findings.LeadingBacktickDropped | Findings.KeptLossless |

The main model keeps both behaviours as written. The repaired versions are in
`Findings`:

- `TolerantSegments` reads a missing or empty first line after a fence as an empty one. `Findings.TolerantAgrees` shows it agrees with the original wherever the original succeeds.
- `KeptStep` scans a lone backtick as the start of a text run.
