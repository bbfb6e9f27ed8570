/**
 * `parseMessage`: scan the message, then parse the tokens. `MessageHtml` is
 * what it returns (or the error it raises), and the lemmas below work it out
 * for the kinds of message a chat reply contains.
 */
module Markup {
  import opened Wrappers
  import opened JsStrings
  import opened Tokens
  import opened Scanning
  import opened ScanningProperties
  import opened Parsing
  import opened ParsingProperties

  /** The HTML for a message, or the error `parse` raises on it. */
  function MessageHtml(input: string, r: Renderers): Result<string, ParseError>
  {
    ParseFrom(Tokenize(input, 0), 0, r)
  }

  /** Runs a fresh scanner over the message and a fresh parser over its tokens. */
  method ParseMessage(input: string, render: Renderers) returns (html: Result<string, ParseError>)
    ensures html == MessageHtml(input, render)
  {
    var scanner := new Scanner(input);
    var tokens := scanner.Scan();
    assert tokens == Tokenize(input, 0);
    var parser := new Parser(tokens, render);
    html := parser.Parse();
    assert Join([]) == "";
    match ParseFrom(tokens, 0, render)
    case Ok(s) => assert "" + s == s;
    case Err(_) =>
  }

  /** A character that neither a delimiter nor a fence can start with. */
  predicate Ordinary(c: char)
  {
    c != '$' && c != '\\' && c != '`'
  }

  predicate AllOrdinary(s: string)
  {
    forall k :: 0 <= k < |s| ==> Ordinary(s[k])
  }

  /** A run of ordinary characters ending at a stop or at the end is one text token. */
  lemma TextRun(s: string, a: nat, b: nat)
    requires a < b <= |s| && (b == |s| || StopsText(s, b))
    requires forall k :: a <= k < b ==> Ordinary(s[k])
    ensures ScanStep(s, a) == Emit(Token(Text, s[a..b]), b)
  {
    DelimiterChars(s[a], s[a]);
    forall k | a + 1 <= k < b
      ensures !StopsText(s, k)
    {
      assert Ordinary(s[k]);
    }
    assert TextEnd(s, a + 1) == b;
  }

  /** A delimiter at `p` is one token; a `$` only when no second `$` follows. */
  lemma DelimiterAt(s: string, p: nat, d: string)
    requires IsLatexDelimiter(d) && p + |d| <= |s| && s[p..p + |d|] == d
    requires d == "$" ==> p + 1 == |s| || s[p + 1] != '$'
    ensures ScanStep(s, p) == Emit(Token(LatexDelim, d), p + |d|)
  {
    assert s[p] == d[0];
    if d == "$$" {
      assert s[p + 1] == d[1];
      DoubleDollar(s, p);
    } else if d == "$" {
      LoneDollar(s, p);
    } else {
      assert s[p + 1] == d[1];
      BackslashDelimiter(s, p);
    }
  }

  /** One emitted token in front of the rest of the scan. */
  lemma TokenizeEmit(s: string, i: nat, t: Token, j: nat)
    requires i < |s| && ScanStep(s, i) == Emit(t, j)
    ensures Tokenize(s, i) == [t] + Tokenize(s, j)
  {
  }

  lemma EmptyMessage(r: Renderers)
    ensures MessageHtml("", r) == Ok("")
  {
    assert Segments([], 0) == Ok([]);
  }

  /** A message of ordinary characters only: scanned into text tokens, which come back unchanged. */
  lemma {:induction false} OrdinaryTokens(s: string, i: nat)
    requires i <= |s| && forall k :: i <= k < |s| ==> Ordinary(s[k])
    ensures forall t :: t in Tokenize(s, i) ==> t.kind == Text
    decreases |s| - i
  {
    if i < |s| {
      DelimiterChars(s[i], s[i]);
      OrdinaryTokens(s, ScanStep(s, i).next);
    }
  }

  /** Without `$`, backslash or backtick the message is returned unchanged: nothing is escaped. */
  lemma PlainMessage(s: string, r: Renderers)
    requires AllOrdinary(s)
    ensures MessageHtml(s, r) == Ok(s)
  {
    var toks := Tokenize(s, 0);
    OrdinaryTokens(s, 0);
    assert forall j :: 0 <= j < |toks| ==> toks[j] in toks;
    Passthrough(toks, 0, r);
    LosslessWithoutBackticks(s);
    assert toks[0..] == toks;
  }

  /** A non-empty ordinary piece `x` at `a`, followed by a stop or the end, is one text token. */
  lemma TextPiece(s: string, a: nat, x: string)
    requires x != "" && AllOrdinary(x) && a + |x| <= |s| && s[a..a + |x|] == x
    requires a + |x| == |s| || StopsText(s, a + |x|)
    ensures ScanStep(s, a) == Emit(Token(Text, x), a + |x|)
  {
    forall k | a <= k < a + |x|
      ensures Ordinary(s[k])
    {
      assert s[k] == x[k - a];
    }
    TextRun(s, a, a + |x|);
  }

  /** A text run stops in front of any delimiter. */
  lemma DelimiterStops(s: string, p: nat, d: string)
    requires IsLatexDelimiter(d) && p + |d| <= |s| && s[p..p + |d|] == d
    ensures StopsText(s, p)
  {
    assert s[p] == d[0];
    if d[0] != '$' {
      assert s[p + 1] == d[1];
      DelimiterChars(s[p], s[p + 1]);
    }
  }

  /** Scanning a delimited span, first step: the opener. */
  lemma MathOpenStep(open: string, x: string)
    requires ClosingDelimiter(open).Some? && x != "" && AllOrdinary(x)
    ensures ScanStep(open + x + ClosingDelimiter(open).value, 0) == Emit(Token(LatexDelim, open), |open|)
  {
    var s := open + x + ClosingDelimiter(open).value;
    assert s[0..|open|] == open && s[|open|] == x[0];
    DelimiterAt(s, 0, open);
  }

  /** Scanning a delimited span, second step: the text up to the closer. */
  lemma MathTextStep(open: string, x: string)
    requires ClosingDelimiter(open).Some? && x != "" && AllOrdinary(x)
    ensures ScanStep(open + x + ClosingDelimiter(open).value, |open|) == Emit(Token(Text, x), |open| + |x|)
  {
    var close := ClosingDelimiter(open).value;
    var s := open + x + close;
    var p := |open| + |x|;
    assert s[|open|..p] == x && s[p..p + |close|] == close;
    DelimiterStops(s, p, close);
    TextPiece(s, |open|, x);
  }

  /** Scanning a delimited span, last step: the closer. */
  lemma MathCloseStep(open: string, x: string)
    requires ClosingDelimiter(open).Some? && x != "" && AllOrdinary(x)
    ensures var s := open + x + ClosingDelimiter(open).value;
            ScanStep(s, |open| + |x|) == Emit(Token(LatexDelim, ClosingDelimiter(open).value), |s|)
  {
    var close := ClosingDelimiter(open).value;
    var s := open + x + close;
    var p := |open| + |x|;
    assert s[p..p + |close|] == close;
    DelimiterAt(s, p, close);
  }

  /** The tokens of a delimited span: opener, the text between, closer. */
  lemma MathTokens(open: string, x: string)
    requires ClosingDelimiter(open).Some? && x != "" && AllOrdinary(x)
    ensures var close := ClosingDelimiter(open).value;
            Tokenize(open + x + close, 0) == [Token(LatexDelim, open), Token(Text, x), Token(LatexDelim, close)]
  {
    var close := ClosingDelimiter(open).value;
    var s := open + x + close;
    var p := |open| + |x|;
    MathOpenStep(open, x);
    MathTextStep(open, x);
    MathCloseStep(open, x);
    assert Tokenize(s, |s|) == [];
    TokenizeEmit(s, p, Token(LatexDelim, close), |s|);
    TokenizeEmit(s, |open|, Token(Text, x), p);
    TokenizeEmit(s, 0, Token(LatexDelim, open), |open|);
  }

  /**
   * `$x$`, `$$x$$`, `\(x\)` and `\[x\]` around a run of ordinary text render
   * that text with KaTeX, in display mode exactly for `$$` and `\[`.
   */
  lemma MathMessage(open: string, x: string, r: Renderers)
    requires ClosingDelimiter(open).Some? && x != "" && AllOrdinary(x)
    ensures MessageHtml(open + x + ClosingDelimiter(open).value, r) == Ok(r.katex(x, open == "$$" || open == "\\["))
  {
    var close := ClosingDelimiter(open).value;
    MathTokens(open, x);
    var toks := [Token(LatexDelim, open), Token(Text, x), Token(LatexDelim, close)];
    ParseMath(toks, 0, r);
    assert Segments(toks, 3) == Ok([]);
    assert r.katex(x, open == "$$" || open == "\\[") + "" == r.katex(x, open == "$$" || open == "\\[");
  }

  /** A lone `$` at `i` followed by an ordinary piece `x` that runs to a stop or the end: two tokens. */
  lemma DollarThenText(s: string, i: nat, x: string)
    requires x != "" && AllOrdinary(x) && i + 1 + |x| <= |s|
    requires s[i] == '$' && s[i + 1..i + 1 + |x|] == x
    requires i + 1 + |x| == |s| || StopsText(s, i + 1 + |x|)
    ensures ScanStep(s, i) == Emit(Token(LatexDelim, "$"), i + 1)
    ensures ScanStep(s, i + 1) == Emit(Token(Text, x), i + 1 + |x|)
  {
    assert s[i..i + 1] == "$" && s[i + 1] == x[0];
    DelimiterAt(s, i, "$");
    TextPiece(s, i + 1, x);
  }

  /** Scanning `$a$b`: the four steps. */
  lemma DollarSteps(a: string, b: string)
    requires a != "" && b != "" && AllOrdinary(a) && AllOrdinary(b)
    ensures var s := "$" + a + "$" + b;
            ScanStep(s, 0) == Emit(Token(LatexDelim, "$"), 1)
            && ScanStep(s, 1) == Emit(Token(Text, a), 1 + |a|)
            && ScanStep(s, 1 + |a|) == Emit(Token(LatexDelim, "$"), 2 + |a|)
            && ScanStep(s, 2 + |a|) == Emit(Token(Text, b), |s|)
  {
    var s := "$" + a + "$" + b;
    var p := 1 + |a|;
    assert s[0] == '$' && s[1..p] == a;
    assert s[p] == '$' && s[p + 1..p + 1 + |b|] == b;
    assert StopsText(s, p);
    DollarThenText(s, 0, a);
    DollarThenText(s, p, b);
  }

  /** The tokens of `$a$b`: two lone dollars, each followed by its text. */
  lemma DollarTokens(a: string, b: string)
    requires a != "" && b != "" && AllOrdinary(a) && AllOrdinary(b)
    ensures Tokenize("$" + a + "$" + b, 0)
            == [Token(LatexDelim, "$"), Token(Text, a), Token(LatexDelim, "$"), Token(Text, b)]
  {
    var s := "$" + a + "$" + b;
    var p := 1 + |a|;
    DollarSteps(a, b);
    assert Tokenize(s, |s|) == [];
    TokenizeEmit(s, p + 1, Token(Text, b), |s|);
    TokenizeEmit(s, p, Token(LatexDelim, "$"), p + 1);
    TokenizeEmit(s, 1, Token(Text, a), p);
    TokenizeEmit(s, 0, Token(LatexDelim, "$"), 1);
  }

  /**
   * Two lone dollars pair up across whatever text token lies between them:
   * `$a$b` renders `a` as inline math and keeps `b`.
   */
  lemma DollarsPairAcrossText(a: string, b: string, r: Renderers)
    requires a != "" && b != "" && AllOrdinary(a) && AllOrdinary(b)
    ensures MessageHtml("$" + a + "$" + b, r) == Ok(r.katex(a, false) + b)
  {
    DollarTokens(a, b);
    var toks := [Token(LatexDelim, "$"), Token(Text, a), Token(LatexDelim, "$"), Token(Text, b)];
    ParseMath(toks, 0, r);
    ParsePlain(toks, 3, r);
    assert Segments(toks, 4) == Ok([]);
    assert b + "" == b;
  }

  /** The adjacency rule at work: in `$5 and $10` the words between the dollars are typeset. */
  lemma FiveAndTen(r: Renderers)
    ensures MessageHtml("$5 and $10", r) == Ok(r.katex("5 and ", false) + "10")
  {
    assert "$5 and $10" == "$" + "5 and " + "$" + "10";
    DollarsPairAcrossText("5 and ", "10", r);
  }

  /** The tokens of `$a`: a lone dollar and the text after it. */
  lemma UnpairedTokens(a: string)
    requires a != "" && AllOrdinary(a)
    ensures Tokenize("$" + a, 0) == [Token(LatexDelim, "$"), Token(Text, a)]
  {
    var s := "$" + a;
    assert s[0..1] == "$" && s[1] == a[0] && s[1..1 + |a|] == a;
    DelimiterAt(s, 0, "$");
    TextPiece(s, 1, a);
    assert Tokenize(s, |s|) == [];
    TokenizeEmit(s, 1, Token(Text, a), |s|);
    TokenizeEmit(s, 0, Token(LatexDelim, "$"), 1);
  }

  /** A dollar with no partner stays a literal `$` in the output. */
  lemma UnpairedDollar(a: string, r: Renderers)
    requires a != "" && AllOrdinary(a)
    ensures MessageHtml("$" + a, r) == Ok("$" + a)
  {
    UnpairedTokens(a);
    var toks := [Token(LatexDelim, "$"), Token(Text, a)];
    ParsePlain(toks, 0, r);
    ParsePlain(toks, 1, r);
    assert Segments(toks, 2) == Ok([]);
    assert a + "" == a;
  }

  /** Any two delimiters around a run of ordinary text scan as three tokens. */
  lemma SpanTokens(open: string, x: string, close: string)
    requires IsLatexDelimiter(open) && IsLatexDelimiter(close) && x != "" && AllOrdinary(x)
    ensures Tokenize(open + x + close, 0) == [Token(LatexDelim, open), Token(Text, x), Token(LatexDelim, close)]
  {
    var s := open + x + close;
    var p := |open| + |x|;
    assert s[0..|open|] == open && s[|open|] == x[0] && s[|open|..p] == x && s[p..p + |close|] == close;
    DelimiterAt(s, 0, open);
    DelimiterStops(s, p, close);
    TextPiece(s, |open|, x);
    DelimiterAt(s, p, close);
    assert Tokenize(s, |s|) == [];
    TokenizeEmit(s, p, Token(LatexDelim, close), |s|);
    TokenizeEmit(s, |open|, Token(Text, x), p);
    TokenizeEmit(s, 0, Token(LatexDelim, open), |open|);
  }

  /** A delimiter that is not the opener's closer pairs with nothing: the message comes back unchanged. */
  lemma UnmatchedDelimiters(open: string, x: string, close: string, r: Renderers)
    requires IsLatexDelimiter(open) && IsLatexDelimiter(close) && ClosingDelimiter(open) != Some(close)
    requires x != "" && AllOrdinary(x)
    ensures MessageHtml(open + x + close, r) == Ok(open + x + close)
  {
    var toks := [Token(LatexDelim, open), Token(Text, x), Token(LatexDelim, close)];
    SpanTokens(open, x, close);
    MessageOfTokens(open + x + close, toks, r);
    UnmatchedParse(open, x, close, r);
  }

  /** The parse half: no token of `open`, `x`, `close` opens a span, so each is copied. */
  lemma UnmatchedParse(open: string, x: string, close: string, r: Renderers)
    requires ClosingDelimiter(open) != Some(close)
    ensures ParseFrom([Token(LatexDelim, open), Token(Text, x), Token(LatexDelim, close)], 0, r) == Ok(open + x + close)
  {
    var toks := [Token(LatexDelim, open), Token(Text, x), Token(LatexDelim, close)];
    assert !Opens(toks, 0) && !Opens(toks, 1) && !Opens(toks, 2);
    ParsePlain(toks, 2, r);
    assert Segments(toks, 3) == Ok([]);
    assert RenderAll([], r) == [] && Join([]) == "";
    assert ParseFrom(toks, 3, r) == Ok("") && close + "" == close;
    ParsePlain(toks, 1, r);
    ParsePlain(toks, 0, r);
    assert open + (x + close) == open + x + close;
  }

  /** Mismatched brackets, `\(x\]` and `\[x\)`, are not math: both come back unchanged. */
  lemma MismatchedBrackets(x: string, r: Renderers)
    requires x != "" && AllOrdinary(x)
    ensures MessageHtml("\\(" + x + "\\]", r) == Ok("\\(" + x + "\\]")
    ensures MessageHtml("\\[" + x + "\\)", r) == Ok("\\[" + x + "\\)")
  {
    UnmatchedDelimiters("\\(", x, "\\]", r);
    UnmatchedDelimiters("\\[", x, "\\)", r);
  }

  /** Scanning a fence, a run of ordinary text and, when `closed`, a second fence: the steps. */
  lemma FenceSteps(text: string, closed: bool)
    requires text != "" && AllOrdinary(text)
    ensures var s := "```" + text + (if closed then "```" else "");
            ScanStep(s, 0) == Emit(Token(CodeDelim, "```"), 3)
            && ScanStep(s, 3) == Emit(Token(Text, text), 3 + |text|)
            && (closed ==> ScanStep(s, 3 + |text|) == Emit(Token(CodeDelim, "```"), |s|))
  {
    var s := "```" + text + (if closed then "```" else "");
    var p := 3 + |text|;
    assert s[0] == '`' && s[1] == '`' && s[2] == '`' && s[3..p] == text;
    Backtick(s, 0);
    if closed {
      assert s[p] == '`' && s[p + 1] == '`' && s[p + 2] == '`';
      Backtick(s, p);
    }
    TextPiece(s, 3, text);
  }

  /** The tokens of a fence, a run of ordinary text and, when `closed`, a second fence. */
  lemma FenceTokens(text: string, closed: bool)
    requires text != "" && AllOrdinary(text)
    ensures var s := "```" + text + (if closed then "```" else "");
            Tokenize(s, 0)
            == [Token(CodeDelim, "```"), Token(Text, text)] + (if closed then [Token(CodeDelim, "```")] else [])
  {
    var s := "```" + text + (if closed then "```" else "");
    var p := 3 + |text|;
    FenceSteps(text, closed);
    assert Tokenize(s, |s|) == [];
    if closed {
      TokenizeEmit(s, p, Token(CodeDelim, "```"), |s|);
    }
    TokenizeEmit(s, 3, Token(Text, text), p);
    TokenizeEmit(s, 0, Token(CodeDelim, "```"), 3);
  }

  /** Parsing a fence, a first line that splits into `language` and `code`, and a closing fence. */
  lemma ClosedFenceParse(language: string, code: string, r: Renderers)
    requires language + code != "" && SplitLanguage(language + code) == Some((language, code))
    ensures var toks := [Token(CodeDelim, "```"), Token(Text, language + code), Token(CodeDelim, "```")];
            ParseFrom(toks, 0, r) == Ok(CodeHtml(r, code, language))
  {
    var toks := [Token(CodeDelim, "```"), Token(Text, language + code), Token(CodeDelim, "```")];
    ParseCode(toks, 0, r);
    assert FenceEnd(toks, 2) == 2;
    assert code + Concat(toks[2..2]) == code;
    assert Segments(toks, 3) == Ok([]);
    assert CodeHtml(r, code, language) + "" == CodeHtml(r, code, language);
  }

  /** Parsing a fence and a first line that splits into `language` and `code`, with no closing fence. */
  lemma OpenFenceParse(language: string, code: string, r: Renderers)
    requires language + code != "" && SplitLanguage(language + code) == Some((language, code))
    ensures var toks := [Token(CodeDelim, "```"), Token(Text, language + code)];
            ParseFrom(toks, 0, r) == Ok(CodeHtml(r, code, language))
  {
    var toks := [Token(CodeDelim, "```"), Token(Text, language + code)];
    ParseCode(toks, 0, r);
    assert FenceEnd(toks, 2) == 2;
    assert code + Concat(toks[2..2]) == code;
    assert Segments(toks, 2) == Ok([]);
    assert CodeHtml(r, code, language) + "" == CodeHtml(r, code, language);
  }

  /** A message whose tokens are known renders as those tokens parse. */
  lemma MessageOfTokens(input: string, toks: seq<Token>, r: Renderers)
    requires Tokenize(input, 0) == toks
    ensures MessageHtml(input, r) == ParseFrom(toks, 0, r)
  {
  }

  /**
   * A fenced block whose first line starts with a language tag (possibly empty)
   * followed by whitespace: one highlighted block of the code after the tag.
   */
  lemma FencedCode(language: string, code: string, r: Renderers)
    requires language + code != "" && AllOrdinary(language + code)
    requires forall k :: 0 <= k < |language| ==> !IsWhitespace(language[k])
    requires code == "" || IsWhitespace(code[0])
    ensures MessageHtml("```" + language + code + "```", r) == Ok(CodeHtml(r, code, language))
  {
    var text := language + code;
    var s := "```" + language + code + "```";
    assert s == "```" + text + (if true then "```" else "");
    FenceTokens(text, true);
    var toks := [Token(CodeDelim, "```"), Token(Text, text), Token(CodeDelim, "```")];
    assert Tokenize(s, 0) == toks;
    MessageOfTokens(s, toks, r);
    SplitLanguageUnique(language, code);
    ClosedFenceParse(language, code, r);
  }

  /** The same block without its closing fence is rendered the same way, up to the end of the message. */
  lemma UnterminatedCode(language: string, code: string, r: Renderers)
    requires language + code != "" && AllOrdinary(language + code)
    requires forall k :: 0 <= k < |language| ==> !IsWhitespace(language[k])
    requires code == "" || IsWhitespace(code[0])
    ensures MessageHtml("```" + language + code, r) == Ok(CodeHtml(r, code, language))
  {
    var text := language + code;
    var s := "```" + language + code;
    assert s == "```" + text + (if false then "```" else "");
    FenceTokens(text, false);
    var toks := [Token(CodeDelim, "```"), Token(Text, text)];
    assert Tokenize(s, 0) == toks;
    MessageOfTokens(s, toks, r);
    SplitLanguageUnique(language, code);
    OpenFenceParse(language, code, r);
  }

  lemma TrimNewlines(x: string)
    requires x != "" && !IsWhitespace(x[0]) && !IsWhitespace(x[|x| - 1])
    ensures Trim("\n" + x + "\n") == x
  {
    var s := "\n" + x + "\n";
    assert s[1..] == x + "\n";
    assert (x + "\n")[0] == x[0];
    assert TrimStart(s) == x + "\n";
    assert (x + "\n")[..|x|] == x;
  }

  /**
   * A tagged block with the code on its own lines: the highlighter gets the
   * language and the code without the newlines around it.
   */
  lemma TaggedBlock(language: string, x: string, r: Renderers)
    requires language != "" && x != "" && AllOrdinary(language) && AllOrdinary(x)
    requires forall k :: 0 <= k < |language| ==> !IsWhitespace(language[k])
    requires !IsWhitespace(x[0]) && !IsWhitespace(x[|x| - 1])
    ensures MessageHtml("```" + language + "\n" + x + "\n```", r)
            == Ok("<pre><code\">" + r.highlight(x, language) + "</code></pre>")
  {
    var code := "\n" + x + "\n";
    assert "```" + language + "\n" + x + "\n```" == "```" + language + code + "```";
    assert AllOrdinary(language + code) by {
      forall k | 0 <= k < |language + code|
        ensures Ordinary((language + code)[k])
      {
        if k < |language| {
          assert (language + code)[k] == language[k];
        } else if |language| < k < |language| + |code| - 1 {
          assert (language + code)[k] == x[k - |language| - 1];
        }
      }
    }
    FencedCode(language, code, r);
    TrimNewlines(x);
  }

  /** An untagged block is autodetected on the untrimmed code. */
  lemma UntaggedBlock(code: string, r: Renderers)
    requires code != "" && AllOrdinary(code) && IsWhitespace(code[0])
    ensures MessageHtml("```" + code + "```", r) == Ok("<pre><code\">" + r.highlightAuto(code) + "</code></pre>")
  {
    assert "```" + code + "```" == "```" + "" + code + "```";
    assert "" + code == code;
    FencedCode("", code, r);
  }

  /** The tokens of a run of ordinary text followed by a fence. */
  lemma TrailingFenceTokens(a: string)
    requires AllOrdinary(a)
    ensures Tokenize(a + "```", 0) == (if a == "" then [] else [Token(Text, a)]) + [Token(CodeDelim, "```")]
  {
    var s := a + "```";
    var n := |a|;
    assert s[n] == '`' && s[n + 1] == '`' && s[n + 2] == '`';
    Backtick(s, n);
    assert Tokenize(s, |s|) == [];
    TokenizeEmit(s, n, Token(CodeDelim, "```"), |s|);
    if a != "" {
      assert s[0..n] == a;
      TextPiece(s, 0, a);
      TokenizeEmit(s, 0, Token(Text, a), n);
    }
  }

  /** A message that ends in a fence with nothing after it raises: the parser reads a token past the end. */
  lemma TrailingFence(a: string, r: Renderers)
    requires AllOrdinary(a)
    ensures MessageHtml(a + "```", r) == Err(ReadPastEnd)
  {
    TrailingFenceTokens(a);
    var toks := Tokenize(a + "```", 0);
    if a == [] {
      ParseCode(toks, 0, r);
    } else {
      ParsePlain(toks, 0, r);
      ParseCode(toks, 1, r);
    }
  }

  /**
   * The only way `parseMessage` fails: the last token is a fence. The `null`
   * split cannot happen, because the scanner never emits an empty payload.
   */
  lemma OnlyTrailingFenceFails(input: string, r: Renderers)
    ensures MessageHtml(input, r).Err? ==>
              MessageHtml(input, r).error == ReadPastEnd
              && Tokenize(input, 0) != [] && Tokenize(input, 0)[|Tokenize(input, 0)| - 1].kind == CodeDelim
  {
    var toks := Tokenize(input, 0);
    TokenShapes(input, 0);
    ParseErrors(toks, 0, r);
    forall j | 0 <= j < |toks|
      ensures toks[j].data != ""
    {
      assert toks[j] in toks;
    }
  }
}
