/**
 * Two places where the code departs from what it evidently means to do, each
 * shown on the model as written and then repaired:
 *
 *  - a message whose last token is a fence makes `parse` read `.data` of
 *    `undefined` and throw, although an unterminated block is otherwise
 *    rendered best-effort; `TolerantSegments` treats a missing (or empty)
 *    first line as an empty one, and never fails;
 *  - `nextToken` silently drops a token-initial backtick that does not start a
 *    fence, while a backtick inside a text run is kept; `KeptStep` scans such
 *    a backtick as the start of a text run, and the scan becomes lossless.
 */
module Findings {
  import opened Wrappers
  import opened JsStrings
  import opened Tokens
  import opened Scanning
  import opened ScanningProperties
  import opened Parsing
  import opened ParsingProperties
  import opened Markup

  /** The first line of a block: the next token's payload, or nothing when there is no next token. */
  function HeadOrEmpty(toks: seq<Token>, i: nat): Token
  {
    if i < |toks| then toks[i] else Token(Text, "")
  }

  /** The language split with `null` read as no language and no code. */
  function SplitOrEmpty(text: string): (string, string)
  {
    match SplitLanguage(text)
    case Some(split) => split
    case None => ("", "")
  }

  /** The constructs of the repaired loop: a fence always opens a block, even with nothing after it. */
  function TolerantSegments(toks: seq<Token>, i: nat): seq<Construct>
    requires i <= |toks|
    decreases |toks| - i
  {
    if i == |toks| then []
    else if Opens(toks, i) then [Math(toks[i], toks[i + 1], toks[i + 2])] + TolerantSegments(toks, i + 3)
    else if toks[i].kind == CodeDelim then
      var split := SplitOrEmpty(HeadOrEmpty(toks, i + 1).data);
      var k := if i + 1 < |toks| then FenceEnd(toks, i + 2) else |toks|;
      var body := if i + 1 < |toks| then toks[i + 2..k] else [];
      var closing := if k < |toks| then Some(toks[k]) else None;
      var next := if k < |toks| then k + 1 else k;
      [Code(toks[i], HeadOrEmpty(toks, i + 1), split.0, split.1, body, closing)] + TolerantSegments(toks, next)
    else [Plain(toks[i])] + TolerantSegments(toks, i + 1)
  }

  function TolerantParseFrom(toks: seq<Token>, i: nat, r: Renderers): string
    requires i <= |toks|
  {
    Join(RenderAll(TolerantSegments(toks, i), r))
  }

  /** The repaired `parseMessage`: always a string. */
  function TolerantMessageHtml(input: string, r: Renderers): string
  {
    TolerantParseFrom(Tokenize(input, 0), 0, r)
  }

  /** Wherever the original loop succeeds, the repaired one recognises the same constructs. */
  lemma {:induction false} TolerantSegmentsAgree(toks: seq<Token>, i: nat)
    requires i <= |toks|
    ensures Segments(toks, i).Ok? ==> Segments(toks, i).value == TolerantSegments(toks, i)
    decreases |toks| - i
  {
    if i < |toks| && Segments(toks, i).Ok? {
      var (c, j) := FirstConstruct(toks, i);
      TolerantSegmentsAgree(toks, j);
      if toks[i].kind == CodeDelim && !Opens(toks, i) {
        assert TolerantSegments(toks, i) == [c] + TolerantSegments(toks, j);
      }
    }
  }

  /** The repair changes nothing for a message the original renders. */
  lemma TolerantAgrees(input: string, r: Renderers)
    ensures MessageHtml(input, r).Ok? ==> MessageHtml(input, r).value == TolerantMessageHtml(input, r)
  {
    TolerantSegmentsAgree(Tokenize(input, 0), 0);
  }

  /** The repaired parse of a lone fence, with or without a text token in front of it. */
  lemma TolerantFenceTokens(a: string, r: Renderers)
    ensures var toks := (if a == "" then [] else [Token(Text, a)]) + [Token(CodeDelim, "```")];
            TolerantParseFrom(toks, 0, r) == a + CodeHtml(r, "", "")
  {
    var fence := Token(CodeDelim, "```");
    var block := Code(fence, Token(Text, ""), "", "", [], None);
    var html := CodeHtml(r, "", "");
    assert SplitOrEmpty("") == ("", "");
    assert TolerantSegments([fence], 0) == [block];
    assert RenderAll([block], r) == [html];
    assert Join([html]) == html + Join([]);
    if a != "" {
      var toks := [Token(Text, a), fence];
      assert [Token(Text, a)] + [fence] == toks;
      assert toks[1..] == [fence];
      assert TolerantSegments(toks, 1) == [block];
      assert TolerantSegments(toks, 0) == [Plain(toks[0]), block];
      assert RenderAll([Plain(toks[0]), block], r) == [a] + RenderAll([block], r);
      JoinAppend([a], [html]);
      assert Join([a]) == a + Join([]);
    } else {
      assert [] + [fence] == [fence];
      assert html == "" + html;
    }
  }

  /** Where the original throws on a trailing fence, the repair renders an empty autodetected block. */
  lemma TolerantTrailingFence(a: string, r: Renderers)
    requires AllOrdinary(a)
    ensures TolerantMessageHtml(a + "```", r) == a + CodeHtml(r, "", "")
  {
    TrailingFenceTokens(a);
    TolerantFenceTokens(a, r);
  }

  /** A message that opens with a lone backtick loses it. */
  lemma LeadingBacktickDropped(a: string, r: Renderers)
    requires a != "" && AllOrdinary(a)
    ensures MessageHtml("`" + a, r) == Ok(a)
  {
    var s := "`" + a;
    assert s[0] == '`' && !StartsFence(s, 0);
    Backtick(s, 0);
    assert s[1..1 + |a|] == a;
    TextPiece(s, 1, a);
    assert Tokenize(s, |s|) == [];
    TokenizeEmit(s, 1, Token(Text, a), |s|);
    assert Tokenize(s, 0) == [Token(Text, a)];
    PlainMessage(a, r);
    assert Tokenize(a, 0) == [Token(Text, a)] by {
      assert a[0..|a|] == a;
      TextPiece(a, 0, a);
      TokenizeEmit(a, 0, Token(Text, a), |a|);
    }
  }

  /** A backtick inside a text run, by contrast, is kept: text then a backtick is one text token, returned unchanged. */
  lemma InnerBacktickKept(a: string, r: Renderers)
    requires a != "" && AllOrdinary(a)
    ensures Tokenize(a + "`", 0) == [Token(Text, a + "`")]
    ensures MessageHtml(a + "`", r) == Ok(a + "`")
  {
    var s := a + "`";
    DelimiterChars(s[0], s[0]);
    forall k | 1 <= k < |s|
      ensures !StopsText(s, k)
    {
      if k < |a| {
        assert s[k] == a[k];
      }
    }
    assert TextEnd(s, 1) == |s|;
    assert s[0..|s|] == s;
    assert Tokenize(s, |s|) == [];
    TokenizeEmit(s, 0, Token(Text, s), |s|);
    var toks := [Token(Text, s)];
    ParsePlain(toks, 0, r);
    assert Segments(toks, 1) == Ok([]);
    assert Join([]) == "" && s + "" == s;
  }

  /** The repaired step: a lone backtick starts a text run instead of vanishing. */
  function KeptStep(s: string, i: nat): (r: Step)
    requires i < |s|
    ensures r.Emit? && i < r.next <= |s| && r.token.data == s[i..r.next]
  {
    if s[i] == '`' && !StartsFence(s, i) then
      var j := TextEnd(s, i + 1);
      Emit(Token(Text, s[i..j]), j)
    else ScanStep(s, i)
  }

  function KeptTokenize(s: string, i: nat): seq<Token>
    requires i <= |s|
    decreases |s| - i
  {
    if i == |s| then [] else
    var step := KeptStep(s, i);
    [step.token] + KeptTokenize(s, step.next)
  }

  /** With the repair the scan is lossless on every input: the payloads concatenate to the input. */
  lemma {:induction false} KeptLossless(s: string, i: nat)
    requires i <= |s|
    ensures Concat(KeptTokenize(s, i)) == s[i..]
    decreases |s| - i
  {
    if i < |s| {
      var step := KeptStep(s, i);
      KeptLossless(s, step.next);
      assert KeptTokenize(s, i) == [step.token] + KeptTokenize(s, step.next);
      assert Concat([step.token] + KeptTokenize(s, step.next)) == step.token.data + Concat(KeptTokenize(s, step.next));
      assert s[i..] == s[i..step.next] + s[step.next..];
    }
  }

  /** The repair only differs from the original where the original drops a character. */
  lemma KeptStepAgrees(s: string, i: nat)
    requires i < |s| && ScanStep(s, i).Emit?
    ensures KeptStep(s, i) == ScanStep(s, i)
  {
  }
}
