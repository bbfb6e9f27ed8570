/**
 * The parser: reduces the token list to HTML. A LaTeX delimiter whose closer
 * sits two tokens ahead becomes a math render of the one token between; a code
 * fence opens a code block that runs to the next fence or the end; anything
 * else is copied through.
 *
 * `Segments` cuts the token list into these constructs, `Render` turns each
 * into a fragment and `ParseFrom` joins them; the class `Parser` is the
 * cursor-and-output machine and is proved to compute `ParseFrom`.
 */
module Parsing {
  import opened Wrappers
  import opened JsStrings
  import opened Tokens

  /** The two TypeErrors `parse` can raise. */
  datatype ParseError =
    | ReadPastEnd       // a fence is the last token: `this.advance().data` reads `undefined`
    | NullLanguageSplit // the token after a fence has an empty payload: destructuring `null`

  /** The rendering libraries: KaTeX's `renderToString`, highlight.js's `highlight` and `highlightAuto`. */
  datatype Renderers = Renderers(
    katex: (string, bool) -> string,
    highlight: (string, string) -> string,
    highlightAuto: string -> string)

  /** One construct the parser recognises, holding the tokens it consumes. */
  datatype Construct =
    | Math(open: Token, math: Token, close: Token)
    | Code(fence: Token, head: Token, language: string, rest: string, body: seq<Token>, closing: Option<Token>)
    | Plain(token: Token)

  /** The first index of a whitespace character in `s`, or `|s|`. */
  function FirstWhitespace(s: string, from: nat): (k: nat)
    requires from <= |s|
    ensures from <= k <= |s|
    ensures k < |s| ==> IsWhitespace(s[k])
    ensures forall j :: from <= j < k ==> !IsWhitespace(s[j])
    decreases |s| - from
  {
    if from == |s| || IsWhitespace(s[from]) then from else FirstWhitespace(s, from + 1)
  }

  /**
   * `getCodeLanguage`: nothing for an empty string; otherwise the part before
   * the first whitespace character and the rest, which starts at it.
   */
  function SplitLanguage(text: string): (r: Option<(string, string)>)
    ensures r.None? <==> text == ""
    ensures r.Some? ==> r.value.0 + r.value.1 == text
    ensures r.Some? ==> forall k :: 0 <= k < |r.value.0| ==> !IsWhitespace(r.value.0[k])
    ensures r.Some? && r.value.1 != "" ==> IsWhitespace(r.value.1[0])
  {
    if text == "" then None else
    var k := FirstWhitespace(text, 0);
    assert text[..k] + text[k..] == text;
    Some((text[..k], text[k..]))
  }

  /** Display mode for `$$` and `\[`, inline otherwise. */
  predicate IsDisplayMode(delim: string)
  {
    delim == "$$" || delim == "\\["
  }

  /** The fragment `addKatex` pushes. */
  function MathHtml(r: Renderers, delim: string, math: string): string
  {
    r.katex(math, IsDisplayMode(delim))
  }

  /** The fragment `addCode` pushes: a named language highlights the trimmed code, no language autodetects. */
  function CodeHtml(r: Renderers, code: string, language: string): string
  {
    var value := if language != "" then r.highlight(Trim(code), language) else r.highlightAuto(code);
    "<pre><code\">" + value + "</code></pre>"
  }

  /** The token at `i` opens a LaTeX span: its closer is the payload two tokens ahead. */
  predicate Opens(toks: seq<Token>, i: nat)
  {
    i < |toks| && toks[i].kind == LatexDelim && i + 2 < |toks|
    && ClosingDelimiter(toks[i].data) == Some(toks[i + 2].data)
  }

  /** The index of the first fence at or after `i`, or `|toks|`. */
  function FenceEnd(toks: seq<Token>, i: nat): (k: nat)
    requires i <= |toks|
    ensures i <= k <= |toks|
    ensures k < |toks| ==> toks[k].kind == CodeDelim
    ensures forall j :: i <= j < k ==> toks[j].kind != CodeDelim
    decreases |toks| - i
  {
    if i == |toks| || toks[i].kind == CodeDelim then i else FenceEnd(toks, i + 1)
  }

  /** What holds of every construct `Segments` produces. */
  predicate WellFormed(c: Construct)
  {
    match c
    case Math(o, _, cl) => o.kind == LatexDelim && ClosingDelimiter(o.data) == Some(cl.data)
    case Code(f, h, language, rest, body, cl) =>
      f.kind == CodeDelim && SplitLanguage(h.data) == Some((language, rest))
      && (forall t :: t in body ==> t.kind != CodeDelim)
      && (cl.Some? ==> cl.value.kind == CodeDelim)
    case Plain(t) => t.kind != CodeDelim
  }

  /** The tokens a construct consumed, in order. */
  function Covered(c: Construct): seq<Token>
  {
    match c
    case Math(o, b, cl) => [o, b, cl]
    case Code(f, h, _, _, body, cl) => [f, h] + body + (if cl.Some? then [cl.value] else [])
    case Plain(t) => [t]
  }

  /** The tokens a sequence of constructs consumed, in order. */
  function Flatten(cs: seq<Construct>): seq<Token>
  {
    if cs == [] then [] else Covered(cs[0]) + Flatten(cs[1..])
  }

  /** `done` in front of a successful result; an error stays an error. */
  function Prefixed<T>(done: seq<T>, rest: Result<seq<T>, ParseError>): Result<seq<T>, ParseError>
  {
    match rest
    case Ok(xs) => Ok(done + xs)
    case Err(e) => Err(e)
  }

  /** The constructs the parse loop recognises from token `i` on. */
  function Segments(toks: seq<Token>, i: nat): Result<seq<Construct>, ParseError>
    requires i <= |toks|
    decreases |toks| - i
  {
    if i == |toks| then Ok([])
    else if Opens(toks, i) then
      Prefixed([Math(toks[i], toks[i + 1], toks[i + 2])], Segments(toks, i + 3))
    else if toks[i].kind == CodeDelim then
      if i + 1 == |toks| then Err(ReadPastEnd)
      else match SplitLanguage(toks[i + 1].data)
        case None => Err(NullLanguageSplit)
        case Some((language, rest)) =>
          var k := FenceEnd(toks, i + 2);
          var closing := if k < |toks| then Some(toks[k]) else None;
          var next := if k < |toks| then k + 1 else k;
          Prefixed([Code(toks[i], toks[i + 1], language, rest, toks[i + 2..k], closing)], Segments(toks, next))
    else
      Prefixed([Plain(toks[i])], Segments(toks, i + 1))
  }

  /** The HTML fragment of one construct. */
  function Render(c: Construct, r: Renderers): string
  {
    match c
    case Math(o, b, _) => MathHtml(r, o.data, b.data)
    case Code(_, _, language, rest, body, _) => CodeHtml(r, rest + Concat(body), language)
    case Plain(t) => t.data
  }

  function RenderAll(cs: seq<Construct>, r: Renderers): seq<string>
  {
    if cs == [] then [] else [Render(cs[0], r)] + RenderAll(cs[1..], r)
  }

  /** The HTML `parse` returns for the tokens from `i` on, or the error it raises. */
  function ParseFrom(toks: seq<Token>, i: nat, r: Renderers): Result<string, ParseError>
    requires i <= |toks|
  {
    match Segments(toks, i)
    case Ok(cs) => Ok(Join(RenderAll(cs, r)))
    case Err(e) => Err(e)
  }

  /** The parser: a cursor over the tokens and the HTML fragments pushed so far. */
  class Parser {
    const tokens: seq<Token>
    const render: Renderers
    var current: nat
    var output: seq<string>

    constructor(tokens: seq<Token>, render: Renderers)
      ensures this.tokens == tokens && this.render == render && current == 0 && output == []
    {
      this.tokens := tokens;
      this.render := render;
      output := [];
      current := 0;
    }

    /** The cursor as a token index: `advance` may move `current` one past the end. */
    function Cursor(): (p: nat)
      reads this
      ensures p <= |tokens|
    {
      if current <= |tokens| then current else |tokens|
    }

    /** The cursor has reached (or passed) the last token. */
    function IsAtEnd(): (r: bool)
      reads this
      ensures r <==> Cursor() == |tokens|
    {
      current >= |tokens|
    }

    method Advance() returns (t: Option<Token>)
      modifies this`current
      ensures current == old(current) + 1
      ensures t == if old(current) < |tokens| then Some(tokens[old(current)]) else None
    {
      current := current + 1;
      t := if current - 1 < |tokens| then Some(tokens[current - 1]) else None;
    }

    /** The token `offset` places past the cursor; none (JavaScript's `undefined`) past the end. */
    function Peek(offset: nat): (t: Option<Token>)
      reads this
      ensures t.Some? <==> current + offset < |tokens|
      ensures t.Some? ==> t.value == tokens[current + offset]
    {
      if current + offset < |tokens| then Some(tokens[current + offset]) else None
    }

    method AddText(text: string)
      modifies this`output
      ensures output == old(output) + [text]
    {
      output := output + [text];
    }

    method AddKatex(delim: string, math: string)
      modifies this`output
      ensures output == old(output) + [MathHtml(render, delim, math)]
    {
      var displayMode := delim == "$$" || delim == "\\[";
      var html := render.katex(math, displayMode);
      output := output + [html];
    }

    method AddCode(code: string, language: string)
      modifies this`output
      ensures output == old(output) + [CodeHtml(render, code, language)]
    {
      var highlighted;
      if language != "" {
        highlighted := render.highlight(Trim(code), language);
      } else {
        highlighted := render.highlightAuto(code);
      }
      var html := "<pre><code\">" + highlighted + "</code></pre>";
      output := output + [html];
    }

    /** Splits a fence's first line into language tag and code by scanning for the first whitespace. */
    static method GetCodeLanguage(text: string) returns (split: Option<(string, string)>)
      ensures split == SplitLanguage(text)
    {
      if text == "" {
        return None;
      }
      for i := 0 to |text|
        invariant forall j :: 0 <= j < i ==> !IsWhitespace(text[j])
      {
        if IsWhitespace(text[i]) {
          return Some((text[..i], text[i..]));
        }
      }
      assert text[..|text|] == text;
      return Some((text, ""));
    }

    /** The accumulation loop of a code block: appends payloads up to the next fence or the end. */
    method CollectCode(code: string) returns (result: string)
      requires current <= |tokens|
      modifies this`current
      ensures current == FenceEnd(tokens, old(current))
      ensures result == code + Concat(tokens[old(current)..current])
    {
      result := code;
      ghost var from := current;
      while !IsAtEnd() && Peek(0).value.kind != CodeDelim
        invariant from <= current <= FenceEnd(tokens, from)
        invariant result == code + Concat(tokens[from..current])
        decreases |tokens| - current
      {
        CollectStep(tokens, from, current, code, result);
        var next := Advance();
        result := result + next.value.data;
      }
    }

    /**
     * The fence branch of the parse loop, entered just after the opening fence:
     * splits the next payload into language and code, collects the code up to the
     * closing fence, consumes that fence and pushes the highlighted block.
     */
    method CodeBlock() returns (error: Option<ParseError>, ghost block: Construct)
      requires 0 < current <= |tokens| && tokens[current - 1].kind == CodeDelim
      modifies this`current, this`output
      ensures current > old(current)
      ensures error.Some? ==> Segments(tokens, old(current) - 1) == Err(error.value)
      ensures error.None? ==> output == old(output) + [Render(block, render)]
      ensures error.None? ==> Segments(tokens, old(current) - 1) == Prefixed([block], Segments(tokens, Cursor()))
    {
      ghost var i := current - 1;
      block := Plain(tokens[i]);
      SegmentsCodeErrors(tokens, i);
      var head := Advance();
      if head.None? {
        return Some(ReadPastEnd), block;
      }
      assert head.value == tokens[i + 1];
      var split := GetCodeLanguage(head.value.data);
      if split.None? {
        return Some(NullLanguageSplit), block;
      }
      var (language, code) := split.value;
      assert current == i + 2;
      code := CollectCode(code);
      ghost var k := current;
      assert k == FenceEnd(tokens, i + 2);
      var _ := Advance();
      AddCode(code, language);
      assert Cursor() == if k < |tokens| then k + 1 else k;
      block := CodeSegment(tokens, i, language, split.value.1, k, render);
      error := None;
    }

    /**
     * One pass of the parse loop's body: consumes the construct that starts at
     * the cursor and pushes its fragment, or reports the error `parse` raises.
     */
    method ParseOne() returns (error: Option<ParseError>, ghost c: Construct)
      requires current < |tokens|
      modifies this`current, this`output
      ensures error.Some? ==> Segments(tokens, old(current)) == Err(error.value)
      ensures error.None? ==> current > old(current) && output == old(output) + [Render(c, render)]
      ensures error.None? ==> Segments(tokens, old(current)) == Prefixed([c], Segments(tokens, Cursor()))
    {
      ghost var i := current;
      var token := Advance();
      var t := token.value;
      assert t == tokens[i];
      var closer := Peek(1);
      if t.kind == LatexDelim && closer.Some? && ClosingDelimiter(t.data) == Some(closer.value.data) {
        assert closer.value == tokens[i + 2];
        var body := Advance();
        AddKatex(t.data, body.value.data);
        var _ := Advance();
        c := Math(t, body.value, closer.value);
        SegmentsMath(tokens, i);
        assert Cursor() == i + 3;
        error := None;
      } else if t.kind == CodeDelim {
        error, c := CodeBlock();
      } else {
        AddText(t.data);
        c := Plain(t);
        SegmentsPlain(tokens, i);
        error := None;
      }
    }

    /**
     * Runs the parse loop from the cursor on; the result is the fragments so far and `ParseFrom` joined.
     * On success every fragment stays in `output` and the cursor is at the end.
     */
    method Parse() returns (html: Result<string, ParseError>)
      modifies this`current, this`output
      ensures html == match ParseFrom(tokens, old(Cursor()), render)
                      case Ok(s) => Ok(Join(old(output)) + s)
                      case Err(e) => Err(e)
      ensures html.Ok? ==> IsAtEnd() && html.value == Join(output)
    {
      ghost var from, output0 := Cursor(), output;
      ghost var done: seq<Construct> := [];
      PrefixedNothing(Segments(tokens, from));
      while !IsAtEnd()
        invariant Segments(tokens, from) == Prefixed(done, Segments(tokens, Cursor()))
        invariant output == output0 + RenderAll(done, render)
        decreases |tokens| - current
      {
        ghost var i, outputBefore := current, output;
        var error, c := ParseOne();
        if error.Some? {
          return Err(error.value);
        }
        Consume(tokens, from, done, c, i, Cursor(), render, output0, outputBefore, output);
        done := done + [c];
      }
      assert done + [] == done;
      JoinAppend(output0, RenderAll(done, render));
      html := Ok(Join(output));
    }
  }

  /** One more construct recognised: the parse loop's invariant carries over. */
  lemma Consume(toks: seq<Token>, from: nat, done: seq<Construct>, c: Construct, i: nat, j: nat, r: Renderers,
                out0: seq<string>, before: seq<string>, after: seq<string>)
    requires from <= |toks| && i <= |toks| && j <= |toks|
    requires Segments(toks, from) == Prefixed(done, Segments(toks, i))
    requires Segments(toks, i) == Prefixed([c], Segments(toks, j))
    requires before == out0 + RenderAll(done, r) && after == before + [Render(c, r)]
    ensures Segments(toks, from) == Prefixed(done + [c], Segments(toks, j))
    ensures after == out0 + RenderAll(done + [c], r)
  {
    PrefixedAppend(done, [c], Segments(toks, j));
    RenderAllAppend(done, [c], r);
    assert RenderAll([c], r) == [Render(c, r)];
  }

  /** One more payload collected: still short of the next fence, and the code grows by that payload. */
  lemma CollectStep(toks: seq<Token>, from: nat, j: nat, code: string, acc: string)
    requires from <= j < |toks| && j <= FenceEnd(toks, from) && toks[j].kind != CodeDelim
    requires acc == code + Concat(toks[from..j])
    ensures j + 1 <= FenceEnd(toks, from)
    ensures acc + toks[j].data == code + Concat(toks[from..j + 1])
  {
    ConcatAppend(toks[from..j], [toks[j]]);
    assert toks[from..j + 1] == toks[from..j] + [toks[j]];
    assert Concat([toks[j]]) == toks[j].data + Concat([]);
  }

  lemma SegmentsMath(toks: seq<Token>, i: nat)
    requires Opens(toks, i)
    ensures Segments(toks, i) == Prefixed([Math(toks[i], toks[i + 1], toks[i + 2])], Segments(toks, i + 3))
  {
  }

  lemma SegmentsCode(toks: seq<Token>, i: nat, language: string, rest: string, k: nat, block: Construct)
    requires i + 1 < |toks| && toks[i].kind == CodeDelim
    requires SplitLanguage(toks[i + 1].data) == Some((language, rest))
    requires i + 2 <= |toks| && k == FenceEnd(toks, i + 2)
    requires block == Code(toks[i], toks[i + 1], language, rest, toks[i + 2..k], if k < |toks| then Some(toks[k]) else None)
    ensures Segments(toks, i) == Prefixed([block], Segments(toks, if k < |toks| then k + 1 else k))
  {
  }

  /** A fence with no token after it, or whose next payload has no language split, is an error. */
  lemma SegmentsCodeErrors(toks: seq<Token>, i: nat)
    requires i < |toks| && toks[i].kind == CodeDelim
    ensures i + 1 == |toks| ==> Segments(toks, i) == Err(ReadPastEnd)
    ensures i + 1 < |toks| && SplitLanguage(toks[i + 1].data).None? ==> Segments(toks, i) == Err(NullLanguageSplit)
  {
    assert !Opens(toks, i);
  }

  /** The block a fence at `i` opens, given its split first line and the index `k` of the next fence. */
  lemma CodeSegment(toks: seq<Token>, i: nat, language: string, rest: string, k: nat, r: Renderers) returns (block: Construct)
    requires i + 1 < |toks| && toks[i].kind == CodeDelim
    requires SplitLanguage(toks[i + 1].data) == Some((language, rest))
    requires i + 2 <= |toks| && k == FenceEnd(toks, i + 2)
    ensures Segments(toks, i) == Prefixed([block], Segments(toks, if k < |toks| then k + 1 else k))
    ensures Render(block, r) == CodeHtml(r, rest + Concat(toks[i + 2..k]), language)
  {
    block := Code(toks[i], toks[i + 1], language, rest, toks[i + 2..k], if k < |toks| then Some(toks[k]) else None);
    SegmentsCode(toks, i, language, rest, k, block);
  }

  lemma SegmentsPlain(toks: seq<Token>, i: nat)
    requires i < |toks| && !Opens(toks, i) && toks[i].kind != CodeDelim
    ensures Segments(toks, i) == Prefixed([Plain(toks[i])], Segments(toks, i + 1))
  {
  }

  lemma PrefixedNothing<T>(rest: Result<seq<T>, ParseError>)
    ensures Prefixed([], rest) == rest
  {
    if rest.Ok? {
      assert [] + rest.value == rest.value;
    }
  }

  lemma PrefixedAppend<T>(a: seq<T>, b: seq<T>, rest: Result<seq<T>, ParseError>)
    ensures Prefixed(a, Prefixed(b, rest)) == Prefixed(a + b, rest)
  {
    if rest.Ok? {
      assert a + (b + rest.value) == (a + b) + rest.value;
    }
  }

  lemma {:induction false} RenderAllAppend(a: seq<Construct>, b: seq<Construct>, r: Renderers)
    ensures RenderAll(a + b, r) == RenderAll(a, r) + RenderAll(b, r)
  {
    if a == [] {
      assert a + b == b;
    } else {
      assert (a + b)[1..] == a[1..] + b;
      RenderAllAppend(a[1..], b, r);
    }
  }
}
