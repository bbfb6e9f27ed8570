/**
 * What the parse promises about the whole token list: every token is consumed
 * exactly once and in order, the constructs have the shapes the loop's
 * branches give them, each branch contributes one fragment in front of the
 * rest of the output, a token list without pairs or fences passes through
 * verbatim, and the only failures are the two reads the loop does unguarded.
 */
module ParsingProperties {
  import opened Wrappers
  import opened JsStrings
  import opened Tokens
  import opened Parsing

  /** A fence at `i` that `parse` fails on: it is the last token, or the next payload is empty. */
  predicate FailingFence(toks: seq<Token>, i: nat)
  {
    i < |toks| && toks[i].kind == CodeDelim && (i + 1 == |toks| || toks[i + 1].data == "")
  }

  /** The construct recognised at `i` and the index just past it, when the loop does not fail there. */
  function FirstConstruct(toks: seq<Token>, i: nat): (r: (Construct, nat))
    requires i < |toks| && !FailingFence(toks, i)
    ensures i < r.1 <= |toks|
    ensures Segments(toks, i) == Prefixed([r.0], Segments(toks, r.1))
    ensures Covered(r.0) == toks[i..r.1]
    ensures WellFormed(r.0)
  {
    if Opens(toks, i) then MathConstruct(toks, i)
    else if toks[i].kind == CodeDelim then CodeConstruct(toks, i)
    else PlainConstruct(toks, i)
  }

  function MathConstruct(toks: seq<Token>, i: nat): (r: (Construct, nat))
    requires Opens(toks, i)
    ensures r.1 == i + 3 && r.1 <= |toks|
    ensures Segments(toks, i) == Prefixed([r.0], Segments(toks, r.1))
    ensures Covered(r.0) == toks[i..r.1]
    ensures WellFormed(r.0)
  {
    SegmentsMath(toks, i);
    assert toks[i..i + 3] == [toks[i], toks[i + 1], toks[i + 2]];
    (Math(toks[i], toks[i + 1], toks[i + 2]), i + 3)
  }

  function CodeConstruct(toks: seq<Token>, i: nat): (r: (Construct, nat))
    requires i + 1 < |toks| && toks[i].kind == CodeDelim && toks[i + 1].data != ""
    ensures i < r.1 <= |toks|
    ensures Segments(toks, i) == Prefixed([r.0], Segments(toks, r.1))
    ensures Covered(r.0) == toks[i..r.1]
    ensures WellFormed(r.0)
  {
    var split := SplitLanguage(toks[i + 1].data).value;
    var k := FenceEnd(toks, i + 2);
    var closing := if k < |toks| then Some(toks[k]) else None;
    var block := Code(toks[i], toks[i + 1], split.0, split.1, toks[i + 2..k], closing);
    SegmentsCode(toks, i, split.0, split.1, k, block);
    CodeCovered(toks, i, k);
    (block, if k < |toks| then k + 1 else k)
  }

  /** The tokens of a code block: fence, first line, body up to `k` and the closing fence if there is one. */
  lemma CodeCovered(toks: seq<Token>, i: nat, k: nat)
    requires i + 2 <= k <= |toks|
    ensures toks[i..if k < |toks| then k + 1 else k]
            == [toks[i], toks[i + 1]] + toks[i + 2..k] + (if k < |toks| then [toks[k]] else [])
  {
    if k < |toks| {
      assert toks[i..k + 1] == [toks[i], toks[i + 1]] + toks[i + 2..k] + [toks[k]];
    } else {
      assert toks[i..k] == [toks[i], toks[i + 1]] + toks[i + 2..k];
    }
  }

  function PlainConstruct(toks: seq<Token>, i: nat): (r: (Construct, nat))
    requires i < |toks| && !Opens(toks, i) && toks[i].kind != CodeDelim
    ensures r.1 == i + 1
    ensures Segments(toks, i) == Prefixed([r.0], Segments(toks, r.1))
    ensures Covered(r.0) == toks[i..r.1]
    ensures WellFormed(r.0)
  {
    SegmentsPlain(toks, i);
    assert toks[i..i + 1] == [toks[i]];
    (Plain(toks[i]), i + 1)
  }

  /** Every token from `i` on is consumed by exactly one construct, in order. */
  lemma {:induction false} SegmentsFlatten(toks: seq<Token>, i: nat)
    requires i <= |toks|
    ensures Segments(toks, i).Ok? ==> Flatten(Segments(toks, i).value) == toks[i..]
    decreases |toks| - i
  {
    if i < |toks| && Segments(toks, i).Ok? {
      var (c, j) := FirstConstruct(toks, i);
      SegmentsFlatten(toks, j);
      var cs := Segments(toks, j).value;
      assert Segments(toks, i).value == [c] + cs;
      assert ([c] + cs)[0] == c && ([c] + cs)[1..] == cs;
      assert Flatten([c] + cs) == Covered(c) + Flatten(cs);
      assert toks[i..] == toks[i..j] + toks[j..];
    }
  }

  /** Every construct has the shape its branch gives it. */
  lemma {:induction false} SegmentsWellFormed(toks: seq<Token>, i: nat)
    requires i <= |toks|
    ensures Segments(toks, i).Ok? ==> forall c :: c in Segments(toks, i).value ==> WellFormed(c)
    decreases |toks| - i
  {
    if i < |toks| && Segments(toks, i).Ok? {
      var (c, j) := FirstConstruct(toks, i);
      SegmentsWellFormed(toks, j);
    }
  }

  /** One construct recognised: its fragment goes in front of the rest of the output. */
  lemma ParseConstruct(toks: seq<Token>, i: nat, j: nat, c: Construct, r: Renderers)
    requires i <= |toks| && j <= |toks|
    requires Segments(toks, i) == Prefixed([c], Segments(toks, j))
    ensures ParseFrom(toks, i, r) == Prefixed(Render(c, r), ParseFrom(toks, j, r))
  {
    if Segments(toks, j).Ok? {
      var cs := Segments(toks, j).value;
      assert ([c] + cs)[0] == c && ([c] + cs)[1..] == cs;
      assert RenderAll([c] + cs, r) == [Render(c, r)] + RenderAll(cs, r);
      JoinAppend([Render(c, r)], RenderAll(cs, r));
      assert Join([Render(c, r)]) == Render(c, r) + Join([]);
    }
  }

  /**
   * A delimiter whose closer is two tokens ahead: one KaTeX render of the token
   * between, in display mode exactly for `$$` and `\[`, then the rest after all three.
   */
  lemma ParseMath(toks: seq<Token>, i: nat, r: Renderers)
    requires Opens(toks, i)
    ensures ParseFrom(toks, i, r)
            == Prefixed(r.katex(toks[i + 1].data, toks[i].data == "$$" || toks[i].data == "\\["), ParseFrom(toks, i + 3, r))
  {
    var (c, j) := FirstConstruct(toks, i);
    ParseConstruct(toks, i, j, c, r);
  }

  /**
   * A fence: an error if it is the last token or the next payload is empty;
   * otherwise one highlighted block of the split remainder followed by every
   * payload up to the next fence, which is consumed, or to the end.
   */
  lemma ParseCode(toks: seq<Token>, i: nat, r: Renderers)
    requires i < |toks| && toks[i].kind == CodeDelim
    ensures i + 1 == |toks| ==> ParseFrom(toks, i, r) == Err(ReadPastEnd)
    ensures i + 1 < |toks| && toks[i + 1].data == "" ==> ParseFrom(toks, i, r) == Err(NullLanguageSplit)
    ensures i + 1 < |toks| && toks[i + 1].data != "" ==>
              var split := SplitLanguage(toks[i + 1].data).value;
              var k := FenceEnd(toks, i + 2);
              ParseFrom(toks, i, r)
              == Prefixed(CodeHtml(r, split.1 + Concat(toks[i + 2..k]), split.0),
                          ParseFrom(toks, if k < |toks| then k + 1 else k, r))
  {
    if i + 1 == |toks| {
      assert Segments(toks, i) == Err(ReadPastEnd);
    } else if toks[i + 1].data == "" {
      assert Segments(toks, i) == Err(NullLanguageSplit);
    } else {
      var split := SplitLanguage(toks[i + 1].data).value;
      var k := FenceEnd(toks, i + 2);
      var block := Code(toks[i], toks[i + 1], split.0, split.1, toks[i + 2..k], if k < |toks| then Some(toks[k]) else None);
      SegmentsCode(toks, i, split.0, split.1, k, block);
      ParseConstruct(toks, i, if k < |toks| then k + 1 else k, block, r);
    }
  }

  /** Any other token: its payload verbatim, then the rest. */
  lemma ParsePlain(toks: seq<Token>, i: nat, r: Renderers)
    requires i < |toks| && toks[i].kind != CodeDelim && !Opens(toks, i)
    ensures ParseFrom(toks, i, r) == Prefixed(toks[i].data, ParseFrom(toks, i + 1, r))
  {
    var (c, j) := FirstConstruct(toks, i);
    ParseConstruct(toks, i, j, c, r);
  }

  /** Without a fence and without a matched delimiter, the output is the payloads concatenated. */
  lemma {:induction false} Passthrough(toks: seq<Token>, i: nat, r: Renderers)
    requires i <= |toks|
    requires forall j :: i <= j < |toks| ==> toks[j].kind != CodeDelim && !Opens(toks, j)
    ensures ParseFrom(toks, i, r) == Ok(Concat(toks[i..]))
    decreases |toks| - i
  {
    if i == |toks| {
      assert Segments(toks, i) == Ok([]);
    } else {
      ParsePlain(toks, i, r);
      Passthrough(toks, i + 1, r);
      assert toks[i..][0] == toks[i] && toks[i..][1..] == toks[i + 1..];
    }
  }

  /**
   * The two failures and their causes: reading past the end happens only when
   * the last token is a fence, and the `null` split only at a fence followed
   * by an empty payload.
   */
  lemma {:induction false} ParseErrors(toks: seq<Token>, i: nat, r: Renderers)
    requires i <= |toks|
    ensures ParseFrom(toks, i, r) == Err(ReadPastEnd) ==> toks[|toks| - 1].kind == CodeDelim
    ensures ParseFrom(toks, i, r) == Err(NullLanguageSplit) ==>
              exists j :: i <= j && FailingFence(toks, j) && j + 1 < |toks|
    decreases |toks| - i
  {
    if i == |toks| {
      assert Segments(toks, i) == Ok([]);
    } else if FailingFence(toks, i) {
      if i + 1 < |toks| {
        assert FailingFence(toks, i);
      }
    } else {
      var (c, j) := FirstConstruct(toks, i);
      ParseConstruct(toks, i, j, c, r);
      ParseErrors(toks, j, r);
    }
  }

  /** The first whitespace at or after `from` is the position `k` with none before it and one (or the end) at it. */
  lemma {:induction false} FirstWhitespaceAt(s: string, from: nat, k: nat)
    requires from <= k <= |s|
    requires forall j :: from <= j < k ==> !IsWhitespace(s[j])
    requires k == |s| || IsWhitespace(s[k])
    ensures FirstWhitespace(s, from) == k
    decreases k - from
  {
    if from < k {
      FirstWhitespaceAt(s, from + 1, k);
    }
  }

  /** The language split is determined by its three properties: no whitespace before, whitespace or nothing after. */
  lemma SplitLanguageUnique(language: string, rest: string)
    requires language + rest != ""
    requires forall k :: 0 <= k < |language| ==> !IsWhitespace(language[k])
    requires rest == "" || IsWhitespace(rest[0])
    ensures SplitLanguage(language + rest) == Some((language, rest))
  {
    var text := language + rest;
    FirstWhitespaceAt(text, 0, |language|);
    assert text[..|language|] == language && text[|language|..] == rest;
  }
}
