/**
 * The scanner: one left-to-right pass over the message that cuts it into
 * text runs, LaTeX delimiters and code fences.
 *
 * `TextEnd`, `ScanStep` and `Tokenize` say, position by position, what the
 * scanner emits; the class `Scanner` is the cursor-and-token-list machine and
 * its methods are proved to follow them.
 */
module Scanning {
  import opened Wrappers
  import opened JsStrings
  import opened Tokens

  /** Three backticks start at `k`. */
  predicate StartsFence(s: string, k: nat)
  {
    k + 2 < |s| && s[k] == '`' && s[k + 1] == '`' && s[k + 2] == '`'
  }

  /** A text run stops at `k`: a `$`, a backslash that begins a delimiter, or a fence. */
  predicate StopsText(s: string, k: nat)
  {
    k < |s| &&
    (s[k] == '$'
     || (s[k] == '\\' && k + 1 < |s| && IsLatexDelimiter([s[k], s[k + 1]]))
     || StartsFence(s, k))
  }

  /** Where a text run that has reached `i` ends: the first stop at or after `i`, else the end of `s`. */
  function TextEnd(s: string, i: nat): (j: nat)
    requires i <= |s|
    ensures i <= j <= |s|
    ensures j < |s| ==> StopsText(s, j)
    ensures forall k :: i <= k < j ==> !StopsText(s, k)
    decreases |s| - i
  {
    if i == |s| || StopsText(s, i) then i else TextEnd(s, i + 1)
  }

  /** What one call of `nextToken` does at position `i`: emit a token and move on, or drop the character. */
  datatype Step = Emit(token: Token, next: nat) | Skip(next: nat)

  /** The tokens a step adds. */
  function Emitted(step: Step): seq<Token>
  {
    match step
    case Emit(t, _) => [t]
    case Skip(_) => []
  }

  /** The three token shapes the scanner can produce. */
  predicate WellShaped(t: Token)
  {
    match t.kind
    case Text => t.data != ""
    case LatexDelim => IsLatexDelimiter(t.data)
    case CodeDelim => t.data == CodeDelimiter
  }

  /**
   * The token that starts at `i`. Each emitted token's payload is exactly the
   * slice of the input it covers; a text run ends at the first stop after its
   * first character (after its first two, for a backslash escape) or at the end; the
   * only character ever dropped is a backtick that does not start a fence.
   */
  function ScanStep(s: string, i: nat): (r: Step)
    requires i < |s|
    ensures i < r.next <= |s|
    ensures r.Emit? ==> r.token.data == s[i..r.next] && WellShaped(r.token)
    ensures r.Emit? && r.token.kind == Text ==> r.next == |s| || StopsText(s, r.next)
    ensures r.Emit? && r.token.kind == Text ==>
              forall k :: (if s[i] == '\\' then i + 2 else i + 1) <= k < r.next ==> !StopsText(s, k)
    ensures r.Emit? && r.token.kind == Text && s[i] == '\\' ==> r.next >= (if i + 2 <= |s| then i + 2 else |s|)
    ensures r.Skip? <==> s[i] == '`' && !StartsFence(s, i)
    ensures r.Skip? ==> r.next == i + 1
  {
    var c := s[i];
    DelimiterChars(c, if i + 1 < |s| then s[i + 1] else c);
    if !IsStartOfLatexDelimiter([c]) && c != '`' then
      var j := TextEnd(s, i + 1);
      Emit(Token(Text, s[i..j]), j)
    else if i + 1 < |s| && IsLatexDelimiter([c, s[i + 1]]) then
      assert s[i..i + 2] == [c, s[i + 1]];
      Emit(Token(LatexDelim, [c, s[i + 1]]), i + 2)
    else if c == '$' then
      assert s[i..i + 1] == [c];
      Emit(Token(LatexDelim, [c]), i + 1)
    else if c == '\\' then
      var j := TextEnd(s, if i + 2 <= |s| then i + 2 else |s|);
      Emit(Token(Text, s[i..j]), j)
    else if StartsFence(s, i) then
      assert s[i..i + 3] == CodeDelimiter;
      Emit(Token(CodeDelim, CodeDelimiter), i + 3)
    else
      Skip(i + 1)
  }

  /** The tokens `scan` produces for the input from position `i` on. */
  function Tokenize(s: string, i: nat): seq<Token>
    requires i <= |s|
    decreases |s| - i
  {
    if i == |s| then [] else
    var step := ScanStep(s, i);
    Emitted(step) + Tokenize(s, step.next)
  }

  /** One more step of the scan loop: the tokens so far plus what remains stay the same. */
  lemma TokenizeStep(s: string, i: nat, before: seq<Token>, after: seq<Token>)
    requires i < |s| && after == before + Emitted(ScanStep(s, i))
    ensures before + Tokenize(s, i) == after + Tokenize(s, ScanStep(s, i).next)
  {
    var step := ScanStep(s, i);
    assert Tokenize(s, i) == Emitted(step) + Tokenize(s, step.next);
    assert before + (Emitted(step) + Tokenize(s, step.next)) == (before + Emitted(step)) + Tokenize(s, step.next);
  }

  /** Delimiter tests on a character and a peeked, possibly undefined, one. */
  lemma ShowDelimiter(a: char, o: Option<char>)
    ensures IsLatexDelimiter([a] + Show(o)) <==> o.Some? && IsLatexDelimiter([a, o.value])
    ensures IsStartOfLatexDelimiter(Show(o)) <==> o.Some? && (o.value == '\\' || o.value == '$')
  {
    if o.Some? {
      assert [a] + Show(o) == [a, o.value];
      DelimiterChars(o.value, a);
    } else {
      assert |[a] + Show(o)| == 10;
    }
  }

  /** The scanner: a cursor over `input` and the tokens emitted so far. */
  class Scanner {
    const input: string
    var start: nat
    var current: nat
    var tokens: seq<Token>

    constructor(input: string)
      ensures this.input == input && start == 0 && current == 0 && tokens == []
    {
      this.input := input;
      start := 0;
      current := 0;
      tokens := [];
    }

    /** The cursor as a position in the input: `advance` may move `current` one past the end. */
    function Cursor(): (p: nat)
      reads this
      ensures p <= |input|
    {
      if current <= |input| then current else |input|
    }

    /** The cursor has reached (or passed) the end of the input. */
    function IsAtEnd(): (r: bool)
      reads this
      ensures r <==> Cursor() == |input|
    {
      current >= |input|
    }

    method Advance() returns (c: Option<char>)
      modifies this`current
      ensures current == old(current) + 1
      ensures c == if old(current) < |input| then Some(input[old(current)]) else None
    {
      current := current + 1;
      c := if current - 1 < |input| then Some(input[current - 1]) else None;
    }

    /** The character `offset` places past the cursor; none (JavaScript's `undefined`) past the end. */
    function Peek(offset: nat): (c: Option<char>)
      reads this
      ensures c.Some? <==> current + offset < |input|
      ensures c.Some? ==> c.value == input[current + offset]
    {
      if current + offset < |input| then Some(input[current + offset]) else None
    }

    method AddToken(kind: TokenKind, data: string)
      modifies this`tokens
      ensures tokens == old(tokens) + [Token(kind, data)]
    {
      tokens := tokens + [Token(kind, data)];
    }

    /** Scans tokens until the input is used up; the result is `Tokenize` of the rest of the input. */
    method Scan() returns (result: seq<Token>)
      modifies this`start, this`current, this`tokens
      ensures result == tokens == old(tokens) + Tokenize(input, old(Cursor()))
      ensures IsAtEnd()
    {
      while !IsAtEnd()
        invariant old(tokens) + Tokenize(input, old(Cursor())) == tokens + Tokenize(input, Cursor())
        decreases |input| - current
      {
        start := current;
        ghost var i, before := current, tokens;
        NextToken();
        TokenizeStep(input, i, before, tokens);
      }
      result := tokens;
    }

    /** Extends the text run that began at `start` up to the next stop, then emits it. */
    method ScanText()
      requires start <= current
      modifies this`current, this`tokens
      ensures current == if old(current) < |input| then TextEnd(input, old(current)) else old(current)
      ensures tokens == old(tokens) + [Token(Text, Substring(input, start, current))]
    {
      while !IsAtEnd()
        invariant old(current) <= current
        invariant current == old(current) || current <= |input|
        invariant tokens == old(tokens)
        invariant forall k :: old(current) <= k < current ==> !StopsText(input, k)
        decreases |input| - current
      {
        var next := Peek(0);
        ShowDelimiter(input[current], next);
        ShowDelimiter(input[current], Peek(1));
        if IsStartOfLatexDelimiter(Show(next)) {
          if Show(next) != "\\" {
            assert StopsText(input, current);
            break;
          }
          if IsLatexDelimiter(Show(next) + Show(Peek(1))) {
            assert StopsText(input, current);
            break;
          }
        }
        if next == Some('`') {
          if Peek(1) == Some('`') && Peek(2) == Some('`') {
            assert StopsText(input, current);
            break;
          }
        }
        assert !StopsText(input, current);
        var _ := Advance();
      }
      AddToken(Text, Substring(input, start, current));
    }

    /** Emits the token that starts at the cursor, or drops a backtick that does not start a fence. */
    method NextToken()
      requires start == current < |input|
      modifies this`current, this`tokens
      ensures current > old(current) && Cursor() == ScanStep(input, old(current)).next
      ensures tokens == old(tokens) + Emitted(ScanStep(input, old(current)))
    {
      ghost var i := current;
      var c := Advance();
      var ch := c.value;
      ShowDelimiter(ch, Peek(0));
      DelimiterChars(ch, ch);
      if !IsStartOfLatexDelimiter([ch]) && ch != '`' {
        ScanText();
        return;
      }
      if IsLatexDelimiter([ch] + Show(Peek(0))) {
        var d := Advance();
        assert [ch] + Show(d) == [ch, input[i + 1]];
        AddToken(LatexDelim, [ch] + Show(d));
      } else if ch == '$' {
        AddToken(LatexDelim, [ch]);
      } else if ch == '\\' {
        var _ := Advance();
        ScanText();
      } else if ch == '`' {
        if Peek(0) == Some('`') && Peek(1) == Some('`') {
          var _ := Advance();
          var _ := Advance();
          AddToken(CodeDelim, "```");
        }
      }
    }
  }
}
