/** Token kinds, the delimiter tables and the payload concatenation of a token list. */
module Tokens {
  import opened Wrappers

  /** The closed set of token kinds (`TT`). */
  datatype TokenKind = Text | LatexDelim | CodeDelim

  /** A token: its kind and its payload (`data`). */
  datatype Token = Token(kind: TokenKind, data: string)

  /** The six LaTeX delimiters the scanner recognises. */
  const LatexDelimiters: seq<string> := ["\\(", "\\[", "\\)", "\\]", "$", "$$"]

  /** The fence marker of a code block. */
  const CodeDelimiter: string := "```"

  /** `isLatexDelimiter`: `$`, `$$`, or a backslash before one of `([)]`. */
  function IsLatexDelimiter(s: string): (r: bool)
    ensures r <==> (|s| == 1 && s[0] == '$')
                   || (|s| == 2 && ((s[0] == '\\' && s[1] in "([)]") || (s[0] == '$' && s[1] == '$')))
  {
    assert |s| == 1 ==> s == [s[0]];
    assert |s| == 2 ==> s == [s[0], s[1]];
    s in LatexDelimiters
  }

  /** `isStartOfLatexDelimiter`: a single backslash or `$`, the characters every delimiter starts with. */
  function IsStartOfLatexDelimiter(s: string): (r: bool)
    ensures r <==> |s| == 1 && (s[0] == '\\' || s[0] == '$')
    ensures r <==> |s| == 1 && exists d :: d in LatexDelimiters && d[0] == s[0]
  {
    assert |s| == 1 ==> s == [s[0]];
    assert LatexDelimiters[0][0] == '\\' && LatexDelimiters[4][0] == '$';
    s in ["\\", "$"]
  }

  /** Delimiter membership, character by character. */
  lemma DelimiterChars(a: char, b: char)
    ensures IsStartOfLatexDelimiter([a]) <==> a == '\\' || a == '$'
    ensures IsLatexDelimiter([a]) <==> a == '$'
    ensures IsLatexDelimiter([a, b]) <==>
              (a == '\\' && (b == '(' || b == '[' || b == ')' || b == ']')) || (a == '$' && b == '$')
  {
    assert [a] == "\\" <==> a == '\\';
    assert [a] == "$" <==> a == '$';
    assert [a, b] == "\\(" <==> a == '\\' && b == '(';
    assert [a, b] == "\\[" <==> a == '\\' && b == '[';
    assert [a, b] == "\\)" <==> a == '\\' && b == ')';
    assert [a, b] == "\\]" <==> a == '\\' && b == ']';
    assert [a, b] == "$$" <==> a == '$' && b == '$';
  }

  /**
   * The closing delimiter an opener needs: a delimiter of the same length and
   * first character, and a bracket of the same shape (`\(` to `\)`, `\[` to `\]`).
   * Exactly the openers have one; `\)` and `\]` open nothing.
   */
  function ClosingDelimiter(delim: string): (r: Option<string>)
    ensures r.Some? ==> IsLatexDelimiter(delim) && IsLatexDelimiter(r.value)
                        && |r.value| == |delim| && r.value[0] == delim[0]
    ensures IsLatexDelimiter(delim) ==> (r.Some? <==> delim != "\\)" && delim != "\\]")
    ensures r.Some? && delim[0] == '\\' ==> r.value[1] == (if delim[1] == '(' then ')' else ']')
  {
    if delim == "\\(" then Some("\\)")
    else if delim == "\\[" then Some("\\]")
    else if delim == "$" then Some("$")
    else if delim == "$$" then Some("$$")
    else None
  }

  /** The payloads of `tokens`, concatenated in order. */
  function Concat(tokens: seq<Token>): string
  {
    if tokens == [] then "" else tokens[0].data + Concat(tokens[1..])
  }

  lemma {:induction false} ConcatAppend(a: seq<Token>, b: seq<Token>)
    ensures Concat(a + b) == Concat(a) + Concat(b)
  {
    if a == [] {
      assert a + b == b;
    } else {
      assert (a + b)[1..] == a[1..] + b;
      ConcatAppend(a[1..], b);
    }
  }
}
