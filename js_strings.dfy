/** The few JavaScript string operations the markup pipeline relies on. */
module JsStrings {
  import opened Wrappers

  /** String concatenation with a possibly-undefined operand: JavaScript turns `undefined` into "undefined". */
  function Show(c: Option<char>): (r: string)
    ensures c.Some? ==> r == [c.value]
    ensures c.None? ==> r == "undefined"
  {
    match c
    case Some(ch) => [ch]
    case None => "undefined"
  }

  /** `s.substring(from, to)`: both ends are clamped to the string and swapped if reversed. */
  function Substring(s: string, from: nat, to: nat): (r: string)
    ensures from <= to <= |s| ==> r == s[from..to]
    ensures from <= |s| <= to ==> r == s[from..]
  {
    var lo := if from <= to then from else to;
    var hi := if from <= to then to else from;
    var a := if lo <= |s| then lo else |s|;
    var b := if hi <= |s| then hi else |s|;
    s[a..b]
  }

  /** The characters `trim()` removes: ECMAScript WhiteSpace and LineTerminator. */
  predicate IsWhitespace(c: char)
  {
    c == '\t' || c == '\n' || c == '\U{000B}' || c == '\U{000C}' || c == '\r' || c == ' '
    || c == '\U{00A0}' || c == '\U{1680}' || ('\U{2000}' <= c <= '\U{200A}')
    || c == '\U{2028}' || c == '\U{2029}' || c == '\U{202F}' || c == '\U{205F}'
    || c == '\U{3000}' || c == '\U{FEFF}'
  }

  /** Leading whitespace removed. */
  function TrimStart(s: string): (r: string)
    ensures |r| <= |s| && r == s[|s| - |r|..]
    ensures forall k :: 0 <= k < |s| - |r| ==> IsWhitespace(s[k])
    ensures r != [] ==> !IsWhitespace(r[0])
  {
    if s != [] && IsWhitespace(s[0]) then TrimStart(s[1..]) else s
  }

  /** Trailing whitespace removed. */
  function TrimEnd(s: string): (r: string)
    ensures |r| <= |s| && r == s[..|r|]
    ensures forall k :: |r| <= k < |s| ==> IsWhitespace(s[k])
    ensures r != [] ==> !IsWhitespace(r[|r| - 1])
  {
    if s != [] && IsWhitespace(s[|s| - 1]) then TrimEnd(s[..|s| - 1]) else s
  }

  /** `s.trim()`: the infix of `s` that neither starts nor ends with whitespace, everything cut off being whitespace. */
  function Trim(s: string): string
  {
    TrimEnd(TrimStart(s))
  }

  lemma TrimSpec(s: string)
    ensures var r := Trim(s);
            (r != [] ==> !IsWhitespace(r[0]) && !IsWhitespace(r[|r| - 1]))
            && exists a :: TrimmedAt(s, r, a)
  {
    var t := TrimStart(s);
    assert TrimmedAt(s, Trim(s), |s| - |t|);
  }

  /** `r` is the part of `s` starting at `a`, and everything around it is whitespace. */
  predicate TrimmedAt(s: string, r: string, a: nat)
  {
    a + |r| <= |s| && r == s[a..a + |r|]
    && (forall k :: 0 <= k < a ==> IsWhitespace(s[k]))
    && (forall k :: a + |r| <= k < |s| ==> IsWhitespace(s[k]))
  }

  /** `fragments.join("")`. */
  function Join(fragments: seq<string>): string
  {
    if fragments == [] then "" else fragments[0] + Join(fragments[1..])
  }

  lemma {:induction false} JoinAppend(a: seq<string>, b: seq<string>)
    ensures Join(a + b) == Join(a) + Join(b)
  {
    if a == [] {
      assert a + b == b;
    } else {
      assert (a + b)[1..] == a[1..] + b;
      JoinAppend(a[1..], b);
    }
  }
}
