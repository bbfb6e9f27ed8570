/**
 * What the scanner guarantees about the tokens it produces: their shapes,
 * that concatenating them gives back the input except for dropped lone
 * backticks, and how `$`, `$$` and backslashes are cut.
 */
module ScanningProperties {
  import opened Tokens
  import opened Scanning

  /** `s` with the characters whose mask bit is false removed. */
  function Erase(s: string, keep: seq<bool>): (r: string)
    requires |keep| == |s|
    ensures |r| <= |s|
  {
    if s == [] then [] else (if keep[0] then [s[0]] else []) + Erase(s[1..], keep[1..])
  }

  /** For each input position from `i` on, whether the scanner keeps it in some token's payload. */
  function KeepMask(s: string, i: nat): (keep: seq<bool>)
    requires i <= |s|
    ensures |keep| == |s| - i
    decreases |s| - i
  {
    if i == |s| then [] else
    match ScanStep(s, i)
    case Emit(_, n) => seq(n - i, _ => true) + KeepMask(s, n)
    case Skip(n) => [false] + KeepMask(s, n)
  }

  /** `d` is a contiguous piece of `s`. */
  predicate IsSlice(d: string, s: string)
  {
    exists a, b :: 0 <= a <= b <= |s| && d == s[a..b]
  }

  lemma {:induction false} EraseAppend(s: string, t: string, m: seq<bool>, n: seq<bool>)
    requires |m| == |s| && |n| == |t|
    ensures Erase(s + t, m + n) == Erase(s, m) + Erase(t, n)
  {
    if s == [] {
      assert s + t == t && m + n == n;
      assert Erase(s, m) == [];
    } else {
      var st, mn := s + t, m + n;
      assert st[0] == s[0] && mn[0] == m[0];
      assert st[1..] == s[1..] + t && mn[1..] == m[1..] + n;
      var head := if m[0] then [s[0]] else [];
      assert Erase(st, mn) == head + Erase(s[1..] + t, m[1..] + n);
      EraseAppend(s[1..], t, m[1..], n);
      assert head + (Erase(s[1..], m[1..]) + Erase(t, n)) == (head + Erase(s[1..], m[1..])) + Erase(t, n);
    }
  }

  lemma {:induction false} EraseKeepAll(s: string, m: seq<bool>)
    requires |m| == |s| && forall k :: 0 <= k < |m| ==> m[k]
    ensures Erase(s, m) == s
  {
    if s != [] {
      EraseKeepAll(s[1..], m[1..]);
    }
  }

  /**
   * Losslessness: the payloads, concatenated in order, are the input with
   * exactly the positions `KeepMask` marks as dropped removed.
   */
  lemma {:induction false} Lossless(s: string, i: nat)
    requires i <= |s|
    ensures Concat(Tokenize(s, i)) == Erase(s[i..], KeepMask(s, i))
    decreases |s| - i
  {
    if i < |s| {
      var step := ScanStep(s, i);
      var n := step.next;
      var mask := if step.Emit? then seq(n - i, _ => true) else [false];
      assert Tokenize(s, i) == Emitted(step) + Tokenize(s, n);
      assert KeepMask(s, i) == mask + KeepMask(s, n);
      assert s[i..] == s[i..n] + s[n..];
      Lossless(s, n);
      ConcatAppend(Emitted(step), Tokenize(s, n));
      EraseAppend(s[i..n], s[n..], mask, KeepMask(s, n));
      if step.Emit? {
        EraseKeepAll(s[i..n], mask);
        assert Concat([step.token]) == step.token.data == s[i..n];
      } else {
        assert Erase(s[i..n], mask) == [] == Concat([]);
      }
    }
  }

  /** The only characters the scanner drops are token-initial backticks that do not start a fence. */
  lemma {:induction false} DroppedAreLoneBackticks(s: string, i: nat)
    requires i <= |s|
    ensures forall k :: 0 <= k < |s| - i && !KeepMask(s, i)[k] ==> s[i + k] == '`' && !StartsFence(s, i + k)
    decreases |s| - i
  {
    if i < |s| {
      var n := ScanStep(s, i).next;
      DroppedAreLoneBackticks(s, n);
      forall k | 0 <= k < |s| - i && !KeepMask(s, i)[k]
        ensures s[i + k] == '`' && !StartsFence(s, i + k)
      {
        if k >= n - i {
          assert KeepMask(s, i)[k] == KeepMask(s, n)[k - (n - i)];
        }
      }
    }
  }

  /** Without a backtick in the input, concatenating the payloads gives the input back exactly. */
  lemma LosslessWithoutBackticks(s: string)
    requires forall k :: 0 <= k < |s| ==> s[k] != '`'
    ensures Concat(Tokenize(s, 0)) == s
  {
    Lossless(s, 0);
    DroppedAreLoneBackticks(s, 0);
    EraseKeepAll(s, KeepMask(s, 0));
    assert s[0..] == s;
  }

  /** Every token is one of the three shapes, and its payload is a piece of the input. */
  lemma {:induction false} TokenShapes(s: string, i: nat)
    requires i <= |s|
    ensures forall t :: t in Tokenize(s, i) ==> WellShaped(t) && IsSlice(t.data, s)
    decreases |s| - i
  {
    if i < |s| {
      var step := ScanStep(s, i);
      TokenShapes(s, step.next);
      if step.Emit? {
        assert IsSlice(step.token.data, s) by {
          assert step.token.data == s[i..step.next];
        }
      }
    }
  }

  /** `$$` is one delimiter, never two `$` tokens. */
  lemma DoubleDollar(s: string, i: nat)
    requires i + 1 < |s| && s[i] == '$' && s[i + 1] == '$'
    ensures ScanStep(s, i) == Emit(Token(LatexDelim, "$$"), i + 2)
  {
    DelimiterChars(s[i], s[i + 1]);
  }

  /** A `$` not followed by another `$`, also at the end of the input, is a one-character delimiter. */
  lemma LoneDollar(s: string, i: nat)
    requires i < |s| && s[i] == '$' && (i + 1 == |s| || s[i + 1] != '$')
    ensures ScanStep(s, i) == Emit(Token(LatexDelim, "$"), i + 1)
  {
    DelimiterChars(s[i], if i + 1 < |s| then s[i + 1] else s[i]);
  }

  /** `\(`, `\[`, `\)` and `\]` are delimiters. */
  lemma BackslashDelimiter(s: string, i: nat)
    requires i + 1 < |s| && s[i] == '\\' && s[i + 1] in "([)]"
    ensures ScanStep(s, i) == Emit(Token(LatexDelim, s[i..i + 2]), i + 2)
  {
    DelimiterChars(s[i], s[i + 1]);
  }

  /**
   * Any other token-initial backslash is escaped: it opens a text token that
   * also holds the character after it, even a `$`, a backslash or a backtick.
   */
  lemma BackslashEscape(s: string, i: nat)
    requires i < |s| && s[i] == '\\' && !(i + 1 < |s| && s[i + 1] in "([)]")
    ensures var step := ScanStep(s, i);
            step.Emit? && step.token.kind == Text
            && step.token.data[..if i + 2 <= |s| then 2 else 1] == s[i..if i + 2 <= |s| then i + 2 else i + 1]
  {
    DelimiterChars(s[i], if i + 1 < |s| then s[i + 1] else s[i]);
  }

  /** A token-initial backtick that does not start a fence is dropped; one that does yields a fence token. */
  lemma Backtick(s: string, i: nat)
    requires i < |s| && s[i] == '`'
    ensures StartsFence(s, i) ==> ScanStep(s, i) == Emit(Token(CodeDelim, "```"), i + 3)
    ensures !StartsFence(s, i) ==> ScanStep(s, i) == Skip(i + 1)
  {
    DelimiterChars(s[i], if i + 1 < |s| then s[i + 1] else s[i]);
  }
}
