/**
 * String predicates the script relies on from Python's `str`: suffix and
 * prefix tests, the whitespace class, `strip()` and `lower()`.
 */
module Text {

  predicate StartsWith(s: string, prefix: string)
  {
    |prefix| <= |s| && s[..|prefix|] == prefix
  }

  predicate EndsWith(s: string, suffix: string)
  {
    |suffix| <= |s| && s[|s| - |suffix|..] == suffix
  }

  /** A text ending with `x` agrees with `x` at every position counted from the end. */
  lemma EndsWithAt(s: string, x: string, k: nat)
    requires 0 < k <= |x| && k <= |s|
    ensures EndsWith(s, x) ==> s[|s| - k] == x[|x| - k]
  {
  }

  /**
   * The characters Python's `str.isspace()` accepts, which is also what `\s`
   * matches in a `str` regular expression and what `str.strip()` removes:
   * the ASCII controls tab to carriage return, the separators U+001C-U+001F,
   * space, U+0085, and the Unicode space and line/paragraph separators.
   */
  predicate IsWhitespace(ch: char)
  {
    || ('\t' <= ch <= '\r')
    || ('\U{001C}' <= ch <= '\U{001F}')
    || ch == ' ' || ch == '\U{0085}' || ch == '\U{00A0}' || ch == '\U{1680}'
    || ('\U{2000}' <= ch <= '\U{200A}')
    || ch == '\U{2028}' || ch == '\U{2029}' || ch == '\U{202F}' || ch == '\U{205F}'
    || ch == '\U{3000}'
  }

  predicate IsBlank(s: string)
  {
    forall i :: 0 <= i < |s| ==> IsWhitespace(s[i])
  }

  /** `lstrip()`. */
  function StripLeft(s: string): (r: string)
  {
    if s != [] && IsWhitespace(s[0]) then StripLeft(s[1..]) else s
  }

  /** `rstrip()`. */
  function StripRight(s: string): (r: string)
  {
    if s != [] && IsWhitespace(s[|s| - 1]) then StripRight(s[..|s| - 1]) else s
  }

  function Strip(s: string): (r: string)
  {
    StripRight(StripLeft(s))
  }

  /** `lstrip()` keeps the longest suffix not starting with whitespace; all
      it removes is whitespace. */
  lemma {:induction false} StripLeftShape(s: string)
    ensures var r := StripLeft(s);
      && |r| <= |s| && r == s[|s| - |r|..]
      && (r == [] || !IsWhitespace(r[0]))
      && IsBlank(s[..|s| - |r|])
  {
    if s != [] && IsWhitespace(s[0]) {
      var r := StripLeft(s[1..]);
      StripLeftShape(s[1..]);
      assert s[..|s| - |r|] == [s[0]] + s[1..][..|s[1..]| - |r|];
    }
  }

  /** `rstrip()` keeps the longest prefix not ending with whitespace; all it
      removes is whitespace. */
  lemma {:induction false} StripRightShape(s: string)
    ensures var r := StripRight(s);
      && |r| <= |s| && r == s[..|r|]
      && (r == [] || !IsWhitespace(r[|r| - 1]))
      && IsBlank(s[|r|..])
  {
    if s != [] && IsWhitespace(s[|s| - 1]) {
      var r := StripRight(s[..|s| - 1]);
      StripRightShape(s[..|s| - 1]);
      assert s[|r|..] == s[..|s| - 1][|r|..] + [s[|s| - 1]];
    }
  }

  /** `strip()` yields the empty string exactly on blank input; otherwise its
      result neither starts nor ends with whitespace and is a slice of the
      input with only whitespace around it. */
  lemma StripShape(s: string)
    ensures Strip(s) == "" <==> IsBlank(s)
    ensures Strip(s) != "" ==> !IsWhitespace(Strip(s)[0]) && !IsWhitespace(Strip(s)[|Strip(s)| - 1])
    ensures exists lo :: 0 <= lo <= |s| - |Strip(s)| && Strip(s) == s[lo..lo + |Strip(s)|]
              && IsBlank(s[..lo]) && IsBlank(s[lo + |Strip(s)|..])
  {
    StripSlice(s);
    StripBlank(s);
  }

  /** The stripped text sits at `|s| - |StripLeft(s)|` with whitespace on both sides. */
  lemma StripSlice(s: string)
    ensures var lo := |s| - |StripLeft(s)|;
      && 0 <= lo <= |s| - |Strip(s)| && Strip(s) == s[lo..lo + |Strip(s)|]
      && IsBlank(s[..lo]) && IsBlank(s[lo + |Strip(s)|..])
      && (Strip(s) != "" ==> !IsWhitespace(Strip(s)[0]) && !IsWhitespace(Strip(s)[|Strip(s)| - 1]))
  {
    var l := StripLeft(s);
    var r := StripRight(l);
    StripLeftShape(s);
    StripRightShape(l);
    var lo := |s| - |l|;
    assert r == s[lo..lo + |r|];
    assert s[lo + |r|..] == l[|r|..];
  }

  lemma StripBlank(s: string)
    ensures Strip(s) == "" <==> IsBlank(s)
  {
    var l := StripLeft(s);
    var r := StripRight(l);
    StripLeftShape(s);
    StripRightShape(l);
    var lo := |s| - |l|;
    if r == "" {
      assert l == l[0..];
      assert s == s[..lo] + l;
    } else {
      assert s[lo] == r[0];
    }
  }

  function LowerChar(ch: char): (r: char)
  {
    if 'A' <= ch <= 'Z' then (ch as int + 32) as char else ch
  }

  /** `lower()` restricted to ASCII letters: lengths and every non-letter
      are kept. */
  function Lower(s: string): (r: string)
    ensures |r| == |s|
  {
    seq(|s|, i requires 0 <= i < |s| => LowerChar(s[i]))
  }
}
