/** The character classes of the .NET base library that the model's string handling uses. */
module Text {
  /**
   * char.IsWhiteSpace: the Unicode space separators (U+0020, U+00A0, U+1680, U+2000 to
   * U+200A, U+202F, U+205F, U+3000), the line and paragraph separators U+2028 and U+2029,
   * and the control characters U+0009 to U+000D and U+0085.
   */
  predicate IsWhiteSpace(c: char) {
    ('\t' <= c <= '\r') || c == ' ' || c == '\U{0085}' || c == '\U{00A0}' || c == '\U{1680}'
    || ('\U{2000}' <= c <= '\U{200A}') || c == '\U{2028}' || c == '\U{2029}'
    || c == '\U{202F}' || c == '\U{205F}' || c == '\U{3000}'
  }

  /** string.IsNullOrWhiteSpace for a string that is not null: empty or white space only. */
  predicate IsNullOrWhiteSpace(s: string) {
    forall i :: 0 <= i < |s| ==> IsWhiteSpace(s[i])
  }

  /** TrimStart: drops the leading characters `white` accepts. */
  function TrimStart(s: string, white: char -> bool): (r: string)
    ensures |r| <= |s| && r == s[|s| - |r|..]
    ensures forall k :: 0 <= k < |s| - |r| ==> white(s[k])
    ensures r != [] ==> !white(r[0])
    decreases |s|
  {
    if s != [] && white(s[0]) then TrimStart(s[1..], white) else s
  }

  /** TrimEnd: drops the trailing characters `white` accepts. */
  function TrimEnd(s: string, white: char -> bool): (r: string)
    ensures |r| <= |s| && r == s[..|r|]
    ensures forall k :: |r| <= k < |s| ==> white(s[k])
    ensures r != [] ==> !white(r[|r| - 1])
    decreases |s|
  {
    if s != [] && white(s[|s| - 1]) then TrimEnd(s[..|s| - 1], white) else s
  }

  /**
   * Trim: the longest slice that neither starts nor ends with a character `white`
   * accepts; String.Trim() with IsWhiteSpace.
   */
  function Trim(s: string, white: char -> bool): (r: string)
    ensures exists i, j :: (0 <= i <= j <= |s| && r == s[i..j] &&
      (forall k :: 0 <= k < i ==> white(s[k])) &&
      (forall k :: j <= k < |s| ==> white(s[k])))
    ensures r != [] ==> !white(r[0]) && !white(r[|r| - 1])
  {
    var front := TrimStart(s, white);
    var r := TrimEnd(front, white);
    var i := |s| - |front|;
    assert r == s[i..i + |r|];
    r
  }

  /** Trim strips exactly the padding around a word that neither starts nor ends with it. */
  lemma {:induction false} TrimPadded(pre: string, w: string, post: string, white: char -> bool)
    requires forall k :: 0 <= k < |pre| ==> white(pre[k])
    requires forall k :: 0 <= k < |post| ==> white(post[k])
    requires w != [] && !white(w[0]) && !white(w[|w| - 1])
    ensures Trim(pre + w + post, white) == w
  {
    assert pre + w + post == pre + (w + post);
    TrimStartPadded(pre, w + post, white);
    TrimEndPadded(w, post, white);
  }

  lemma {:induction false} TrimStartPadded(pre: string, rest: string, white: char -> bool)
    requires forall k :: 0 <= k < |pre| ==> white(pre[k])
    requires rest != [] && !white(rest[0])
    ensures TrimStart(pre + rest, white) == rest
    decreases |pre|
  {
    var s := pre + rest;
    if pre != [] {
      assert s[0] == pre[0] && white(s[0]);
      assert s[1..] == pre[1..] + rest;
      assert TrimStart(s, white) == TrimStart(s[1..], white);
      TrimStartPadded(pre[1..], rest, white);
    } else {
      assert s == rest;
    }
  }

  lemma {:induction false} TrimEndPadded(w: string, post: string, white: char -> bool)
    requires forall k :: 0 <= k < |post| ==> white(post[k])
    requires w != [] && !white(w[|w| - 1])
    ensures TrimEnd(w + post, white) == w
    decreases |post|
  {
    if post != [] {
      var s := w + post;
      assert s[|s| - 1] == post[|post| - 1];
      assert s[..|s| - 1] == w + post[..|post| - 1];
      TrimEndPadded(w, post[..|post| - 1], white);
    } else {
      assert w + post == w;
    }
  }
}
