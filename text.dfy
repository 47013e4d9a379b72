/**
 * Whitespace trimming as JavaScript's `String.prototype.trim` performs it.
 * Both the server's validation and the browser's form checks decide
 * "blank" by trimming, so the definition lives here once.
 */
module Text {

  /** The WhiteSpace and LineTerminator code points of ECMAScript. */
  predicate IsWhitespace(c: char) {
    || c == '\t' || c == '\n' || c == '\U{000B}' || c == '\U{000C}' || c == '\r'
    || c == ' ' || c == '\U{00A0}' || c == '\U{1680}'
    || ('\U{2000}' <= c <= '\U{200A}')
    || c == '\U{2028}' || c == '\U{2029}' || c == '\U{202F}' || c == '\U{205F}'
    || c == '\U{3000}' || c == '\U{FEFF}'
  }

  predicate AllWhitespace(s: string) {
    forall i :: 0 <= i < |s| ==> IsWhitespace(s[i])
  }

  /** Drops the leading whitespace: the result is the longest suffix that does not start with whitespace. */
  function TrimStart(s: string): (r: string)
    ensures |r| <= |s| && r == s[|s| - |r|..]
    ensures r == [] || !IsWhitespace(r[0])
    ensures AllWhitespace(s[..|s| - |r|])
  {
    if s != [] && IsWhitespace(s[0]) then TrimStart(s[1..]) else s
  }

  /** Drops the trailing whitespace: the result is the longest prefix that does not end with whitespace. */
  function TrimEnd(s: string): (r: string)
    ensures |r| <= |s| && r == s[..|r|]
    ensures r == [] || !IsWhitespace(r[|r| - 1])
    ensures AllWhitespace(s[|r|..])
  {
    if s != [] && IsWhitespace(s[|s| - 1]) then TrimEnd(s[..|s| - 1]) else s
  }

  /** The number of whitespace characters `Trim` drops at the front. */
  function LeadingWhitespace(s: string): (n: nat)
    ensures n <= |s| && AllWhitespace(s[..n])
    ensures n == |s| || !IsWhitespace(s[n])
  {
    |s| - |TrimStart(s)|
  }

  /** `s.trim()`: the factor of `s` left after dropping whitespace at both ends. */
  function Trim(s: string): (r: string)
    ensures LeadingWhitespace(s) + |r| <= |s|
    ensures r == s[LeadingWhitespace(s)..LeadingWhitespace(s) + |r|]
    ensures AllWhitespace(s[LeadingWhitespace(s) + |r|..])
    ensures r == [] || (!IsWhitespace(r[0]) && !IsWhitespace(r[|r| - 1]))
    ensures r == [] <==> AllWhitespace(s)
  {
    var t := TrimStart(s);
    var r := TrimEnd(t);
    TrimLocated(s, t, r);
    TrimTailWhitespace(s, t, r);
    TrimEmptyWhenBlank(s, t, r);
    r
  }

  /** What `TrimStart` promises of `t` and `TrimEnd` of `r`, with `t` the trimmed start of `s` and `r` the trimmed end of `t`. */
  ghost predicate TrimmedInTurn(s: string, t: string, r: string) {
    && |t| <= |s| && t == s[|s| - |t|..] && AllWhitespace(s[..|s| - |t|]) && (t == [] || !IsWhitespace(t[0]))
    && |r| <= |t| && r == t[..|r|] && AllWhitespace(t[|r|..])
  }

  /** Where the trimmed text sits in `s`. */
  lemma TrimLocated(s: string, t: string, r: string)
    requires TrimmedInTurn(s, t, r)
    ensures |s| - |t| + |r| <= |s| && r == s[|s| - |t|..|s| - |t| + |r|]
    ensures r == [] || !IsWhitespace(r[0])
  {
    assert r != [] ==> r[0] == t[0];
  }

  /** Only whitespace follows the trimmed text. */
  lemma TrimTailWhitespace(s: string, t: string, r: string)
    requires TrimmedInTurn(s, t, r)
    ensures AllWhitespace(s[|s| - |t| + |r|..])
  {
    var tail := s[|s| - |t| + |r|..];
    forall i | 0 <= i < |tail| ensures IsWhitespace(tail[i]) {
      assert tail[i] == t[|r|..][i];
    }
  }

  /** Both trims together drop everything exactly when everything is whitespace. */
  lemma TrimEmptyWhenBlank(s: string, t: string, r: string)
    requires TrimmedInTurn(s, t, r)
    ensures r == [] <==> AllWhitespace(s)
  {
    var n := |s| - |t|;
    if r == [] {
      // `t` is all whitespace yet cannot start with it, so it is empty
      assert t == [];
      assert s[..n] == s;
    } else {
      assert r[0] == t[0] == s[n];
    }
  }

  /** `!s.trim()`: whitespace only (or empty); `BlankIffTrimEmpty` ties it to `Trim`. */
  predicate IsBlank(s: string) {
    AllWhitespace(s)
  }

  /** Blank is exactly "trims to the empty, falsy string". */
  lemma BlankIffTrimEmpty(s: string)
    ensures IsBlank(s) <==> Trim(s) == []
  {
  }
}
