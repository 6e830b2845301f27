/** The JavaScript string operations the page parser and the calendar reader
    use: `trim`, the garden field's `replace(/\s*\*$/, '')`, and `indexOf`. */
module Text {

  /** ECMAScript WhiteSpace and LineTerminator code points: what `trim` removes
      and what the regular-expression class `\s` matches. */
  const SpaceChars: set<char> := {
    '\t', '\n', '\U{B}', '\U{C}', '\r', ' ', '\U{A0}', '\U{1680}',
    '\U{2000}', '\U{2001}', '\U{2002}', '\U{2003}', '\U{2004}', '\U{2005}',
    '\U{2006}', '\U{2007}', '\U{2008}', '\U{2009}', '\U{200A}',
    '\U{2028}', '\U{2029}', '\U{202F}', '\U{205F}', '\U{3000}', '\U{FEFF}'
  }

  /** The line terminators: the characters a regular-expression `.` does not match. */
  const LineTerminators: set<char> := {'\n', '\r', '\U{2028}', '\U{2029}'}

  predicate IsSpace(c: char) {
    c in SpaceChars
  }

  predicate IsLineTerminator(c: char) {
    c in LineTerminators
  }

  predicate AllSpace(s: string) {
    forall i :: 0 <= i < |s| ==> IsSpace(s[i])
  }

  /** The length of the whitespace run that starts s. */
  function LeadingSpaces(s: string): (n: nat)
    ensures n <= |s| && AllSpace(s[..n])
    ensures n < |s| ==> !IsSpace(s[n])
  {
    if s != [] && IsSpace(s[0]) then 1 + LeadingSpaces(s[1..]) else 0
  }

  /** The length of the whitespace run that ends s. */
  function TrailingSpaces(s: string): (n: nat)
    ensures n <= |s| && AllSpace(s[|s| - n..])
    ensures n < |s| ==> !IsSpace(s[|s| - n - 1])
  {
    if s != [] && IsSpace(s[|s| - 1]) then 1 + TrailingSpaces(s[..|s| - 1]) else 0
  }

  /** Drops the leading whitespace run. */
  function TrimStart(s: string): string {
    s[LeadingSpaces(s)..]
  }

  /** Drops the trailing whitespace run. */
  function TrimEnd(s: string): string {
    s[..|s| - TrailingSpaces(s)]
  }

  /** `s.trim()`. */
  function Trim(s: string): (r: string)
    ensures r == [] || (!IsSpace(r[0]) && !IsSpace(r[|r| - 1]))
  {
    TrimEnd(TrimStart(s))
  }

  /** Trim leaves nothing exactly when the text is whitespace only. */
  lemma TrimEmptyIffBlank(s: string)
    ensures Trim(s) == [] <==> AllSpace(s)
  {
    var t := TrimStart(s);
    assert t == [] ==> s[..|s|] == s;
    if t != [] {
      assert t[0] == s[|s| - |t|];
      assert t[0..] == t;
    }
  }

  /** Trim keeps exactly the middle of s: whitespace is all it removes, and only at the ends. */
  lemma TrimIsMiddle(s: string) returns (i: nat)
    ensures i + |Trim(s)| <= |s| && Trim(s) == s[i..i + |Trim(s)|]
    ensures AllSpace(s[..i]) && AllSpace(s[i + |Trim(s)|..])
  {
    var t := TrimStart(s);
    var r := TrimEnd(t);
    i := |s| - |t|;
    assert s[i + |r|..] == t[|r|..];
  }

  /** Text that has no whitespace at either end is left alone by trim. */
  lemma TrimFixesTrimmed(s: string)
    requires s == [] || (!IsSpace(s[0]) && !IsSpace(s[|s| - 1]))
    ensures Trim(s) == s
  {
  }

  // ---- the garden field's trailing asterisk: s.replace(/\s*\*$/, '') ----

  /** The pattern `\s*\*$` matches s from position p (to its end). */
  predicate StarSuffixAt(s: string, p: nat) {
    p < |s| && s[|s| - 1] == '*' && AllSpace(s[p..|s| - 1])
  }

  /** Removes a final `*` together with the whitespace run just before it. */
  function StripStar(s: string): string {
    if s != [] && s[|s| - 1] == '*' then TrimEnd(s[..|s| - 1]) else s
  }

  /** StripStar is the regular-expression replacement: when `\s*\*$` matches,
      the first (leftmost) match is cut off, and nothing else; otherwise s is unchanged. */
  lemma StripStarCutsFirstMatch(s: string)
    ensures var r := StripStar(s);
      if s != [] && s[|s| - 1] == '*' then
        |r| < |s| && r == s[..|r|] && StarSuffixAt(s, |r|)
        && forall q :: 0 <= q < |r| ==> !StarSuffixAt(s, q)
      else
        r == s && forall q :: 0 <= q <= |s| ==> !StarSuffixAt(s, q)
  {
    var r := StripStar(s);
    if s != [] && s[|s| - 1] == '*' {
      var u := s[..|s| - 1];
      assert r == TrimEnd(u);
      assert s[|r|..|s| - 1] == u[|r|..];
      forall q | 0 <= q < |r|
        ensures !StarSuffixAt(s, q)
      {
        assert s[q..|s| - 1][|r| - 1 - q] == r[|r| - 1];
      }
    }
  }

  /** A text that does not end in `*` passes through unchanged. */
  lemma StripStarWithoutStar(s: string)
    requires s == [] || s[|s| - 1] != '*'
    ensures StripStar(s) == s
  {
  }

  /** Whatever whitespace stands before the final `*`, the text before it comes back,
      so the date text is the same with or without the marker. The replacement is
      done once: t may itself end in `*`, and that one stays. */
  lemma StripStarRecovers(t: string, w: string)
    requires t == [] || !IsSpace(t[|t| - 1])
    requires AllSpace(w)
    ensures StripStar(t + w + "*") == t
  {
    var s := t + w + "*";
    StripStarCutsFirstMatch(s);
    var r := StripStar(s);
    assert s[..|s| - 1] == t + w;
    if |r| > |t| {
      assert StarSuffixAt(s, |t|) by {
        assert s[|t|..|s| - 1] == w;
      }
    }
  }



  // ---- s.indexOf(pat) ----

  predicate OccursAt(s: string, pat: string, i: nat) {
    i + |pat| <= |s| && s[i..i + |pat|] == pat
  }

  /** The first position at or after `from` where pat occurs in s, or -1. */
  function IndexFrom(s: string, pat: string, from: nat): (r: int)
    ensures r == -1 || (from <= r && OccursAt(s, pat, r))
    ensures forall j :: from <= j && (r == -1 || j < r) ==> !OccursAt(s, pat, j)
    decreases |s| - from
  {
    if from + |pat| > |s| then -1
    else if s[from..from + |pat|] == pat then from
    else IndexFrom(s, pat, from + 1)
  }

  /** `s.indexOf(pat)`: the first occurrence of pat in s, or -1 when there is none. */
  function IndexOf(s: string, pat: string): (r: int)
    ensures r == -1 <==> forall j :: !OccursAt(s, pat, j)
    ensures r != -1 ==> 0 <= r && OccursAt(s, pat, r)
  {
    IndexFrom(s, pat, 0)
  }
}
