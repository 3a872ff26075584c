/** Character classes and small string facts shared by the two regular
    expressions of the commit hook. Characters are Unicode scalar values; every
    character the hook's patterns mention lies in the Basic Multilingual Plane,
    so matching on scalar values agrees with JavaScript's matching on UTF-16
    code units. */
module Text {

  /** ECMAScript's `\s`: the WhiteSpace characters (tab, line tabulation, form
      feed, space, no-break space, zero-width no-break space and the Unicode
      `Zs` category) together with the LineTerminator characters. */
  predicate IsSpace(c: char) {
    || c == '\t' || c == '\n' || c == '\U{0B}' || c == '\U{0C}' || c == '\r'
    || c == ' ' || c == '\U{A0}' || c == '\U{1680}'
    || ('\U{2000}' <= c <= '\U{200A}')
    || c == '\U{2028}' || c == '\U{2029}' || c == '\U{202F}' || c == '\U{205F}'
    || c == '\U{3000}' || c == '\U{FEFF}'
  }

  /** ECMAScript's LineTerminator characters: the places after which a
      multiline `^` may match. */
  predicate IsLineTerminator(c: char) {
    c == '\n' || c == '\r' || c == '\U{2028}' || c == '\U{2029}'
  }

  /** The shell separators of the character class `[;&|]`. */
  predicate IsSeparator(c: char) {
    c == ';' || c == '&' || c == '|'
  }

  /** Every character of `s` is whitespace (`s` matches `\s*`). */
  predicate AllSpace(s: string) {
    forall k :: 0 <= k < |s| ==> IsSpace(s[k])
  }

  /** `p` occurs in `s` starting at index `i`. */
  predicate OccursAt(s: string, i: nat, p: string) {
    i + |p| <= |s| && s[i..i + |p|] == p
  }

  /** `p` is a suffix of `s`. */
  predicate EndsWith(s: string, p: string) {
    |p| <= |s| && s[|s| - |p|..] == p
  }

  /** The end of the longest run of whitespace that starts at `from`: what a
      greedy `\s*` starting there consumes. */
  function SkipSpaces(s: string, from: nat): (r: nat)
    requires from <= |s|
    ensures from <= r <= |s|
    ensures AllSpace(s[from..r])
    ensures r == |s| || !IsSpace(s[r])
    decreases |s| - from
  {
    if from < |s| && IsSpace(s[from]) then SkipSpaces(s, from + 1) else from
  }

  /** A whitespace run that stops at a non-whitespace character is the
      greedy one. */
  lemma {:induction false} SkipSpacesStopsAt(s: string, from: nat, k: nat)
    requires from <= k < |s|
    requires AllSpace(s[from..k]) && !IsSpace(s[k])
    ensures SkipSpaces(s, from) == k
    decreases k - from
  {
    if from < k {
      assert s[from] == s[from..k][0];
      assert s[from + 1..k] == s[from..k][1..];
      SkipSpacesStopsAt(s, from + 1, k);
    }
  }

  /** A text built around `p` contains `p` where it was placed. */
  lemma OccursAtJoin(a: string, p: string, b: string)
    ensures OccursAt(a + p + b, |a|, p)
  {
  }

  /** `b` is a suffix of `a + b`. */
  lemma EndsWithJoin(a: string, b: string)
    ensures EndsWith(a + b, b)
  {
  }

  /** `c` is a suffix of `a + (b + c)`. */
  lemma EndsWithNested(a: string, b: string, c: string)
    ensures EndsWith(a + (b + c), c)
  {
    assert a + (b + c) == (a + b) + c;
    EndsWithJoin(a + b, c);
  }

  /** An occurrence of a non-empty `p` begins with the first character of `p`. */
  lemma OccursAtFirst(s: string, i: nat, p: string)
    ensures OccursAt(s, i, p) && 0 < |p| ==> s[i] == p[0]
  {
  }

  /** A character that does not occur in `s` is at none of its indices. */
  lemma NotAtAnyIndex(s: string, c: char)
    requires c !in s
    ensures forall k :: 0 <= k < |s| ==> s[k] != c
  {
  }
}
