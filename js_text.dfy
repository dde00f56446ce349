/**
 * The JavaScript string built-ins the chat front-end relies on, over `seq<char>`:
 * `s.slice(0, n)`, `s.trim()` and the global replacement of `*` by "".
 */
module JsText {

  /** `s.slice(0, n)` for a non-negative `n`: the first `n` characters, or all of `s`. */
  function Take(s: string, n: nat): (r: string)
    ensures |r| == if n < |s| then n else |s|
    ensures r <= s
  {
    if n < |s| then s[..n] else s
  }

  /**
   * The characters `String.prototype.trim` removes: the ECMAScript WhiteSpace
   * code points (tab, vertical tab, form feed, space, no-break space, the
   * byte-order mark and the Unicode space separators) and the LineTerminator
   * code points (line feed, carriage return, line and paragraph separators).
   */
  predicate IsSpace(c: char) {
    c == '\t' || c == '\n' || c == '\U{000B}' || c == '\U{000C}' || c == '\r'
    || c == ' ' || c == '\U{00A0}' || c == '\U{1680}'
    || ('\U{2000}' <= c <= '\U{200A}')
    || c == '\U{2028}' || c == '\U{2029}' || c == '\U{202F}' || c == '\U{205F}'
    || c == '\U{3000}' || c == '\U{FEFF}'
  }

  predicate AllSpace(s: string) {
    forall i :: 0 <= i < |s| ==> IsSpace(s[i])
  }

  /** The length of the longest all-space prefix of `s`. */
  function LeadingSpace(s: string): (n: nat)
    ensures n <= |s|
    ensures AllSpace(s[..n])
    ensures n < |s| ==> !IsSpace(s[n])
  {
    if s == [] || !IsSpace(s[0]) then 0
    else
      var n := 1 + LeadingSpace(s[1..]);
      assert s[..n] == [s[0]] + s[1..][..n - 1];
      n
  }

  /** The length of the longest all-space suffix of `s`. */
  function TrailingSpace(s: string): (n: nat)
    ensures n <= |s|
    ensures AllSpace(s[|s| - n..])
    ensures n < |s| ==> !IsSpace(s[|s| - n - 1])
  {
    if s == [] || !IsSpace(s[|s| - 1]) then 0
    else
      var n := 1 + TrailingSpace(s[..|s| - 1]);
      assert s[|s| - n..] == s[..|s| - 1][|s| - n..] + [s[|s| - 1]];
      n
  }

  /** A non-space character at `k` bounds the all-space suffix: it ends after `k`. */
  lemma TrailingSpaceStops(s: string, k: nat)
    requires k < |s| && !IsSpace(s[k])
    ensures TrailingSpace(s) < |s| - k
  {
  }

  /** `s.trim()`: the leading and the trailing space characters removed (the lemmas below state what that means). */
  function Trim(s: string): (r: string)
    ensures |r| <= |s|
  {
    var a := LeadingSpace(s);
    if a == |s| then []
    else
      TrailingSpaceStops(s, a);
      s[a..|s| - TrailingSpace(s)]
  }

  /** The result of `trim` is the slice of `s` that starts after the leading spaces. */
  lemma TrimIsSlice(s: string)
    ensures LeadingSpace(s) + |Trim(s)| <= |s|
    ensures Trim(s) == s[LeadingSpace(s)..LeadingSpace(s) + |Trim(s)|]
  {
    var a := LeadingSpace(s);
    if a < |s| {
      TrailingSpaceStops(s, a);
      var b := |s| - TrailingSpace(s);
      assert Trim(s) == s[a..b];
      assert a + |Trim(s)| == b;
    } else {
      assert Trim(s) == [];
    }
  }

  /** What `trim` removes is space on both sides. */
  lemma TrimRemovesOnlySpace(s: string)
    ensures LeadingSpace(s) + |Trim(s)| <= |s|
    ensures AllSpace(s[..LeadingSpace(s)])
    ensures AllSpace(s[LeadingSpace(s) + |Trim(s)|..])
  {
    var a := LeadingSpace(s);
    if a < |s| {
      TrailingSpaceStops(s, a);
      assert a + |Trim(s)| == |s| - TrailingSpace(s);
    }
  }

  /** A non-empty result of `trim` neither starts nor ends with a space character. */
  lemma TrimEdgesAreNotSpace(s: string)
    ensures Trim(s) != [] ==> !IsSpace(Trim(s)[0]) && !IsSpace(Trim(s)[|Trim(s)| - 1])
  {
    var a := LeadingSpace(s);
    if a < |s| {
      TrailingSpaceStops(s, a);
      var b := |s| - TrailingSpace(s);
      assert Trim(s)[0] == s[a] && Trim(s)[|Trim(s)| - 1] == s[b - 1];
    }
  }

  /** `trim` gives the empty string exactly for a blank string. */
  lemma TrimEmptyIffBlank(s: string)
    ensures Trim(s) == [] <==> AllSpace(s)
  {
    var a := LeadingSpace(s);
    if a < |s| {
      TrailingSpaceStops(s, a);
    } else {
      assert s[..a] == s;
    }
  }

  /** `s.replace` of every `*` by "" (a global regular expression): every asterisk removed, everything else kept. */
  function RemoveStars(s: string): (r: string)
    ensures forall i :: 0 <= i < |r| ==> r[i] != '*'
    ensures multiset(r) == multiset(s)['*' := 0]
  {
    if s == [] then []
    else
      assert s == [s[0]] + s[1..];
      (if s[0] == '*' then [] else [s[0]]) + RemoveStars(s[1..])
  }

  /** The replacement works character by character, so it keeps the order of what it keeps. */
  lemma {:induction false} RemoveStarsAppend(a: string, b: string)
    ensures RemoveStars(a + b) == RemoveStars(a) + RemoveStars(b)
  {
    if a == [] {
      assert a + b == b;
    } else {
      assert (a + b)[1..] == a[1..] + b;
      RemoveStarsAppend(a[1..], b);
    }
  }

  /** A string without asterisks is left as it is; in particular the replacement is idempotent. */
  lemma {:induction false} RemoveStarsKeepsStarless(s: string)
    requires forall i :: 0 <= i < |s| ==> s[i] != '*'
    ensures RemoveStars(s) == s
  {
    if s != [] {
      RemoveStarsKeepsStarless(s[1..]);
    }
  }

  lemma RemoveStarsIdempotent(s: string)
    ensures RemoveStars(RemoveStars(s)) == RemoveStars(s)
  {
    RemoveStarsKeepsStarless(RemoveStars(s));
  }
}
