/** Whitespace and trimming of user input, as done by JavaScript's `String.prototype.trim`.

    The exact whitespace set is written out below, but every property of `Trim` is stated
    only in terms of `IsWhitespace`, so the results hold for any choice of that set.
 */
module Text {

  /** The characters `trim` removes: ECMAScript WhiteSpace and LineTerminator code points
      (the space separators are those of Unicode category Zs). */
  predicate IsWhitespace(c: char) {
    || c == '\t' || c == '\n' || c == '\U{000B}' || c == '\U{000C}' || c == '\r'
    || c == ' ' || c == '\U{00A0}' || c == '\U{1680}'
    || ('\U{2000}' <= c <= '\U{200A}')
    || c == '\U{2028}' || c == '\U{2029}' || c == '\U{202F}' || c == '\U{205F}'
    || c == '\U{3000}' || c == '\U{FEFF}'
  }

  /** Every character of `s` is whitespace (vacuously true of the empty string). */
  ghost predicate AllWhitespace(s: string) {
    forall i :: 0 <= i < |s| ==> IsWhitespace(s[i])
  }

  /** `s` has no leading and no trailing whitespace. */
  predicate Trimmed(s: string) {
    s == [] || (!IsWhitespace(s[0]) && !IsWhitespace(s[|s| - 1]))
  }

  /** Number of whitespace characters at the start of `s`. */
  function LeadingSpace(s: string): (n: nat)
    ensures n <= |s|
    ensures AllWhitespace(s[..n])
    ensures n < |s| ==> !IsWhitespace(s[n])
  {
    if |s| == 0 || !IsWhitespace(s[0]) then 0
    else
      var m := LeadingSpace(s[1..]);
      assert s[..m + 1] == [s[0]] + s[1..][..m];
      m + 1
  }

  /** Number of whitespace characters at the end of `s`. */
  function TrailingSpace(s: string): (n: nat)
    ensures n <= |s|
    ensures AllWhitespace(s[|s| - n..])
    ensures n < |s| ==> !IsWhitespace(s[|s| - 1 - n])
  {
    if |s| == 0 || !IsWhitespace(s[|s| - 1]) then 0
    else
      var t := s[..|s| - 1];
      var m := TrailingSpace(t);
      assert s[|s| - (m + 1)..] == t[|t| - m..] + [s[|s| - 1]];
      m + 1
  }

  /** `s` with its leading and trailing whitespace removed: a slice of `s` framed by
      whitespace on both sides, blank exactly when `s` is all whitespace. */
  function Trim(s: string): (r: string)
    ensures Trimmed(r)
    ensures |r| <= |s|
    ensures r == [] <==> AllWhitespace(s)
    ensures var i := LeadingSpace(s); i + |r| <= |s| && IsTrimSlice(s, i, i + |r|) && r == s[i..i + |r|]
  {
    var i := LeadingSpace(s);
    var t := s[i..];
    var j := TrailingSpace(t);
    var r := t[..|t| - j];
    TrimSliceFacts(s, i, j, r);
    r
  }

  /** The slice `Trim` cuts out satisfies its contract. */
  lemma TrimSliceFacts(s: string, i: nat, j: nat, r: string)
    requires i <= |s| && AllWhitespace(s[..i]) && (i < |s| ==> !IsWhitespace(s[i]))
    requires j <= |s| - i && AllWhitespace(s[i..][|s| - i - j..])
    requires j < |s| - i ==> !IsWhitespace(s[i..][|s| - i - 1 - j])
    requires r == s[i..][..|s| - i - j]
    ensures r == s[i..i + |r|]
    ensures IsTrimSlice(s, i, i + |r|)
    ensures r == [] <==> AllWhitespace(s)
  {
    var t := s[i..];
    var k := i + |r|;
    assert r == s[i..k];
    assert t[|t| - j..] == s[k..];
    if r == [] {
      assert s == s[..i] + s[k..];
      AllWhitespaceConcat(s[..i], s[k..]);
    } else {
      assert r[0] == s[i];
      assert r[|r| - 1] == t[|t| - 1 - j];
    }
  }

  lemma AllWhitespaceConcat(a: string, b: string)
    requires AllWhitespace(a) && AllWhitespace(b)
    ensures AllWhitespace(a + b)
  {
    forall k | 0 <= k < |a + b|
      ensures IsWhitespace((a + b)[k])
    {
      if k >= |a| {
        assert (a + b)[k] == b[k - |a|];
      }
    }
  }

  /** `s[i..k]` is what remains of `s` after dropping whitespace-only ends. */
  ghost predicate IsTrimSlice(s: string, i: nat, k: nat)
  {
    && i <= k <= |s|
    && AllWhitespace(s[..i])
    && AllWhitespace(s[k..])
    && Trimmed(s[i..k])
  }

  /** The leading-space count is pinned down by any whitespace prefix followed by
      a non-whitespace character. */
  lemma LeadingSpaceUnique(s: string, i: nat)
    requires i < |s|
    requires AllWhitespace(s[..i]) && !IsWhitespace(s[i])
    ensures LeadingSpace(s) == i
  {
    var n := LeadingSpace(s);
  }

  /** Symmetric to `LeadingSpaceUnique`, for the end of the string. */
  lemma TrailingSpaceUnique(s: string, k: nat)
    requires 0 < k <= |s|
    requires AllWhitespace(s[k..]) && !IsWhitespace(s[k - 1])
    ensures TrailingSpace(s) == |s| - k
  {
    var n := TrailingSpace(s);
  }

  /** `Trim` is the only way to cut `s` into whitespace, a trimmed middle and whitespace:
      any such middle equals `Trim(s)`. */
  lemma {:induction false} TrimUnique(s: string, i: nat, k: nat)
    requires IsTrimSlice(s, i, k)
    ensures Trim(s) == s[i..k]
  {
    if i == k {
      assert s == s[..i] + s[k..];
      assert AllWhitespace(s) by {
        forall j | 0 <= j < |s|
          ensures IsWhitespace(s[j])
        {
          if j < i { assert s[j] == s[..i][j]; } else { assert s[j] == s[k..][j - k]; }
        }
      }
    } else {
      assert s[i] == s[i..k][0];
      LeadingSpaceUnique(s, i);
      var t := s[i..];
      assert t[k - i..] == s[k..];
      assert t[k - i - 1] == s[i..k][k - i - 1];
      TrailingSpaceUnique(t, k - i);
      assert t[..k - i] == s[i..k];
    }
  }

  /** A string without surrounding whitespace is left unchanged by `Trim`. */
  lemma TrimOfTrimmed(s: string)
    requires Trimmed(s)
    ensures Trim(s) == s
  {
    assert s[..0] == [] && s[|s|..] == [] && s[0..|s|] == s;
    TrimUnique(s, 0, |s|);
  }

  /** Trimming twice is the same as trimming once. */
  lemma TrimIdempotent(s: string)
    ensures Trim(Trim(s)) == Trim(s)
  {
    TrimOfTrimmed(Trim(s));
  }
}
