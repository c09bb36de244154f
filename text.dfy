/**
 * The three Python string operations the health assistant relies on:
 * `str.strip()`, `str.lower()` and the substring test `needle in hay`.
 */
module Text {

  /** The characters for which Python's `str.isspace()` holds; `str.strip()` removes exactly these. */
  predicate IsSpace(c: char) {
    || ('\t' <= c <= '\r')
    || ('\U{1c}' <= c <= ' ')
    || c == '\U{85}'
    || c == '\U{a0}'
    || c == '\U{1680}'
    || ('\U{2000}' <= c <= '\U{200a}')
    || c == '\U{2028}'
    || c == '\U{2029}'
    || c == '\U{202f}'
    || c == '\U{205f}'
    || c == '\U{3000}'
  }

  /** Every character of `s` in the index range `[lo, hi)` is whitespace. */
  predicate SpaceRun(s: string, lo: int, hi: int)
    requires 0 <= lo <= hi <= |s|
  {
    forall k :: lo <= k < hi ==> IsSpace(s[k])
  }

  predicate AllSpace(s: string) {
    SpaceRun(s, 0, |s|)
  }

  /** `r` is `s` with a run of whitespace removed from each end. */
  ghost predicate Trimmed(s: string, r: string) {
    exists i, j :: 0 <= i <= j <= |s| && r == s[i..j] && SpaceRun(s, 0, i) && SpaceRun(s, j, |s|)
  }

  /** `r` neither starts nor ends with whitespace. */
  predicate Tight(r: string) {
    r == [] || (!IsSpace(r[0]) && !IsSpace(r[|r| - 1]))
  }

  /** The index of the first non-whitespace character at or after `i` (or `|s|`). */
  function SkipSpaces(s: string, i: nat): (n: nat)
    requires i <= |s|
    ensures i <= n <= |s| && SpaceRun(s, i, n)
    ensures n < |s| ==> !IsSpace(s[n])
    decreases |s| - i
  {
    if i < |s| && IsSpace(s[i]) then SkipSpaces(s, i + 1) else i
  }

  /** The end of `s[lo..hi]` once the whitespace at its end is dropped. */
  function SkipSpacesBack(s: string, lo: nat, hi: nat): (n: nat)
    requires lo <= hi <= |s|
    ensures lo <= n <= hi && SpaceRun(s, n, hi)
    ensures lo < n ==> !IsSpace(s[n - 1])
    decreases hi
  {
    if lo < hi && IsSpace(s[hi - 1]) then SkipSpacesBack(s, lo, hi - 1) else hi
  }

  /** Python's `s.strip()`: leading and trailing whitespace removed. */
  function Strip(s: string): (r: string)
    ensures Trimmed(s, r) && Tight(r)
    ensures r == [] <==> AllSpace(s)
  {
    var i := SkipSpaces(s, 0);
    var j := SkipSpacesBack(s, i, |s|);
    TrimmedBetween(s, i, j);
    s[i..j]
  }

  /** Whitespace on both sides of `s[i..j]`, none at its ends: `s[i..j]` is `s` stripped. */
  lemma TrimmedBetween(s: string, i: int, j: int)
    requires 0 <= i <= j <= |s| && SpaceRun(s, 0, i) && SpaceRun(s, j, |s|)
    requires i < j ==> !IsSpace(s[i]) && !IsSpace(s[j - 1])
    ensures Trimmed(s, s[i..j]) && Tight(s[i..j])
    ensures i == j <==> AllSpace(s)
  {
  }

  /** Text with no whitespace at either end is left alone by stripping. */
  lemma StripTight(s: string)
    requires Tight(s)
    ensures Strip(s) == s
  {
    if s != [] {
      assert SkipSpaces(s, 0) == 0;
      assert SkipSpacesBack(s, 0, |s|) == |s|;
    }
  }

  /** Stripping twice is stripping once. */
  lemma StripIdempotent(s: string)
    ensures Strip(Strip(s)) == Strip(s)
  {
    StripTight(Strip(s));
  }

  /** The stripped text is all whitespace exactly when the original is. */
  lemma StripAllSpaceIff(s: string)
    ensures AllSpace(Strip(s)) <==> AllSpace(s)
  {
    var t := Strip(s);
    if t != [] {
      assert !IsSpace(t[0]);
    }
  }

  predicate IsUpper(c: char) {
    'A' <= c <= 'Z'
  }

  predicate IsLower(c: char) {
    'a' <= c <= 'z'
  }

  function LowerChar(c: char): char {
    if IsUpper(c) then (c as int + 32) as char else c
  }

  /**
   * Python's `s.lower()` restricted to ASCII: A-Z become a-z, every
   * other character is kept.
   */
  function Lower(s: string): (r: string)
    ensures |r| == |s|
    ensures forall i :: 0 <= i < |s| ==> !IsUpper(r[i])
    ensures forall i :: 0 <= i < |s| && !IsUpper(s[i]) ==> r[i] == s[i]
    ensures forall i :: 0 <= i < |s| && IsUpper(s[i]) ==> IsLower(r[i]) && r[i] as int - s[i] as int == 32
  {
    seq(|s|, i requires 0 <= i < |s| => LowerChar(s[i]))
  }

  /** Lower-casing twice is lower-casing once. */
  lemma LowerIdempotent(s: string)
    ensures Lower(Lower(s)) == Lower(s)
  {
  }

  /** `needle` occurs in `hay` starting at index `i`. */
  predicate OccursAt(hay: string, needle: string, i: int) {
    0 <= i && i + |needle| <= |hay| && hay[i..i + |needle|] == needle
  }

  /** Python's `needle in hay`: scan `hay` for a position where `needle` is a prefix. */
  predicate Contains(hay: string, needle: string)
    decreases |hay|
  {
    needle <= hay || (hay != [] && Contains(hay[1..], needle))
  }

  /** An occurrence at any index makes the substring test succeed. */
  lemma {:induction false} ContainsAt(hay: string, needle: string, i: int)
    requires OccursAt(hay, needle, i)
    ensures Contains(hay, needle)
  {
    if i > 0 {
      assert hay[1..][i - 1..i - 1 + |needle|] == hay[i..i + |needle|];
      ContainsAt(hay[1..], needle, i - 1);
    }
  }

  /** A successful substring test has a witness index. */
  lemma {:induction false} ContainsWitness(hay: string, needle: string) returns (i: int)
    requires Contains(hay, needle)
    ensures OccursAt(hay, needle, i)
    decreases |hay|
  {
    if needle <= hay {
      i := 0;
    } else {
      var k := ContainsWitness(hay[1..], needle);
      assert hay[1..][k..k + |needle|] == hay[k + 1..k + 1 + |needle|];
      i := k + 1;
    }
  }

  /** The substring test holds exactly when there is an occurrence. */
  lemma ContainsIff(hay: string, needle: string)
    ensures Contains(hay, needle) <==> exists i :: OccursAt(hay, needle, i)
  {
    if Contains(hay, needle) {
      var i := ContainsWitness(hay, needle);
    }
    if exists i :: OccursAt(hay, needle, i) {
      var i :| OccursAt(hay, needle, i);
      ContainsAt(hay, needle, i);
    }
  }

  /** A needle holding a character absent from `hay` is not a substring of it. */
  lemma NotContainsByChar(hay: string, needle: string, k: nat)
    requires k < |needle| && forall i :: 0 <= i < |hay| ==> hay[i] != needle[k]
    ensures !Contains(hay, needle)
  {
    if Contains(hay, needle) {
      var j := CharOfContained(hay, needle, k);
    }
  }

  /** Every character of a contained needle appears somewhere in `hay`. */
  lemma CharOfContained(hay: string, needle: string, k: nat) returns (j: nat)
    requires Contains(hay, needle) && k < |needle|
    ensures j < |hay| && hay[j] == needle[k]
  {
    var i := ContainsWitness(hay, needle);
    assert hay[i..i + |needle|][k] == needle[k];
    j := i + k;
  }

  /** Python's `any(t in hay for t in needles)`, tried front to back. */
  predicate AnyOccurs(hay: string, needles: seq<string>) {
    needles != [] && (Contains(hay, needles[0]) || AnyOccurs(hay, needles[1..]))
  }

  /** The scan succeeds exactly when some needle of the list is a substring. */
  lemma {:induction false} AnyOccursIff(hay: string, needles: seq<string>)
    ensures AnyOccurs(hay, needles) <==> exists t :: t in needles && Contains(hay, t)
  {
    if needles != [] {
      AnyOccursIff(hay, needles[1..]);
      if exists t :: t in needles && Contains(hay, t) {
        var t :| t in needles && Contains(hay, t);
        if t != needles[0] {
          assert t in needles[1..];
        }
      }
      if exists t :: t in needles[1..] && Contains(hay, t) {
        var t :| t in needles[1..] && Contains(hay, t);
        assert t in needles;
      }
    }
  }

  /** Two texts that agree on every needle agree on the scan. */
  lemma AnyOccursAgree(hay1: string, hay2: string, needles: seq<string>)
    requires forall t :: t in needles ==> (Contains(hay1, t) <==> Contains(hay2, t))
    ensures AnyOccurs(hay1, needles) <==> AnyOccurs(hay2, needles)
  {
    AnyOccursIff(hay1, needles);
    AnyOccursIff(hay2, needles);
  }

  /** Being a substring is transitive. */
  lemma ContainsTransitive(a: string, b: string, c: string)
    requires Contains(a, b) && Contains(b, c)
    ensures Contains(a, c)
  {
    var i := ContainsWitness(a, b);
    var j := ContainsWitness(b, c);
    forall k | 0 <= k < |c| ensures a[i + j + k] == c[k] {
      assert a[i + j + k] == a[i..i + |b|][j + k];
      assert b[j + k] == b[j..j + |c|][k];
    }
    assert a[i + j..i + j + |c|] == c;
    ContainsAt(a, c, i + j);
  }

  predicate IsAsciiLetter(c: char) {
    IsUpper(c) || IsLower(c)
  }

  predicate NoAsciiLetter(s: string) {
    forall i :: 0 <= i < |s| ==> !IsAsciiLetter(s[i])
  }

  /**
   * For a needle without ASCII letters (Devanagari text, spaces) the
   * substring test gives the same answer on the lower-cased text as on
   * the original.
   */
  lemma ContainsLowerIff(hay: string, needle: string)
    requires NoAsciiLetter(needle)
    ensures Contains(Lower(hay), needle) <==> Contains(hay, needle)
  {
    var low := Lower(hay);
    forall i | 0 <= i && i + |needle| <= |hay|
      ensures OccursAt(low, needle, i) <==> OccursAt(hay, needle, i)
    {
      if OccursAt(low, needle, i) {
        forall k | 0 <= k < |needle| ensures hay[i + k] == needle[k] {
          assert low[i + k] == low[i..i + |needle|][k];
        }
        assert hay[i..i + |needle|] == needle;
      }
      if OccursAt(hay, needle, i) {
        forall k | 0 <= k < |needle| ensures low[i + k] == needle[k] {
          assert hay[i + k] == hay[i..i + |needle|][k];
        }
        assert low[i..i + |needle|] == needle;
      }
    }
    ContainsIff(low, needle);
    ContainsIff(hay, needle);
  }

  /**
   * Padding `hay[i..j]` with whitespace on both sides does not change
   * whether a needle that is non-empty and has no whitespace at its
   * ends occurs in it.
   */
  lemma ContainsInner(hay: string, i: int, j: int, needle: string)
    requires 0 <= i <= j <= |hay| && SpaceRun(hay, 0, i) && SpaceRun(hay, j, |hay|)
    requires needle != [] && Tight(needle)
    ensures Contains(hay[i..j], needle) <==> Contains(hay, needle)
  {
    if Contains(hay, needle) {
      var p := ContainsWitness(hay, needle);
      OccurrenceInside(hay, i, j, needle, p);
      ContainsInSlice(hay, i, j, needle, p);
    }
    if Contains(hay[i..j], needle) {
      ContainsFromSlice(hay, i, j, needle);
    }
  }

  /** An occurrence lying within `hay[i..j]` is found in that slice. */
  lemma ContainsInSlice(hay: string, i: int, j: int, needle: string, p: int)
    requires 0 <= i <= p && p + |needle| <= j <= |hay| && OccursAt(hay, needle, p)
    ensures Contains(hay[i..j], needle)
  {
    var n := |needle|;
    var slice := hay[i..j];
    forall m | 0 <= m < n ensures slice[p - i + m] == needle[m] {
      assert hay[p + m] == hay[p..p + n][m];
    }
    assert slice[p - i..p - i + n] == needle;
    ContainsAt(slice, needle, p - i);
  }

  /** What occurs in a slice occurs in the whole. */
  lemma ContainsFromSlice(hay: string, i: int, j: int, needle: string)
    requires 0 <= i <= j <= |hay| && Contains(hay[i..j], needle)
    ensures Contains(hay, needle)
  {
    var n := |needle|;
    var slice := hay[i..j];
    var p := ContainsWitness(slice, needle);
    forall m | 0 <= m < n ensures hay[i + p + m] == needle[m] {
      assert slice[p + m] == slice[p..p + n][m];
    }
    assert hay[i + p..i + p + n] == needle;
    ContainsAt(hay, needle, i + p);
  }

  /** An occurrence of such a needle cannot overlap the whitespace padding. */
  lemma OccurrenceInside(hay: string, i: int, j: int, needle: string, p: int)
    requires 0 <= i <= j <= |hay| && SpaceRun(hay, 0, i) && SpaceRun(hay, j, |hay|)
    requires needle != [] && Tight(needle) && OccursAt(hay, needle, p)
    ensures i <= p && p + |needle| <= j
  {
    var n := |needle|;
    assert hay[p] == hay[p..p + n][0];
    assert hay[p + n - 1] == hay[p..p + n][n - 1];
  }

  /** Lower-casing keeps whitespace where it is. */
  lemma LowerKeepsSpaceRun(s: string, lo: int, hi: int)
    requires 0 <= lo <= hi <= |s| && SpaceRun(s, lo, hi)
    ensures SpaceRun(Lower(s), lo, hi)
  {
    forall k | lo <= k < hi ensures IsSpace(Lower(s)[k]) {
      assert IsSpace(s[k]);
    }
  }

  /** Lower-casing a slice is slicing the lower-cased text. */
  lemma LowerSlice(s: string, i: int, j: int)
    requires 0 <= i <= j <= |s|
    ensures Lower(s[i..j]) == Lower(s)[i..j]
  {
  }
}
