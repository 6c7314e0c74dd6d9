/**
 * The Python string primitives the crawler relies on: `s.startswith(p)`,
 * the substring test `needle in hay`, and `s.strip()` with no argument.
 */
module Text {

  /** True of exactly the characters for which Python's `str.isspace()` holds;
      `str.strip()` without an argument removes these and no others. */
  predicate IsSpace(c: char)
  {
    var n := c as int;
    (0x09 <= n <= 0x0D) || (0x1C <= n <= 0x20) || n == 0x85 || n == 0xA0 ||
    n == 0x1680 || (0x2000 <= n <= 0x200A) || n == 0x2028 || n == 0x2029 ||
    n == 0x202F || n == 0x205F || n == 0x3000
  }

  /** Every character of `s` from index `lo` up to (not including) `hi` is whitespace. */
  predicate SpaceBetween(s: string, lo: int, hi: int)
    requires 0 <= lo && hi <= |s|
  {
    forall k | lo <= k < hi :: IsSpace(s[k])
  }

  predicate AllSpace(s: string)
  {
    SpaceBetween(s, 0, |s|)
  }

  /** Neither end of `s` is whitespace. */
  predicate Trimmed(s: string)
  {
    s == [] || (!IsSpace(s[0]) && !IsSpace(s[|s| - 1]))
  }

  /** Python's `s.startswith(p)`. */
  predicate StartsWith(s: string, p: string)
  {
    p <= s
  }

  /** `needle` occurs in `hay` starting at index `i`. */
  ghost predicate OccursAt(hay: string, needle: string, i: int)
  {
    0 <= i && i + |needle| <= |hay| && hay[i..i + |needle|] == needle
  }

  lemma OccursAtStart(hay: string, needle: string)
    ensures OccursAt(hay, needle, 0) <==> StartsWith(hay, needle)
  {
    if StartsWith(hay, needle) {
      assert hay[0..|needle|] == needle;
    }
  }

  /** Dropping the first character of `hay` shifts every occurrence after index 0 down by one. */
  lemma {:induction false} OccursShift(hay: string, needle: string)
    requires |hay| > 0 && !StartsWith(hay, needle)
    ensures (exists i :: OccursAt(hay, needle, i)) <==> (exists j :: OccursAt(hay[1..], needle, j))
  {
    OccursAtStart(hay, needle);
    if i :| OccursAt(hay, needle, i) {
      assert i != 0;
      assert hay[1..][i - 1..i - 1 + |needle|] == hay[i..i + |needle|];
      assert OccursAt(hay[1..], needle, i - 1);
    }
    if j :| OccursAt(hay[1..], needle, j) {
      assert hay[1..][j..j + |needle|] == hay[j + 1..j + 1 + |needle|];
      assert OccursAt(hay, needle, j + 1);
    }
  }

  /** Python's `needle in hay` on two strings: true when `needle` is a
      contiguous substring of `hay` (the empty string is in every string). */
  function Contains(hay: string, needle: string): (r: bool)
    ensures r <==> exists i :: OccursAt(hay, needle, i)
    decreases |hay|
  {
    OccursAtStart(hay, needle);
    if StartsWith(hay, needle) then true
    else if |hay| == 0 then false
    else OccursShift(hay, needle); Contains(hay[1..], needle)
  }

  /** The first index at or after `i` that does not hold whitespace, or |s|:
      the forward scan of `strip()`. */
  function SkipSpaces(s: string, i: nat): (n: nat)
    requires i <= |s|
    ensures i <= n <= |s| && SpaceBetween(s, i, n)
    ensures n < |s| ==> !IsSpace(s[n])
    decreases |s| - i
  {
    if i < |s| && IsSpace(s[i]) then SkipSpaces(s, i + 1) else i
  }

  /** The index after the last non-whitespace character in s[lo..j], or `lo`
      when there is none: the backward scan of `strip()`. */
  function SkipSpacesBack(s: string, lo: nat, j: nat): (n: nat)
    requires lo <= j <= |s|
    ensures lo <= n <= j && SpaceBetween(s, n, j)
    ensures n > lo ==> !IsSpace(s[n - 1])
    decreases j
  {
    if j > lo && IsSpace(s[j - 1]) then SkipSpacesBack(s, lo, j - 1) else j
  }

  /** `r` is what remains of `s` once its leading and trailing whitespace is
      removed: a slice of `s` between two all-whitespace runs whose own ends
      are not whitespace. */
  ghost predicate IsStripOf(s: string, r: string)
  {
    Trimmed(r) &&
    exists i :: 0 <= i && i + |r| <= |s| && SpaceBetween(s, 0, i) && s[i..i + |r|] == r && SpaceBetween(s, i + |r|, |s|)
  }

  /** Python's `s.strip()`: scan forward past the leading whitespace, then
      backward past the trailing whitespace, and keep what lies between. */
  function Strip(s: string): (r: string)
    ensures IsStripOf(s, r)
    ensures |r| <= |s|
    ensures r == [] <==> AllSpace(s)
  {
    var i := SkipSpaces(s, 0);
    var e := SkipSpacesBack(s, i, |s|);
    var r := s[i..e];
    assert r != [] ==> r[0] == s[i] && r[|r| - 1] == s[e - 1];
    assert s[i..i + |r|] == r;
    r
  }

  /** The result of `strip()` is determined by `IsStripOf`: there is only one such slice. */
  lemma StripUnique(s: string, r1: string, r2: string)
    requires IsStripOf(s, r1) && IsStripOf(s, r2)
    ensures r1 == r2
  {
    var i1 :| 0 <= i1 && i1 + |r1| <= |s| && SpaceBetween(s, 0, i1) && s[i1..i1 + |r1|] == r1 && SpaceBetween(s, i1 + |r1|, |s|);
    var i2 :| 0 <= i2 && i2 + |r2| <= |s| && SpaceBetween(s, 0, i2) && s[i2..i2 + |r2|] == r2 && SpaceBetween(s, i2 + |r2|, |s|);
    // A non-empty slice starts and ends with a non-whitespace character of s,
    // and every character of s outside it is whitespace.
    if r1 != [] {
      assert s[i1] == r1[0] && s[i1 + |r1| - 1] == r1[|r1| - 1];
    }
    if r2 != [] {
      assert s[i2] == r2[0] && s[i2 + |r2| - 1] == r2[|r2| - 1];
    }
  }

  /** Stripping twice is stripping once. */
  lemma StripIdempotent(s: string)
    ensures Strip(Strip(s)) == Strip(s)
  {
    var r := Strip(s);
    assert SpaceBetween(r, 0, 0) && r[0..0 + |r|] == r && SpaceBetween(r, 0 + |r|, |r|);
    assert IsStripOf(r, r);
    StripUnique(r, Strip(r), r);
  }
}
