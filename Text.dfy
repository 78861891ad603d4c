/**
 * The string operations the intent extractor relies on: Python's notion of
 * whitespace (`str.isspace`, the `\s` class of `re` on str patterns),
 * `str.lower()` restricted to ASCII, the substring test `w in s`, and
 * `str.strip()`.
 */
module Text {

  /** Python's whitespace: the characters for which `str.isspace()` holds. */
  predicate IsSpace(c: char) {
    var n := c as int;
    n == 0x20 || 0x09 <= n <= 0x0D || 0x1C <= n <= 0x1F || n == 0x85 || n == 0xA0 ||
    n == 0x1680 || 0x2000 <= n <= 0x200A || n == 0x2028 || n == 0x2029 ||
    n == 0x202F || n == 0x205F || n == 0x3000
  }

  predicate IsQuote(c: char) {
    c == '\'' || c == '"'
  }

  predicate IsUpper(c: char) {
    'A' <= c <= 'Z'
  }

  function LowerChar(c: char): (d: char)
    ensures !IsUpper(d)
    ensures IsUpper(c) ==> d as int == c as int + 32
    ensures !IsUpper(c) ==> d == c
  {
    if IsUpper(c) then (c as int + 32) as char else c
  }

  /** `str.lower()` on ASCII letters; every other character is kept. */
  function Lower(s: string): (r: string)
    ensures |r| == |s|
    ensures forall i :: 0 <= i < |s| ==> r[i] == LowerChar(s[i])
  {
    if s == [] then [] else [LowerChar(s[0])] + Lower(s[1..])
  }

  /** Lower-casing leaves no upper-case letter and is idempotent. */
  lemma LowerIsLowerCase(s: string)
    ensures forall i :: 0 <= i < |s| ==> !IsUpper(Lower(s)[i])
    ensures Lower(Lower(s)) == Lower(s)
  {
  }

  /** `w` occurs in `s` at index `i`. */
  predicate StartsAt(s: string, i: nat, w: string) {
    i + |w| <= |s| && s[i..i + |w|] == w
  }

  function ContainsFrom(s: string, w: string, i: nat): (r: bool)
    requires i <= |s|
    decreases |s| - i
    ensures r <==> exists j :: i <= j <= |s| && StartsAt(s, j, w)
  {
    if StartsAt(s, i, w) then true
    else if i == |s| then false
    else ContainsFrom(s, w, i + 1)
  }

  /** Python's substring test `w in s`. */
  function Contains(s: string, w: string): (r: bool)
    ensures r <==> exists j :: 0 <= j <= |s| && StartsAt(s, j, w)
  {
    ContainsFrom(s, w, 0)
  }

  /** An occurrence of a longer word carries an occurrence of each of its sub-words. */
  lemma {:induction false} ContainsInner(s: string, outer: string, offset: nat, inner: string)
    requires offset + |inner| <= |outer| && outer[offset..offset + |inner|] == inner
    requires Contains(s, outer)
    ensures Contains(s, inner)
  {
    var j :| 0 <= j <= |s| && StartsAt(s, j, outer);
    forall k | 0 <= k < |inner|
      ensures s[j + offset + k] == inner[k]
    {
      assert s[j + offset + k] == s[j..j + |outer|][offset + k] == outer[offset + k];
    }
    assert s[j + offset..j + offset + |inner|] == inner;
    assert StartsAt(s, j + offset, inner);
  }

  /** End of the run of whitespace starting at `i`. */
  function SpaceEnd(s: string, i: nat): (e: nat)
    requires i <= |s|
    decreases |s| - i
    ensures i <= e <= |s|
  {
    if i < |s| && IsSpace(s[i]) then SpaceEnd(s, i + 1) else i
  }

  /** `SpaceEnd` stops at the first character that is not whitespace. */
  lemma {:induction false} SpaceEndIsMaximal(s: string, i: nat)
    requires i <= |s|
    decreases |s| - i
    ensures forall k :: i <= k < SpaceEnd(s, i) ==> IsSpace(s[k])
    ensures SpaceEnd(s, i) == |s| || !IsSpace(s[SpaceEnd(s, i)])
  {
    if i < |s| && IsSpace(s[i]) {
      SpaceEndIsMaximal(s, i + 1);
    }
  }

  /** Length of the maximal run of whitespace starting at `i` (what a greedy `\s*` consumes). */
  function SpaceRun(s: string, i: nat): (n: nat)
    requires i <= |s|
    ensures i + n <= |s|
    ensures forall k :: i <= k < i + n ==> IsSpace(s[k])
    ensures i + n == |s| || !IsSpace(s[i + n])
  {
    SpaceEndIsMaximal(s, i);
    SpaceEnd(s, i) - i
  }

  /** Scan for the end of the run of non-whitespace characters starting at `i`. */
  function TokenScan(s: string, i: nat): (e: nat)
    requires i <= |s|
    decreases |s| - i
    ensures i <= e <= |s|
  {
    if i < |s| && !IsSpace(s[i]) then TokenScan(s, i + 1) else i
  }

  /** `TokenScan` stops at the first whitespace character. */
  lemma {:induction false} TokenScanIsMaximal(s: string, i: nat)
    requires i <= |s|
    decreases |s| - i
    ensures forall k :: i <= k < TokenScan(s, i) ==> !IsSpace(s[k])
    ensures TokenScan(s, i) == |s| || IsSpace(s[TokenScan(s, i)])
  {
    if i < |s| && !IsSpace(s[i]) {
      TokenScanIsMaximal(s, i + 1);
    }
  }

  /** End of the run of non-whitespace characters starting at `i`. */
  function TokenEnd(s: string, i: nat): (e: nat)
    requires i <= |s|
    ensures i <= e <= |s|
    ensures forall k :: i <= k < e ==> !IsSpace(s[k])
    ensures e == |s| || IsSpace(s[e])
  {
    TokenScanIsMaximal(s, i);
    TokenScan(s, i)
  }

  /** Scan back for the start of the run of whitespace that ends at `hi`. */
  function SpaceSuffixScan(s: string, hi: nat): (e: nat)
    requires hi <= |s|
    ensures e <= hi
  {
    if hi == 0 || !IsSpace(s[hi - 1]) then hi else SpaceSuffixScan(s, hi - 1)
  }

  /** `SpaceSuffixScan` stops just after the last character that is not whitespace. */
  lemma {:induction false} SpaceSuffixScanIsMaximal(s: string, hi: nat)
    requires hi <= |s|
    ensures forall k :: SpaceSuffixScan(s, hi) <= k < hi ==> IsSpace(s[k])
    ensures SpaceSuffixScan(s, hi) == 0 || !IsSpace(s[SpaceSuffixScan(s, hi) - 1])
  {
    if !(hi == 0 || !IsSpace(s[hi - 1])) {
      SpaceSuffixScanIsMaximal(s, hi - 1);
    }
  }

  /** Start of the run of whitespace that ends at `hi`. */
  function SpaceSuffixStart(s: string, hi: nat): (e: nat)
    requires hi <= |s|
    ensures e <= hi
    ensures forall k :: e <= k < hi ==> IsSpace(s[k])
    ensures e == 0 || !IsSpace(s[e - 1])
  {
    SpaceSuffixScanIsMaximal(s, hi);
    SpaceSuffixScan(s, hi)
  }

  /** Python's `str.strip()`: the slice left after dropping whitespace at both ends. */
  function Strip(s: string): (r: string)
    ensures |r| <= |s|
    ensures r != [] ==> !IsSpace(r[0]) && !IsSpace(r[|r| - 1])
  {
    var i := SpaceRun(s, 0);
    var j := SpaceSuffixStart(s, |s|);
    if j <= i then [] else s[i..j]
  }

  /** What `Strip` drops is whitespace, at the two ends only. */
  lemma StripTrims(s: string)
    ensures exists i, j ::
      (0 <= i <= j <= |s| && Strip(s) == s[i..j] &&
       (forall k :: 0 <= k < i ==> IsSpace(s[k])) &&
       (forall k :: j <= k < |s| ==> IsSpace(s[k])))
  {
    var i := SpaceRun(s, 0);
    var j := SpaceSuffixStart(s, |s|);
    if j <= i {
      assert forall k :: 0 <= k < |s| ==> IsSpace(s[k]);
      assert Strip(s) == s[0..0];
    } else {
      assert Strip(s) == s[i..j];
    }
  }

  /** Stripping a string without whitespace gives it back unchanged. */
  lemma StripNoSpace(s: string)
    requires forall k :: 0 <= k < |s| ==> !IsSpace(s[k])
    ensures Strip(s) == s
  {
    var r := Strip(s);
    StripTrims(s);
    var i, j :| 0 <= i <= j <= |s| && r == s[i..j] &&
      (forall k :: 0 <= k < i ==> IsSpace(s[k])) &&
      (forall k :: j <= k < |s| ==> IsSpace(s[k]));
    if |s| > 0 { assert !IsSpace(s[0]) && !IsSpace(s[|s| - 1]); }
  }

  /** Stripping a string made only of whitespace gives the empty string. */
  lemma StripAllSpace(s: string)
    requires forall k :: 0 <= k < |s| ==> IsSpace(s[k])
    ensures Strip(s) == ""
  {
    StripTrims(s);
  }
}
