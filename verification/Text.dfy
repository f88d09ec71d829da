/**
  The JavaScript string operations the backend relies on, over `seq<char>`:
  `includes`, ASCII `toLowerCase`, `trim`, `join`, the first piece of
  `split`, and decimal rendering of a non-negative number.
 */
module Text {

  predicate StartsWith(s: string, prefix: string)
  {
    |prefix| <= |s| && s[..|prefix|] == prefix
  }

  predicate EndsWith(s: string, suffix: string)
  {
    |suffix| <= |s| && s[|s| - |suffix|..] == suffix
  }

  /** `needle` occurs in `hay` starting at index `i`. */
  predicate OccursAt(hay: string, needle: string, i: int)
  {
    0 <= i && i + |needle| <= |hay| && hay[i..i + |needle|] == needle
  }

  /** `String.prototype.includes`: case-sensitive substring search. */
  predicate Contains(hay: string, needle: string)
  {
    exists i | 0 <= i <= |hay| - |needle| :: OccursAt(hay, needle, i)
  }

  lemma OccursAtContains(hay: string, needle: string, i: int)
    requires OccursAt(hay, needle, i)
    ensures Contains(hay, needle)
  {
  }

  /** A string occurs in any text that has it in the middle. */
  lemma ContainsMiddle(before: string, needle: string, after: string)
    ensures Contains(before + needle + after, needle)
  {
    assert (before + needle + after)[|before|..|before| + |needle|] == needle;
    OccursAtContains(before + needle + after, needle, |before|);
  }

  /** A string occurs at the start of any extension of it. */
  lemma ContainsPrefix(a: string, b: string)
    ensures Contains(a + b, a)
  {
    assert (a + b)[..|a|] == a;
    OccursAtContains(a + b, a, 0);
  }

  /** Occurrence is transitive: what occurs in an occurring part occurs in the whole. */
  lemma ContainsTransitive(a: string, b: string, c: string)
    requires Contains(a, b) && Contains(b, c)
    ensures Contains(a, c)
  {
    var i :| 0 <= i <= |a| - |b| && OccursAt(a, b, i);
    var j :| 0 <= j <= |b| - |c| && OccursAt(b, c, j);
    forall k | 0 <= k < |c| ensures a[i + j + k] == c[k] {
      assert a[i..i + |b|][j + k] == b[j + k];
      assert b[j..j + |c|][k] == c[k];
    }
    assert a[i + j..i + j + |c|] == c;
    OccursAtContains(a, c, i + j);
  }

  lemma ContainsExtendRight(a: string, b: string, needle: string)
    requires Contains(a, needle)
    ensures Contains(a + b, needle)
  {
    ContainsInContext("", a, b, needle);
    assert "" + a + b == a + b;
  }

  lemma ContainsSuffix(a: string, b: string)
    ensures Contains(a + b, b)
  {
    ContainsMiddle(a, b, "");
    assert a + b + "" == a + b;
  }

  lemma StartsWithConcat(s: string, more: string)
    ensures StartsWith(s + more, s)
  {
    assert (s + more)[..|s|] == s;
  }

  lemma StartsWithFirst(s: string, prefix: string)
    requires StartsWith(s, prefix) && |prefix| > 0
    ensures s[0] == prefix[0]
  {
    assert s[..|prefix|][0] == s[0];
  }

  lemma StartsWithExtend(s: string, more: string, prefix: string)
    requires StartsWith(s, prefix)
    ensures StartsWith(s + more, prefix)
  {
    assert (s + more)[..|prefix|] == s[..|prefix|];
  }

  lemma EndsWithConcat(s: string, suffix: string)
    ensures EndsWith(s + suffix, suffix)
  {
    assert (s + suffix)[|s|..] == suffix;
  }

  /** What occurs in `middle` occurs in `before + middle + after`. */
  lemma ContainsInContext(before: string, middle: string, after: string, needle: string)
    requires Contains(middle, needle)
    ensures Contains(before + middle + after, needle)
  {
    var i :| 0 <= i <= |middle| - |needle| && OccursAt(middle, needle, i);
    assert (before + middle + after)[|before| + i..|before| + i + |needle|] == middle[i..i + |needle|];
    OccursAtContains(before + middle + after, needle, |before| + i);
  }

  /** A needle containing a character the haystack lacks does not occur in it. */
  lemma AbsentCharExcludes(hay: string, needle: string, c: char)
    requires c in needle && c !in hay
    ensures !Contains(hay, needle)
  {
    var k :| 0 <= k < |needle| && needle[k] == c;
    forall i | 0 <= i ensures !OccursAt(hay, needle, i) {
      if i + |needle| <= |hay| {
        assert hay[i..i + |needle|][k] == hay[i + k];
      }
    }
  }

  /** `s` has the two adjacent characters `x`, `y` at index `i`. */
  predicate PairAt(s: string, x: char, y: char, i: int)
  {
    0 <= i && i + 1 < |s| && s[i] == x && s[i + 1] == y
  }

  ghost predicate HasPair(s: string, x: char, y: char)
  {
    exists i :: PairAt(s, x, y, i)
  }

  /** A needle containing an adjacent pair the haystack lacks does not occur in it. */
  lemma AbsentPairExcludes(hay: string, needle: string, k: nat)
    requires k + 1 < |needle|
    requires !HasPair(hay, needle[k], needle[k + 1])
    ensures !Contains(hay, needle)
  {
    forall i | 0 <= i ensures !OccursAt(hay, needle, i) {
      if i + |needle| <= |hay| {
        assert !PairAt(hay, needle[k], needle[k + 1], i + k);
        assert hay[i..i + |needle|][k] == hay[i + k];
        assert hay[i..i + |needle|][k + 1] == hay[i + k + 1];
      }
    }
  }

  /** A pair absent from both halves and from their seam is absent from the concatenation. */
  lemma PairAbsentFromConcat(a: string, b: string, x: char, y: char)
    requires !HasPair(a, x, y) && !HasPair(b, x, y)
    requires |a| == 0 || |b| == 0 || !(a[|a| - 1] == x && b[0] == y)
    ensures !HasPair(a + b, x, y)
  {
    forall i | 0 <= i ensures !PairAt(a + b, x, y, i) {
      if i + 1 < |a| {
        assert !PairAt(a, x, y, i);
      } else if i >= |a| {
        assert !PairAt(b, x, y, i - |a|);
      }
    }
  }

  /** The ASCII part of `toLowerCase`: `A`..`Z` become `a`..`z`, every other character is kept. */
  function LowerChar(c: char): char
  {
    if 'A' <= c <= 'Z' then (c as int + 32) as char else c
  }

  function Lower(s: string): string
  {
    seq(|s|, i requires 0 <= i < |s| => LowerChar(s[i]))
  }

  /** Lower-casing twice is lower-casing once. */
  lemma LowerIdempotent(s: string)
    ensures Lower(Lower(s)) == Lower(s)
  {
  }

  /** Lower-casing leaves a string without ASCII capitals unchanged. */
  lemma LowerFixesLowercase(s: string)
    requires forall i :: 0 <= i < |s| ==> !('A' <= s[i] <= 'Z')
    ensures Lower(s) == s
  {
  }

  /** The characters `String.prototype.trim` removes: ECMAScript WhiteSpace and LineTerminator. */
  predicate IsWhitespace(c: char)
  {
    || c == ' ' || c == '\t' || c == '\n' || c == '\r'
    || c == '\U{0B}' || c == '\U{0C}' || c == '\U{A0}' || c == '\U{1680}'
    || ('\U{2000}' <= c <= '\U{200A}')
    || c == '\U{2028}' || c == '\U{2029}' || c == '\U{202F}' || c == '\U{205F}'
    || c == '\U{3000}' || c == '\U{FEFF}'
  }

  function TrimStart(s: string): (r: string)
    ensures |r| <= |s| && r == s[|s| - |r|..]
    ensures forall k :: 0 <= k < |s| - |r| ==> IsWhitespace(s[k])
    ensures |r| == 0 || !IsWhitespace(r[0])
  {
    if |s| > 0 && IsWhitespace(s[0]) then TrimStart(s[1..]) else s
  }

  function TrimEnd(s: string): (r: string)
    ensures |r| <= |s| && r == s[..|r|]
    ensures forall k :: |r| <= k < |s| ==> IsWhitespace(s[k])
    ensures |r| == 0 || !IsWhitespace(r[|r| - 1])
  {
    if |s| > 0 && IsWhitespace(s[|s| - 1]) then TrimEnd(s[..|s| - 1]) else s
  }

  /** `r` is what is left of `s` after removing `lo` whitespace characters in front and only whitespace behind. */
  predicate StripsTo(s: string, r: string, lo: int)
  {
    && 0 <= lo <= |s| - |r|
    && r == s[lo..lo + |r|]
    && (forall k :: 0 <= k < lo ==> IsWhitespace(s[k]))
    && (forall k :: lo + |r| <= k < |s| ==> IsWhitespace(s[k]))
  }

  /**
    `String.prototype.trim`: the result is the infix of `s` that remains after
    removing only whitespace from each end, and it neither starts nor ends with
    whitespace.
   */
  function Trim(s: string): (r: string)
    ensures exists lo :: StripsTo(s, r, lo)
    ensures |r| == 0 || (!IsWhitespace(r[0]) && !IsWhitespace(r[|r| - 1]))
  {
    var t := TrimStart(s);
    var r := TrimEnd(t);
    var lo := |s| - |t|;
    assert r == s[lo..lo + |r|];
    assert forall k :: lo + |r| <= k < |s| ==> IsWhitespace(s[k]) by {
      forall k | lo + |r| <= k < |s| ensures IsWhitespace(s[k]) {
        assert s[k] == t[k - lo];
      }
    }
    assert |r| == 0 || !IsWhitespace(r[0]) by {
      if |r| > 0 { assert r[0] == t[0]; }
    }
    assert StripsTo(s, r, lo);
    r
  }

  /** A string with no whitespace at either end is its own trim. */
  lemma TrimKeepsTrimmed(s: string)
    requires |s| == 0 || (!IsWhitespace(s[0]) && !IsWhitespace(s[|s| - 1]))
    ensures Trim(s) == s
  {
  }

  /** Trimming is idempotent. */
  lemma TrimIdempotent(s: string)
    ensures Trim(Trim(s)) == Trim(s)
  {
    TrimKeepsTrimmed(Trim(s));
  }

  /** `Array.prototype.join(sep)` on strings. */
  function Join(sep: string, parts: seq<string>): (r: string)
    ensures |parts| == 1 ==> r == parts[0]
    ensures |parts| == 0 ==> r == ""
  {
    if |parts| == 0 then ""
    else if |parts| == 1 then parts[0]
    else parts[0] + sep + Join(sep, parts[1..])
  }

  /** Every part of a join occurs in the joined string. */
  lemma {:induction false} JoinContainsParts(sep: string, parts: seq<string>, k: nat)
    requires k < |parts|
    ensures Contains(Join(sep, parts), parts[k])
  {
    if |parts| == 1 {
      assert OccursAt(Join(sep, parts), parts[k], 0);
    } else if k == 0 {
      assert OccursAt(Join(sep, parts), parts[0], 0);
    } else {
      JoinContainsParts(sep, parts[1..], k - 1);
      var rest := Join(sep, parts[1..]);
      var i :| 0 <= i <= |rest| - |parts[k]| && OccursAt(rest, parts[k], i);
      var off := |parts[0] + sep|;
      assert Join(sep, parts) == (parts[0] + sep) + rest;
      assert (parts[0] + sep + rest)[off + i..off + i + |parts[k]|] == rest[i..i + |parts[k]|];
      OccursAtContains(Join(sep, parts), parts[k], off + i);
    }
  }

  /** Where part `k` begins in `Join(sep, parts)`: after each earlier part and the separator that follows it. */
  function JoinOffset(sep: string, parts: seq<string>, k: nat): nat
    requires k <= |parts|
  {
    if k == 0 then 0 else |parts[0]| + |sep| + JoinOffset(sep, parts[1..], k - 1)
  }

  /** Consecutive parts start one part and one separator apart. */
  lemma {:induction false} JoinOffsetStep(sep: string, parts: seq<string>, k: nat)
    requires k < |parts|
    ensures JoinOffset(sep, parts, k + 1) == JoinOffset(sep, parts, k) + |parts[k]| + |sep|
  {
    if k > 0 {
      JoinOffsetStep(sep, parts[1..], k - 1);
    }
  }

  /** A join ends with its last part: its length is where that part starts plus the part's length. */
  lemma {:induction false} JoinLength(sep: string, parts: seq<string>)
    ensures |parts| > 0 ==> |Join(sep, parts)| == JoinOffset(sep, parts, |parts| - 1) + |parts[|parts| - 1]|
  {
    if |parts| > 1 {
      JoinLength(sep, parts[1..]);
      assert parts[1..][|parts[1..]| - 1] == parts[|parts| - 1];
    }
  }

  /** An occurrence in `b` is an occurrence in `a + b`, shifted by `|a|`. */
  lemma OccursAtShift(a: string, b: string, needle: string, i: int)
    requires OccursAt(b, needle, i)
    ensures OccursAt(a + b, needle, |a| + i)
  {
    assert (a + b)[|a| + i..|a| + i + |needle|] == b[i..i + |needle|];
  }

  /** An occurrence in `a` is an occurrence in `a + b`. */
  lemma OccursAtExtend(a: string, b: string, needle: string, i: int)
    requires OccursAt(a, needle, i)
    ensures OccursAt(a + b, needle, i)
  {
    assert (a + b)[i..i + |needle|] == a[i..i + |needle|];
  }

  /** `a + b + c` has `a` at its start and `b` right after it. */
  lemma OccursAtFront(a: string, b: string, c: string)
    ensures OccursAt(a + b + c, a, 0)
    ensures OccursAt(a + b + c, b, |a|)
  {
    assert (a + b + c)[..|a|] == a;
    assert (a + b + c)[|a|..|a| + |b|] == b;
  }

  /**
    The join lays the parts out in order: part `k` sits at its offset, and a
    separator follows every part but the last.
   */
  lemma {:induction false} JoinPlacesParts(sep: string, parts: seq<string>, k: nat)
    requires k < |parts|
    ensures OccursAt(Join(sep, parts), parts[k], JoinOffset(sep, parts, k))
    ensures k + 1 < |parts| ==> OccursAt(Join(sep, parts), sep, JoinOffset(sep, parts, k) + |parts[k]|)
  {
    if |parts| == 1 {
      assert Join(sep, parts)[..|parts[0]|] == parts[0];
    } else {
      var rest := Join(sep, parts[1..]);
      assert Join(sep, parts) == parts[0] + sep + rest;
      if k == 0 {
        OccursAtFront(parts[0], sep, rest);
      } else {
        JoinPlacesParts(sep, parts[1..], k - 1);
        var o := JoinOffset(sep, parts[1..], k - 1);
        OccursAtShift(parts[0] + sep, rest, parts[k], o);
        if k + 1 < |parts| {
          OccursAtShift(parts[0] + sep, rest, sep, o + |parts[k]|);
        }
      }
    }
  }

  /**
    `s.split(sep)[0]`: the part of `s` before the first occurrence of `sep`,
    or all of `s` when `sep` does not occur.
   */
  function BeforeFirst(s: string, sep: string): (r: string)
    ensures StartsWith(s, r)
    ensures forall i :: 0 <= i < |r| ==> !OccursAt(s, sep, i)
    ensures |r| == |s| || OccursAt(s, sep, |r|)
    decreases |s|
  {
    if StartsWith(s, sep) then
      assert OccursAt(s, sep, 0);
      ""
    else if |s| == 0 then
      ""
    else
      var rest := BeforeFirst(s[1..], sep);
      var r := [s[0]] + rest;
      forall i | 1 <= i <= |s| ensures OccursAt(s, sep, i) == OccursAt(s[1..], sep, i - 1) {
        OccursAtDropFirst(s, sep, i);
      }
      r
  }

  /** Past the first character, an occurrence in `s` is one in `s[1..]`, one position earlier. */
  lemma OccursAtDropFirst(s: string, sep: string, i: int)
    requires 1 <= i <= |s|
    ensures OccursAt(s, sep, i) == OccursAt(s[1..], sep, i - 1)
  {
    if i + |sep| <= |s| {
      assert s[1..][i - 1..i - 1 + |sep|] == s[i..i + |sep|];
    }
  }

  /** When `sep` does not occur at all, the first piece is the whole string. */
  lemma BeforeFirstWithoutSeparator(s: string, sep: string)
    requires |sep| > 0 && !Contains(s, sep)
    ensures BeforeFirst(s, sep) == s
  {
    var r := BeforeFirst(s, sep);
    if |r| != |s| {
      OccursAtContains(s, sep, |r|);
    }
  }

  function DigitChar(d: nat): (c: char)
    requires d < 10
    ensures '0' <= c <= '9' && c as int - '0' as int == d
  {
    (d + '0' as int) as char
  }

  /** `${n}` for a non-negative integer: its decimal digits, most significant first, no leading zeros. */
  function DecimalString(n: nat): (r: string)
    ensures |r| > 0
    ensures forall i :: 0 <= i < |r| ==> '0' <= r[i] <= '9'
    ensures |r| > 1 ==> r[0] != '0'
    decreases n
  {
    if n < 10 then [DigitChar(n)] else DecimalString(n / 10) + [DigitChar(n % 10)]
  }

  /** The value of a string of decimal digits. */
  function DecimalValue(s: string): nat
    requires forall i :: 0 <= i < |s| ==> '0' <= s[i] <= '9'
  {
    if |s| == 0 then 0 else 10 * DecimalValue(s[..|s| - 1]) + (s[|s| - 1] as int - '0' as int)
  }

  /** Rendering a number and reading it back gives the number: the rendering loses nothing. */
  lemma {:induction false} DecimalRoundTrip(n: nat)
    ensures DecimalValue(DecimalString(n)) == n
    decreases n
  {
    if n >= 10 {
      DecimalRoundTrip(n / 10);
      var r := DecimalString(n);
      assert r[..|r| - 1] == DecimalString(n / 10);
    }
  }
}
