/**
 * The string operations the bot applies to chat ids and message bodies:
 * `String.prototype.trim`, `toLowerCase`, `includes`, `endsWith` and the
 * digit filter `replace(/[^0-9]/g, '')`.
 */
module Text {

  /** The code points `trim` removes: JavaScript's WhiteSpace and LineTerminator. */
  predicate IsJsWhitespace(c: char) {
    var n := c as int;
    n == 0x09 || n == 0x0A || n == 0x0B || n == 0x0C || n == 0x0D || n == 0x20
    || n == 0xA0 || n == 0x1680 || (0x2000 <= n <= 0x200A) || n == 0x2028
    || n == 0x2029 || n == 0x202F || n == 0x205F || n == 0x3000 || n == 0xFEFF
  }

  predicate AllWhitespace(s: string) {
    forall i :: 0 <= i < |s| ==> IsJsWhitespace(s[i])
  }

  /** The index of the first non-whitespace character at or after `i`, or `|s|` if there is none. */
  function SkipSpace(s: string, i: nat): (n: nat)
    requires i <= |s|
    ensures i <= n <= |s|
    ensures forall k :: i <= k < n ==> IsJsWhitespace(s[k])
    ensures n < |s| ==> !IsJsWhitespace(s[n])
    decreases |s| - i
  {
    if i < |s| && IsJsWhitespace(s[i]) then SkipSpace(s, i + 1) else i
  }

  /** The index just after the last non-whitespace character before `j`, not going below `lo`. */
  function SkipSpaceBack(s: string, lo: nat, j: nat): (n: nat)
    requires lo <= j <= |s|
    ensures lo <= n <= j
    ensures forall k :: n <= k < j ==> IsJsWhitespace(s[k])
    ensures lo < n ==> !IsJsWhitespace(s[n - 1])
    decreases j
  {
    if lo < j && IsJsWhitespace(s[j - 1]) then SkipSpaceBack(s, lo, j - 1) else j
  }

  /** JavaScript's `s.trim()`: what lies between the leading and the trailing whitespace. */
  function Trim(s: string): string {
    var lo := SkipSpace(s, 0);
    s[lo..SkipSpaceBack(s, lo, |s|)]
  }

  /** The trimmed string is what is left between an all-whitespace prefix and suffix. */
  lemma TrimSplits(s: string) returns (a: string, b: string)
    ensures s == a + Trim(s) + b
    ensures AllWhitespace(a) && AllWhitespace(b)
    ensures Trim(s) != [] ==> !IsJsWhitespace(Trim(s)[0]) && !IsJsWhitespace(Trim(s)[|Trim(s)| - 1])
  {
    var lo := SkipSpace(s, 0);
    var hi := SkipSpaceBack(s, lo, |s|);
    var r := s[lo..hi];
    assert Trim(s) == r;
    a, b := s[..lo], s[hi..];
    Split3(s, lo, hi);
    SliceWhitespace(s, 0, lo);
    assert a == s[0..lo];
    SliceWhitespace(s, hi, |s|);
    assert b == s[hi..|s|];
    if lo < hi {
      SliceEnds(s, lo, hi);
    }
  }

  lemma SliceWhitespace(s: string, i: nat, j: nat)
    requires i <= j <= |s|
    requires forall k :: i <= k < j ==> IsJsWhitespace(s[k])
    ensures AllWhitespace(s[i..j])
  {
    assert forall k :: 0 <= k < j - i ==> s[i..j][k] == s[i + k];
  }

  lemma SliceEnds(s: string, i: nat, j: nat)
    requires i < j <= |s|
    ensures s[i..j][0] == s[i] && s[i..j][j - i - 1] == s[j - 1]
  {
  }

  /**
   * `Trim` is the only way to cut a string into whitespace, a core that neither
   * starts nor ends with whitespace, and whitespace.
   */
  /** A string with no whitespace at either end is already trimmed. */
  lemma TrimFixesTrimmed(t: string)
    requires t != [] ==> !IsJsWhitespace(t[0]) && !IsJsWhitespace(t[|t| - 1])
    ensures Trim(t) == t
  {
    assert SkipSpace(t, 0) == 0;
    assert t[0..|t|] == t;
  }

  lemma TrimUnique(a: string, r: string, b: string)
    requires AllWhitespace(a) && AllWhitespace(b)
    requires r != [] ==> !IsJsWhitespace(r[0]) && !IsJsWhitespace(r[|r| - 1])
    ensures Trim(a + r + b) == r
  {
    var s := a + r + b;
    assert forall k :: 0 <= k < |a| ==> s[k] == a[k];
    assert forall k :: |a| + |r| <= k < |s| ==> s[k] == b[k - |a| - |r|];
    var lo := SkipSpace(s, 0);
    if r == [] {
      assert lo == |s|;
    } else {
      assert s[|a|] == r[0];
      assert lo == |a|;
      assert s[|a| + |r| - 1] == r[|r| - 1];
      assert SkipSpaceBack(s, lo, |s|) == |a| + |r|;
      assert s[|a|..|a| + |r|] == r;
    }
  }

  lemma AllWhitespaceAppend(x: string, y: string)
    requires AllWhitespace(x) && AllWhitespace(y)
    ensures AllWhitespace(x + y)
  {
    forall i | 0 <= i < |x + y|
      ensures IsJsWhitespace((x + y)[i])
    {
      if i < |x| {
        assert (x + y)[i] == x[i];
      } else {
        assert (x + y)[i] == y[i - |x|];
      }
    }
  }

  lemma Regroup(w: string, a: string, r: string, b: string, x: string)
    ensures w + (a + r + b) + x == (w + a) + r + (b + x)
  {
  }

  lemma Split3(r: string, i: nat, j: nat)
    requires i <= j <= |r|
    ensures r == r[..i] + r[i..j] + r[j..]
  {
  }

  /** Lower-casing a string lower-cases each of its slices. */
  lemma LowerSlice(r: string, i: nat, j: nat)
    requires i <= j <= |r|
    ensures Lower(r)[i..j] == Lower(r[i..j])
  {
    assert forall n :: 0 <= n < j - i ==> Lower(r)[i..j][n] == Lower(r[i..j])[n];
  }

  lemma SliceOfSlice(s: string, x: nat, y: nat, i: nat, j: nat)
    requires x <= y <= |s| && i <= j <= y - x
    ensures s[x..y][i..j] == s[x + i..x + j]
  {
    assert forall n :: 0 <= n < j - i ==> s[x..y][i..j][n] == s[x + i..x + j][n];
  }

  /** Whitespace around a string does not change its trimmed form. */
  lemma TrimIgnoresSurroundingSpace(before: string, s: string, after: string)
    requires AllWhitespace(before) && AllWhitespace(after)
    ensures Trim(before + s + after) == Trim(s)
  {
    var a, b := TrimSplits(s);
    var r := Trim(s);
    Regroup(before, a, r, b, after);
    AllWhitespaceAppend(before, a);
    AllWhitespaceAppend(b, after);
    assert AllWhitespace(before + a);
    assert AllWhitespace(b + after);
    assert r != [] ==> !IsJsWhitespace(r[0]) && !IsJsWhitespace(r[|r| - 1]);
    TrimUnique(before + a, r, b + after);
  }

  /**
   * A piece that neither starts nor ends with whitespace is kept whole by
   * `Trim`, at the index it had minus what was cut off the front.
   */
  lemma TrimKeepsInnerPiece(before: string, w: string, after: string) returns (i: nat)
    requires w != [] && !IsJsWhitespace(w[0]) && !IsJsWhitespace(w[|w| - 1])
    ensures OccursAt(Trim(before + w + after), w, i)
  {
    var s := before + w + after;
    var x, y := |before|, |before| + |w|;
    assert s[x] == w[0] && s[y - 1] == w[|w| - 1];
    var lo := SkipSpace(s, 0);
    var hi := SkipSpaceBack(s, lo, |s|);
    assert lo <= x;
    assert y <= hi;
    assert s[x..y] == w;
    i := x - lo;
    SliceOfSlice(s, lo, hi, i, i + |w|);
  }

  /** The lower-case of one character, as `toLowerCase` does it for ASCII letters. */
  function LowerChar(c: char): char {
    if 'A' <= c <= 'Z' then (c as int + 32) as char else c
  }

  /** `s.toLowerCase()` for ASCII letters; every other character is kept. */
  function Lower(s: string): (r: string)
    ensures |r| == |s|
    ensures forall i :: 0 <= i < |s| ==> r[i] == LowerChar(s[i])
  {
    seq(|s|, i requires 0 <= i < |s| => LowerChar(s[i]))
  }

  lemma LowerIdempotent(s: string)
    ensures Lower(Lower(s)) == Lower(s)
  {
    assert forall i :: 0 <= i < |s| ==> Lower(Lower(s))[i] == Lower(s)[i];
  }

  /** Lower-casing never turns a character into whitespace or whitespace into something else. */
  lemma LowerCharWhitespace(c: char)
    ensures IsJsWhitespace(LowerChar(c)) == IsJsWhitespace(c)
  {
  }

  /** Trimming and lower-casing commute, so the order the source applies them in is immaterial. */
  lemma TrimLowerCommute(s: string)
    ensures Trim(Lower(s)) == Lower(Trim(s))
  {
    var lo := SkipSpace(s, 0);
    SkipSpaceLower(s, 0);
    SkipSpaceBackLower(s, lo, |s|);
    LowerSlice(s, lo, SkipSpaceBack(s, lo, |s|));
  }

  /** Lower-casing moves no whitespace boundary, scanning forwards ... */
  lemma {:induction false} SkipSpaceLower(s: string, i: nat)
    requires i <= |s|
    ensures SkipSpace(Lower(s), i) == SkipSpace(s, i)
    decreases |s| - i
  {
    if i < |s| {
      LowerCharWhitespace(s[i]);
      if IsJsWhitespace(s[i]) {
        SkipSpaceLower(s, i + 1);
      }
    }
  }

  /** ... or backwards. */
  lemma {:induction false} SkipSpaceBackLower(s: string, lo: nat, j: nat)
    requires lo <= j <= |s|
    ensures SkipSpaceBack(Lower(s), lo, j) == SkipSpaceBack(s, lo, j)
    decreases j
  {
    if lo < j {
      LowerCharWhitespace(s[j - 1]);
      if IsJsWhitespace(s[j - 1]) {
        SkipSpaceBackLower(s, lo, j - 1);
      }
    }
  }

  /** The normal form the decision grammar and the menu compare against: `trim().toLowerCase()`. */
  function Normalize(s: string): string {
    Lower(Trim(s))
  }

  /** A normalized string has no surrounding whitespace and no upper-case ASCII letter. */
  lemma NormalizeIsNormal(s: string)
    ensures Trim(Normalize(s)) == Normalize(s)
    ensures Lower(Normalize(s)) == Normalize(s)
    ensures Normalize(Normalize(s)) == Normalize(s)
  {
    var r := Trim(s);
    var a, b := TrimSplits(s);
    if r != [] {
      LowerCharWhitespace(r[0]);
      LowerCharWhitespace(r[|r| - 1]);
    }
    TrimFixesTrimmed(Lower(r));
    LowerIdempotent(r);
  }

  /** JavaScript's `s.endsWith(suffix)`. */
  predicate EndsWith(s: string, suffix: string) {
    |suffix| <= |s| && s[|s| - |suffix|..] == suffix
  }

  /** `p` occurs in `s` starting at index `i`. */
  predicate OccursAt(s: string, p: string, i: nat) {
    i + |p| <= |s| && s[i..i + |p|] == p
  }

  /** JavaScript's `s.includes(p)`: `p` occurs at some index of `s`. */
  predicate Contains(s: string, p: string) {
    exists i: nat | i <= |s| :: OccursAt(s, p, i)
  }

  /** A string only contains strings no longer than itself. */
  lemma ContainsNoLonger(s: string, p: string)
    requires Contains(s, p)
    ensures |p| <= |s|
  {
  }

  /** An occurrence anywhere is found by `Contains`. */
  lemma ContainsAt(s: string, p: string, i: nat)
    requires OccursAt(s, p, i)
    ensures Contains(s, p)
  {
  }

  predicate IsDigit(c: char) {
    '0' <= c <= '9'
  }

  predicate AllDigits(s: string) {
    forall i :: 0 <= i < |s| ==> IsDigit(s[i])
  }

  /** `hanyaAngka`: the digits of `s`, in order; every other character is dropped. */
  function Digits(s: string): (r: string)
    ensures AllDigits(r)
    ensures |r| <= |s|
  {
    if s == [] then [] else (if IsDigit(s[0]) then [s[0]] else []) + Digits(s[1..])
  }

  /** The digit filter works piecewise: the digits of a concatenation are the concatenated digits. */
  lemma {:induction false} DigitsAppend(x: string, y: string)
    ensures Digits(x + y) == Digits(x) + Digits(y)
    decreases |x|
  {
    if x == [] {
      assert x + y == y;
    } else {
      assert (x + y)[0] == x[0];
      assert (x + y)[1..] == x[1..] + y;
      DigitsAppend(x[1..], y);
    }
  }

  /** Every digit of `s` is kept, as often as it occurs, and nothing else is. */
  lemma {:induction false} DigitsKeepsEveryDigit(s: string, c: char)
    ensures multiset(Digits(s))[c] == if IsDigit(c) then multiset(s)[c] else 0
    decreases |s|
  {
    if s != [] {
      DigitsKeepsEveryDigit(s[1..], c);
      assert s == [s[0]] + s[1..];
    }
  }

  /** A string of digits only is kept whole. */
  lemma {:induction false} DigitsKeepsDigitString(s: string)
    requires AllDigits(s)
    ensures Digits(s) == s
    decreases |s|
  {
    if s != [] {
      DigitsKeepsDigitString(s[1..]);
    }
  }

  /** Filtering the digits twice is filtering them once. */
  lemma DigitsIdempotent(s: string)
    ensures Digits(Digits(s)) == Digits(s)
  {
    DigitsKeepsDigitString(Digits(s));
  }
}
