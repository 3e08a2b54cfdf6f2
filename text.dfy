/** The string operations the search paths rely on: SQLite's ASCII-only
    LOWER and substring matching, Java's String.trim, and the JavaScript
    notion of a whitespace-only string. */
module Text {

  /** SQLite's built-in LOWER folds only the ASCII letters A-Z. */
  function LowerChar(c: char): char {
    if 'A' <= c <= 'Z' then (c as int + 32) as char else c
  }

  function Lower(s: string): (t: string)
    ensures |t| == |s|
    ensures forall i :: 0 <= i < |s| ==> t[i] == LowerChar(s[i])
  {
    seq(|s|, i requires 0 <= i < |s| => LowerChar(s[i]))
  }

  /** `k` occurs in `s` starting at index `i`. */
  predicate OccursAt(s: string, k: string, i: int) {
    0 <= i <= |s| - |k| && s[i..i + |k|] == k
  }

  /** `k` occurs as a contiguous part of `s` (what `LIKE '%k%'` tests when
      `k` holds no wildcard). */
  predicate Contains(s: string, k: string)
    decreases |s|
  {
    k <= s || (|s| > 0 && Contains(s[1..], k))
  }

  /** The recursive definition agrees with the positional one. */
  lemma {:induction false} ContainsAt(s: string, k: string)
    ensures Contains(s, k) <==> exists i :: OccursAt(s, k, i)
  {
    if k <= s {
      assert OccursAt(s, k, 0);
    } else if |s| == 0 {
      assert forall i :: !OccursAt(s, k, i);
    } else {
      ContainsAt(s[1..], k);
      if Contains(s[1..], k) {
        var i :| OccursAt(s[1..], k, i);
        assert s[i + 1..i + 1 + |k|] == s[1..][i..i + |k|];
        assert OccursAt(s, k, i + 1);
      } else {
        forall i | OccursAt(s, k, i)
          ensures k <= s || OccursAt(s[1..], k, i - 1)
        {
          if i > 0 {
            var a, b := s[i..i + |k|], s[1..][i - 1..i - 1 + |k|];
            forall j | 0 <= j < |k| ensures a[j] == b[j] {
              assert a[j] == s[i + j] && b[j] == s[1..][i - 1 + j];
            }
            assert a == b;
          }
        }
      }
    }
  }

  /** ASCII-case-insensitive containment: `LOWER(s) LIKE LOWER('%k%')`, and
      also SQLite's default LIKE, which ignores ASCII case by itself. */
  predicate ContainsIgnoringCase(s: string, k: string) {
    Contains(Lower(s), Lower(k))
  }

  /** Lower-casing twice is lower-casing once. */
  lemma LowerIdempotent(s: string)
    ensures Lower(Lower(s)) == Lower(s)
  {
  }

  /** A keyword matches the same strings as its lower-cased form. */
  lemma ContainsIgnoringKeywordCase(s: string, k: string)
    ensures ContainsIgnoringCase(s, Lower(k)) <==> ContainsIgnoringCase(s, k)
  {
    LowerIdempotent(k);
  }

  /** Java's String.trim strips every leading and trailing char up to U+0020. */
  predicate IsJavaSpace(c: char) {
    c <= ' '
  }

  predicate AllJavaSpace(s: string) {
    forall i :: 0 <= i < |s| ==> IsJavaSpace(s[i])
  }

  /** Every char of `s` from index `lo` up to (not including) `hi` is blank. */
  predicate SpacesBetween(s: string, lo: int, hi: int)
    requires 0 <= lo && hi <= |s|
  {
    forall i :: lo <= i < hi ==> IsJavaSpace(s[i])
  }

  /** The first index at or after `i` that holds no blank (or `|s|`):
      the scan from the front in Java's `trim`. */
  function SkipBlanks(s: string, i: nat): (n: nat)
    requires i <= |s|
    ensures i <= n <= |s| && SpacesBetween(s, i, n)
    ensures n < |s| ==> !IsJavaSpace(s[n])
    decreases |s| - i
  {
    if i < |s| && IsJavaSpace(s[i]) then SkipBlanks(s, i + 1) else i
  }

  /** The end of `s[lo..j]` once its trailing blanks are dropped: the scan
      from the back in Java's `trim`, which stops at `lo`. */
  function DropBlanks(s: string, lo: nat, j: nat): (m: nat)
    requires lo <= j <= |s|
    ensures lo <= m <= j && SpacesBetween(s, m, j)
    ensures m > lo ==> !IsJavaSpace(s[m - 1])
  {
    if j > lo && IsJavaSpace(s[j - 1]) then DropBlanks(s, lo, j - 1) else j
  }

  /** Java's `s.trim()`: the part of `s` between its leading and trailing
      blanks; empty exactly when `s` holds nothing but blanks. */
  function Trim(s: string): (t: string)
    ensures t == [] <==> AllJavaSpace(s)
    ensures t != [] ==> !IsJavaSpace(t[0]) && !IsJavaSpace(t[|t| - 1])
    ensures exists i :: OccursAt(s, t, i) && SpacesBetween(s, 0, i) && SpacesBetween(s, i + |t|, |s|)
  {
    var st := SkipBlanks(s, 0);
    var len := DropBlanks(s, st, |s|);
    assert OccursAt(s, s[st..len], st);
    assert st == len ==> st == |s|;
    s[st..len]
  }

  /** Trimming twice is trimming once, so `" ab "` and `"ab"` reach the
      store as the same keyword. */
  lemma TrimIdempotent(s: string)
    ensures Trim(Trim(s)) == Trim(s)
  {
    var t := Trim(s);
    if t != [] {
      assert SkipBlanks(t, 0) == 0;
      assert DropBlanks(t, 0, |t|) == |t|;
      assert t[0..|t|] == t;
    }
  }

  /** The characters ECMAScript's String.prototype.trim removes. */
  predicate IsJsSpace(c: char) {
    || c == ' ' || c == '\t' || c == '\n' || c == '\r'
    || c == '\U{000B}' || c == '\U{000C}' || c == '\U{00A0}' || c == '\U{1680}'
    || ('\U{2000}' <= c <= '\U{200A}')
    || c == '\U{2028}' || c == '\U{2029}' || c == '\U{202F}' || c == '\U{205F}'
    || c == '\U{3000}' || c == '\U{FEFF}'
  }

  /** `!s || s.trim() === ''` for a JavaScript string `s`. */
  predicate IsBlankJs(s: string) {
    forall i :: 0 <= i < |s| ==> IsJsSpace(s[i])
  }
}
