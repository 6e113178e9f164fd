/** The few Python `str` operations the chat script relies on, over `seq<char>`:
    `isspace`, `strip`, `count` (greedy, non-overlapping) and `" ".join`. */
module PyStrings {

  /** Python's `str.isspace` for one character: the Unicode whitespace set
      (U+0009..U+000D, U+001C..U+001F, space, U+0085, U+00A0, U+1680,
      U+2000..U+200A, U+2028, U+2029, U+202F, U+205F, U+3000). */
  predicate IsSpace(c: char) {
    ('\U{9}' <= c <= '\U{D}') || ('\U{1C}' <= c <= '\U{20}') ||
    c == '\U{85}' || c == '\U{A0}' || c == '\U{1680}' || ('\U{2000}' <= c <= '\U{200A}') ||
    c == '\U{2028}' || c == '\U{2029}' || c == '\U{202F}' || c == '\U{205F}' || c == '\U{3000}'
  }

  /** Every character of `s` is whitespace (the empty string included). */
  predicate IsBlank(s: string) {
    forall i :: 0 <= i < |s| ==> IsSpace(s[i])
  }

  predicate IsPrefix(p: string, s: string) {
    |p| <= |s| && s[..|p|] == p
  }

  /** `k` occurs in `s` starting at index `i`. */
  predicate OccursAt(k: string, s: string, i: int) {
    0 <= i && i + |k| <= |s| && s[i..i + |k|] == k
  }

  /** Python's `k in s`. */
  predicate Occurs(k: string, s: string) {
    exists i :: 0 <= i <= |s| - |k| && OccursAt(k, s, i)
  }

  // ---------------------------------------------------------------- strip

  /** The index of the first non-whitespace character at or after `i`
      (`|s|` when there is none). */
  function SkipStart(s: string, i: nat): (n: nat)
    requires i <= |s|
    ensures i <= n <= |s|
    ensures forall k :: i <= k < n ==> IsSpace(s[k])
    ensures n == |s| || !IsSpace(s[n])
    decreases |s| - i
  {
    if i < |s| && IsSpace(s[i]) then SkipStart(s, i + 1) else i
  }

  /** The index just past the last non-whitespace character of `s[lo..j]`
      (`lo` when there is none). */
  function SkipEnd(s: string, lo: nat, j: nat): (n: nat)
    requires lo <= j <= |s|
    ensures lo <= n <= j
    ensures forall k :: n <= k < j ==> IsSpace(s[k])
    ensures n == lo || !IsSpace(s[n - 1])
    decreases j
  {
    if j > lo && IsSpace(s[j - 1]) then SkipEnd(s, lo, j - 1) else j
  }

  /** `r` is `s` with the blank prefix `s[..lo]` and a blank suffix removed. */
  predicate PaddedBy(r: string, s: string, lo: int) {
    0 <= lo <= |s| - |r| && s[lo..lo + |r|] == r &&
    (forall i :: 0 <= i < lo ==> IsSpace(s[i])) &&
    (forall i :: lo + |r| <= i < |s| ==> IsSpace(s[i]))
  }

  /** `s.strip()`: the factor of `s` left after removing whitespace at both
      ends, found by moving an index forward from the start and another
      backward from the end. */
  function Strip(s: string): (r: string)
    ensures r == [] <==> IsBlank(s)
    ensures r == [] || (!IsSpace(r[0]) && !IsSpace(r[|r| - 1]))
    ensures exists lo :: PaddedBy(r, s, lo)
  {
    var lo := SkipStart(s, 0);
    var hi := SkipEnd(s, lo, |s|);
    assert PaddedBy(s[lo..hi], s, lo);
    s[lo..hi]
  }

  /** A string with no whitespace at either end is its own `strip()`. */
  lemma StripUnpadded(s: string)
    requires s == [] || (!IsSpace(s[0]) && !IsSpace(s[|s| - 1]))
    ensures Strip(s) == s
  {
  }

  /** `strip()` is idempotent. */
  lemma StripIdempotent(s: string)
    ensures Strip(Strip(s)) == Strip(s)
  {
    StripUnpadded(Strip(s));
  }

  // ---------------------------------------------------------------- count

  /** Python's `s.count(k)` for a non-empty `k`: scan left to right, and after
      each match resume just past it, so matches never overlap. */
  function Count(s: string, k: string): nat
    requires |k| > 0
    decreases |s|
  {
    if |s| < |k| then 0
    else if s[..|k|] == k then 1 + Count(s[|k|..], k)
    else Count(s[1..], k)
  }

  /** The count is zero exactly when the keyword does not occur at all. */
  lemma {:induction false} CountZeroIff(s: string, k: string)
    requires |k| > 0
    ensures Count(s, k) == 0 <==> !Occurs(k, s)
    decreases |s|
  {
    if |s| < |k| {
      assert forall i :: !OccursAt(k, s, i);
    } else if s[..|k|] == k {
      assert OccursAt(k, s, 0);
    } else {
      CountZeroIff(s[1..], k);
      assert !OccursAt(k, s, 0);
      if Occurs(k, s) {
        var i :| 0 <= i <= |s| - |k| && OccursAt(k, s, i);
        OccursShift(k, s, i - 1);
      }
      if Occurs(k, s[1..]) {
        var i :| 0 <= i <= |s| - 1 - |k| && OccursAt(k, s[1..], i);
        OccursShift(k, s, i);
      }
    }
  }

  /** Dropping the first character shifts every occurrence one to the left. */
  lemma OccursShift(k: string, s: string, i: int)
    requires |s| > 0 && 0 <= i
    ensures OccursAt(k, s, i + 1) <==> OccursAt(k, s[1..], i)
  {
    if i + 1 + |k| <= |s| {
      var a, b := s[i + 1..i + 1 + |k|], s[1..][i..i + |k|];
      assert |a| == |b|;
      forall j | 0 <= j < |a| ensures a[j] == b[j] {
        assert a[j] == s[i + 1 + j];
        assert b[j] == s[1..][i + j];
      }
      assert a == b;
    }
  }

  /** A keyword whose first character does not appear in `s` never matches. */
  lemma {:induction false} CountAbsentHead(s: string, k: string)
    requires |k| > 0 && k[0] !in s
    ensures Count(s, k) == 0
    decreases |s|
  {
    if |s| >= |k| {
      assert s[..|k|][0] == s[0];
      assert s[0] in s;
      CountAbsentHead(s[1..], k);
    }
  }

  /** Counting splits at a boundary no match can straddle: when the first
      character after the boundary is not in `k`, no occurrence of `k` starts
      in `a` and ends in `t`. */
  lemma {:induction false} CountAppend(a: string, t: string, k: string)
    requires |k| > 0
    requires t == [] || t[0] !in k
    ensures Count(a + t, k) == Count(a, k) + Count(t, k)
    decreases |a|
  {
    var s := a + t;
    if a == [] {
      assert s == t;
    } else if |s| < |k| {
      assert Count(a, k) == 0 && Count(t, k) == 0;
    } else if s[..|k|] == k {
      if |k| <= |a| {
        assert a[..|k|] == k;
        assert s[|k|..] == a[|k|..] + t;
        CountAppend(a[|k|..], t, k);
      } else {
        MatchCovers(a, t, k);
        assert false;
      }
    } else {
      assert s[1..] == a[1..] + t;
      CountAppend(a[1..], t, k);
      if |a| >= |k| {
        assert a[..|k|] == s[..|k|];
      }
    }
  }

  /** A match at the start of `a + t` that is longer than `a` covers `t[0]`. */
  lemma MatchCovers(a: string, t: string, k: string)
    requires |a| < |k| <= |a + t| && (a + t)[..|k|] == k
    ensures t[0] in k
  {
    assert k[|a|] == t[0];
  }

  /** A leading space never starts a match of a keyword without spaces. */
  lemma CountAfterSpace(r: string, k: string)
    requires |k| > 0 && ' ' !in k
    ensures Count([' '] + r, k) == Count(r, k)
  {
    var s := [' '] + r;
    assert s[1..] == r;
    if |s| >= |k| {
      assert s[..|k|][0] == ' ';
      assert s[..|k|] != k;
    }
  }

  // ---------------------------------------------------------------- join

  /** Python's `" ".join(xs)`. */
  function Join(xs: seq<string>): string {
    if |xs| == 0 then ""
    else if |xs| == 1 then xs[0]
    else xs[0] + " " + Join(xs[1..])
  }

  /** Sum of the counts of `k` in each string of `xs`. */
  function CountEach(xs: seq<string>, k: string): nat
    requires |k| > 0
  {
    if xs == [] then 0 else Count(xs[0], k) + CountEach(xs[1..], k)
  }

  /** A keyword without spaces never spans the separator, so its count in the
      joined text is the sum of its counts in the parts. */
  lemma {:induction false} CountJoin(xs: seq<string>, k: string)
    requires |k| > 0 && ' ' !in k
    ensures Count(Join(xs), k) == CountEach(xs, k)
  {
    if |xs| == 1 {
      assert xs[1..] == [];
    } else if |xs| > 1 {
      var rest := Join(xs[1..]);
      assert Join(xs) == xs[0] + ([' '] + rest);
      CountAppend(xs[0], [' '] + rest, k);
      CountAfterSpace(rest, k);
      CountJoin(xs[1..], k);
    }
  }
}
