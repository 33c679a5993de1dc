/** The string operations of JavaScript that the core relies on: whitespace in
    the sense of `\s` and `String.prototype.trim`, ASCII lower-casing,
    `includes` and `endsWith`. */
module Text {

  /** A character of JavaScript's WhiteSpace or LineTerminator classes (what `\s` matches and `trim` removes). */
  predicate IsSpace(c: char) {
    var n := c as int;
    n == 0x09 || n == 0x0A || n == 0x0B || n == 0x0C || n == 0x0D || n == 0x20 ||
    n == 0xA0 || n == 0x1680 || (0x2000 <= n <= 0x200A) || n == 0x2028 || n == 0x2029 ||
    n == 0x202F || n == 0x205F || n == 0x3000 || n == 0xFEFF
  }

  predicate AllSpace(s: string) {
    forall i :: 0 <= i < |s| ==> IsSpace(s[i])
  }

  /** Number of whitespace characters of `s` starting at position `i`. */
  function SpacesFrom(s: string, i: nat): (n: nat)
    requires i <= |s|
    decreases |s| - i
    ensures i + n <= |s| && (forall k :: i <= k < i + n ==> IsSpace(s[k]))
    ensures i + n < |s| ==> !IsSpace(s[i + n])
  {
    if i < |s| && IsSpace(s[i]) then 1 + SpacesFrom(s, i + 1) else 0
  }

  /** Number of whitespace characters of `s` ending just before position `j`. */
  function SpacesBefore(s: string, j: nat): (n: nat)
    requires j <= |s|
    ensures n <= j && (forall k :: j - n <= k < j ==> IsSpace(s[k]))
    ensures n < j ==> !IsSpace(s[j - n - 1])
  {
    if j > 0 && IsSpace(s[j - 1]) then 1 + SpacesBefore(s, j - 1) else 0
  }

  /** Number of whitespace characters at the start of `s`. */
  function LeadingSpace(s: string): (n: nat)
    ensures n <= |s| && AllSpace(s[..n])
    ensures n < |s| ==> !IsSpace(s[n])
  {
    SpacesFrom(s, 0)
  }

  /** Number of whitespace characters at the end of `s`. */
  function TrailingSpace(s: string): (n: nat)
    ensures n <= |s| && AllSpace(s[|s| - n..])
    ensures n < |s| ==> !IsSpace(s[|s| - n - 1])
  {
    SpacesBefore(s, |s|)
  }

  /** Every position of a whitespace slice holds whitespace. */
  lemma SpaceSlice(s: string, lo: nat, hi: nat)
    requires lo <= hi <= |s| && AllSpace(s[lo..hi])
    ensures forall k :: lo <= k < hi ==> IsSpace(s[k])
  {
    forall k | lo <= k < hi ensures IsSpace(s[k]) {
      assert s[k] == s[lo..hi][k - lo];
    }
  }

  /** Where `trim` cuts `s`: after the leading and before the trailing whitespace. */
  function TrimBounds(s: string): (b: (nat, nat))
    ensures b.0 <= b.1 <= |s| && AllSpace(s[..b.0]) && AllSpace(s[b.1..])
    ensures b.0 == b.1 || (!IsSpace(s[b.0]) && !IsSpace(s[b.1 - 1]))
  {
    var i := LeadingSpace(s);
    if i == |s| then
      assert s[|s|..] == [];
      (i, i)
    else
      var n := TrailingSpace(s);
      SpaceSlice(s, |s| - n, |s|);
      (i, |s| - n)
  }

  /** `String.prototype.trim`: `s` without its leading and trailing whitespace. */
  function Trim(s: string): string {
    var b := TrimBounds(s);
    s[b.0..b.1]
  }

  /** `Trim` removes only whitespace, and what it leaves neither starts nor ends with whitespace. */
  lemma TrimShape(s: string)
    ensures exists i, j :: 0 <= i <= j <= |s| && Trim(s) == s[i..j] && AllSpace(s[..i]) && AllSpace(s[j..])
    ensures Trim(s) == [] || (!IsSpace(Trim(s)[0]) && !IsSpace(Trim(s)[|Trim(s)| - 1]))
  {
    var b := TrimBounds(s);
    assert Trim(s) == s[b.0..b.1];
  }

  /** The only way to cut whitespace off both ends of `s` is the one `Trim` takes. */
  lemma TrimUnique(s: string, i: nat, j: nat)
    requires i <= j <= |s| && AllSpace(s[..i]) && AllSpace(s[j..])
    requires i == j || (!IsSpace(s[i]) && !IsSpace(s[j - 1]))
    ensures Trim(s) == s[i..j]
  {
    var b := TrimBounds(s);
    SpaceSlice(s, 0, i);
    SpaceSlice(s, j, |s|);
    SpaceSlice(s, 0, b.0);
    SpaceSlice(s, b.1, |s|);
  }

  /** Whitespace appended after `s` does not change its trimmed form. */
  lemma TrimIgnoresTrailingSpace(s: string, t: string)
    requires AllSpace(t)
    ensures Trim(s + t) == Trim(s)
  {
    var b := TrimBounds(s);
    var u := s + t;
    assert u[..b.0] == s[..b.0];
    assert u[b.1..] == s[b.1..] + t;
    assert u[b.0..b.1] == s[b.0..b.1];
    TrimUnique(u, b.0, b.1);
  }

  /** A final newline does not change the trimmed form. */
  lemma TrimDropsNewline(s: string)
    ensures Trim(s + "\n") == Trim(s)
  {
    assert AllSpace("\n") by { assert "\n"[0] == '\n'; }
    TrimIgnoresTrailingSpace(s, "\n");
  }

  /** ASCII lower-casing of one character; other characters are kept. */
  function LowerChar(c: char): char {
    if 'A' <= c <= 'Z' then (c as int + 32) as char else c
  }

  /** `String.prototype.toLowerCase` on the ASCII letters. */
  function Lower(s: string): (r: string)
    ensures |r| == |s| && forall i :: 0 <= i < |s| ==> r[i] == LowerChar(s[i])
  {
    seq(|s|, i requires 0 <= i < |s| => LowerChar(s[i]))
  }

  predicate EndsWith(s: string, suffix: string) {
    |suffix| <= |s| && s[|s| - |suffix|..] == suffix
  }

  /** `needle` occurs in `s` starting at position `i`. */
  predicate OccursAt(s: string, needle: string, i: nat) {
    i + |needle| <= |s| && s[i..i + |needle|] == needle
  }

  /** `String.prototype.includes`: `needle` occurs somewhere in `s`. */
  predicate Contains(s: string, needle: string) {
    exists i :: 0 <= i <= |s| && OccursAt(s, needle, i)
  }

  /** An occurrence inside a slice is an occurrence in the whole string, within the slice's bounds. */
  lemma OccursInSlice(s: string, needle: string, lo: nat, hi: nat, t: nat)
    requires lo <= hi <= |s|
    ensures OccursAt(s[lo..hi], needle, t) ==> OccursAt(s, needle, lo + t) && lo + t + |needle| <= hi
  {
    var n := |needle|;
    if t + n <= hi - lo {
      var u := s[lo..hi];
      var x, y := u[t..t + n], s[lo + t..lo + t + n];
      forall i | 0 <= i < n ensures x[i] == y[i] {
        assert u[t + i] == s[lo + t + i];
      }
      assert x == y;
    }
  }

  /** No proper suffix of `needle` is also a prefix of it, so two occurrences never overlap. */
  predicate NoBorder(needle: string) {
    forall d :: 0 < d < |needle| ==> needle[d..] != needle[..|needle| - d]
  }

  /** In `body + needle + rest`, a `body` free of `needle` leaves no occurrence starting inside it. */
  lemma NoEarlierOccurrence(body: string, needle: string, rest: string, i: nat)
    requires !Contains(body, needle) && NoBorder(needle) && i < |body|
    ensures !OccursAt(body + needle + rest, needle, i)
  {
    var s := body + needle + rest;
    if i + |needle| <= |body| {
      assert s[i..i + |needle|] == body[i..i + |needle|];
      assert !OccursAt(body, needle, i);
    } else if i + |needle| <= |s| {
      var d := |body| - i;
      assert s[i..i + |needle|][d..] == needle[..|needle| - d];
    }
  }
}
