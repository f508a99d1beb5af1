/** String primitives the scanner relies on: Python's `str.lower` (restricted to
    ASCII letters), `str.isspace` / `str.strip`, and the substring test `pat in text`. */
module Text {

  // ---------------------------------------------------------------- lowercasing

  predicate IsUpper(c: char) {
    'A' <= c <= 'Z'
  }

  /** Lowercases one ASCII letter; every other character is left alone. */
  function LowerChar(c: char): (d: char)
    ensures !IsUpper(d)
    ensures IsUpper(c) || d == c
    ensures IsUpper(c) ==> d as int - c as int == 'a' as int - 'A' as int
  {
    if IsUpper(c) then (c as int - 'A' as int + 'a' as int) as char else c
  }

  /** `text.lower()` over ASCII letters. */
  function Lower(s: string): (r: string)
    ensures |r| == |s|
    ensures forall i :: 0 <= i < |r| ==> !IsUpper(r[i])
  {
    seq(|s|, i requires 0 <= i < |s| => LowerChar(s[i]))
  }

  /** A string without upper-case letters is its own lower-case form. */
  lemma LowerOfLowercase(s: string)
    requires forall i :: 0 <= i < |s| ==> !IsUpper(s[i])
    ensures Lower(s) == s
  {
  }

  /** Lowercasing twice is lowercasing once. */
  lemma LowerIdempotent(s: string)
    ensures Lower(Lower(s)) == Lower(s)
  {
  }

  /** Lowercasing works character by character, so it distributes over concatenation. */
  lemma LowerAppend(a: string, b: string)
    ensures Lower(a + b) == Lower(a) + Lower(b)
  {
  }

  // ---------------------------------------------------------------- whitespace

  /** The characters Python's `str.isspace` (and so `str.strip()`) treats as whitespace. */
  predicate IsSpace(c: char) {
    var n := c as int;
    (0x09 <= n <= 0x0D) || (0x1C <= n <= 0x20) || n == 0x85 || n == 0xA0 || n == 0x1680
    || (0x2000 <= n <= 0x200A) || n == 0x2028 || n == 0x2029 || n == 0x202F || n == 0x205F
    || n == 0x3000
  }

  /** Every character is whitespace (the empty string included). */
  ghost predicate IsBlank(s: string) {
    forall i :: 0 <= i < |s| ==> IsSpace(s[i])
  }

  lemma {:induction false} BlankAppend(a: string, b: string)
    ensures IsBlank(a + b) <==> IsBlank(a) && IsBlank(b)
  {
    if IsBlank(a + b) {
      assert forall i :: 0 <= i < |a| ==> a[i] == (a + b)[i];
      assert forall i :: 0 <= i < |b| ==> b[i] == (a + b)[|a| + i];
    }
  }

  /** `s.lstrip()`: drops leading whitespace. */
  function LStrip(s: string): (r: string)
    ensures |r| <= |s|
  {
    if |s| > 0 && IsSpace(s[0]) then LStrip(s[1..]) else s
  }

  /** `s.rstrip()`: drops trailing whitespace. */
  function RStrip(s: string): (r: string)
    ensures |r| <= |s|
  {
    if |s| > 0 && IsSpace(s[|s| - 1]) then RStrip(s[..|s| - 1]) else s
  }

  lemma {:induction false} LStripEmptyIffBlank(s: string)
    ensures LStrip(s) == [] <==> IsBlank(s)
  {
    if |s| > 0 && IsSpace(s[0]) {
      LStripEmptyIffBlank(s[1..]);
      assert s == [s[0]] + s[1..];
      BlankAppend([s[0]], s[1..]);
    }
  }

  lemma {:induction false} RStripEmptyIffBlank(s: string)
    ensures RStrip(s) == [] <==> IsBlank(s)
  {
    if |s| > 0 && IsSpace(s[|s| - 1]) {
      RStripEmptyIffBlank(s[..|s| - 1]);
      assert s == s[..|s| - 1] + [s[|s| - 1]];
      BlankAppend(s[..|s| - 1], [s[|s| - 1]]);
    }
  }

  lemma {:induction false} LStripStartsWithNonSpace(s: string)
    ensures LStrip(s) != [] ==> !IsSpace(LStrip(s)[0])
  {
    if |s| > 0 && IsSpace(s[0]) {
      LStripStartsWithNonSpace(s[1..]);
    }
  }

  lemma {:induction false} RStripEndsWithNonSpace(s: string)
    ensures RStrip(s) != [] ==> !IsSpace(RStrip(s)[|RStrip(s)| - 1])
  {
    if |s| > 0 && IsSpace(s[|s| - 1]) {
      RStripEndsWithNonSpace(s[..|s| - 1]);
    }
  }

  lemma {:induction false} RStripKeepsFirst(s: string)
    ensures RStrip(s) != [] ==> RStrip(s)[0] == s[0]
  {
    if |s| > 0 && IsSpace(s[|s| - 1]) {
      RStripKeepsFirst(s[..|s| - 1]);
    }
  }

  /** `s.strip()`: it is empty exactly when `s` is whitespace only, and otherwise it
      neither starts nor ends with whitespace. */
  function Strip(s: string): (r: string)
    ensures |r| <= |s|
    ensures r == [] <==> IsBlank(s)
    ensures r != [] ==> !IsSpace(r[0]) && !IsSpace(r[|r| - 1])
  {
    LStripEmptyIffBlank(s);
    RStripEmptyIffBlank(LStrip(s));
    LStripStartsWithNonSpace(s);
    RStripEndsWithNonSpace(LStrip(s));
    RStripKeepsFirst(LStrip(s));
    RStrip(LStrip(s))
  }

  // ---------------------------------------------------------------- substrings

  predicate IsPrefix(pat: string, text: string) {
    |pat| <= |text| && text[..|pat|] == pat
  }

  /** Python's `pat in text`: `pat` occurs somewhere in `text` (the empty pattern always does). */
  predicate IsSubstring(pat: string, text: string)
    ensures IsSubstring(pat, text) ==> |pat| <= |text|
    ensures pat == [] ==> IsSubstring(pat, text)
    decreases |text|
  {
    IsPrefix(pat, text) || (|text| > 0 && IsSubstring(pat, text[1..]))
  }

  /** `pat` occurs in `text` starting at position `k`. */
  ghost predicate OccursAt(pat: string, text: string, k: int) {
    0 <= k && k + |pat| <= |text| && text[k..k + |pat|] == pat
  }

  /** The recursive test agrees with the positional definition of a substring. */
  lemma {:induction false} SubstringIff(pat: string, text: string)
    ensures IsSubstring(pat, text) <==> exists k :: OccursAt(pat, text, k)
    decreases |text|
  {
    if IsPrefix(pat, text) {
      assert OccursAt(pat, text, 0);
    } else if |text| > 0 {
      SubstringIff(pat, text[1..]);
      if IsSubstring(pat, text[1..]) {
        var k :| OccursAt(pat, text[1..], k);
        assert text[1..][k..k + |pat|] == text[k + 1..k + 1 + |pat|];
        assert OccursAt(pat, text, k + 1);
      }
      if k :| OccursAt(pat, text, k) {
        assert k != 0;
        assert text[1..][k - 1..k - 1 + |pat|] == text[k..k + |pat|];
        assert OccursAt(pat, text[1..], k - 1);
      }
    }
  }

  /** A substring of `text` stays a substring when anything is put before or after `text`. */
  lemma SubstringOfAppend(pat: string, text: string, before: string, after: string)
    requires IsSubstring(pat, text)
    ensures IsSubstring(pat, before + text + after)
  {
    SubstringIff(pat, text);
    var k :| OccursAt(pat, text, k);
    var whole := before + text + after;
    assert whole[|before| + k..|before| + k + |pat|] == text[k..k + |pat|];
    assert OccursAt(pat, whole, |before| + k);
    SubstringIff(pat, whole);
  }

  /** Being a substring is transitive. */
  lemma SubstringTransitive(p: string, q: string, text: string)
    requires IsSubstring(p, q) && IsSubstring(q, text)
    ensures IsSubstring(p, text)
  {
    SubstringIff(p, q);
    SubstringIff(q, text);
    var i :| OccursAt(p, q, i);
    var j :| OccursAt(q, text, j);
    assert forall t :: 0 <= t < |p| ==> text[j + i + t] == text[j..j + |q|][i + t] == p[t];
    assert text[j + i..j + i + |p|] == p;
    assert OccursAt(p, text, j + i);
    SubstringIff(p, text);
  }

  // ---------------------------------------------------------------- lengths

  /** The sum of the lengths of a sequence of strings. */
  function TotalLength(parts: seq<string>): nat
  {
    if parts == [] then 0 else TotalLength(parts[..|parts| - 1]) + |parts[|parts| - 1]|
  }
}
