/** ASCII text as the program handles it: `to_ascii_lowercase`, `str::contains`,
    and the shape of a base64-encoded 32-byte public key. Strings are ASCII,
    so a `char` is one byte and `len()` counts characters. */
module Ascii {

  predicate IsUpper(c: char) { 'A' <= c <= 'Z' }

  predicate IsLower(c: char) { 'a' <= c <= 'z' }

  predicate IsLetter(c: char) { IsUpper(c) || IsLower(c) }

  /** `char::to_ascii_lowercase`: maps `A`-`Z` to `a`-`z` and leaves every
      other character alone. */
  function AsciiLower(c: char): (r: char)
    ensures !IsUpper(r)
    ensures IsUpper(c) ==> IsLower(r) && r as int == c as int + 32
    ensures !IsUpper(c) ==> r == c
  {
    if IsUpper(c) then (c as int + 32) as char else c
  }

  /** The other case of an ASCII letter; any other character unchanged. */
  function FlipCase(c: char): (r: char)
    ensures IsLetter(c) ==> IsLetter(r) && r != c
    ensures AsciiLower(r) == AsciiLower(c)
  {
    if IsUpper(c) then (c as int + 32) as char
    else if IsLower(c) then (c as int - 32) as char
    else c
  }

  /** `str::to_ascii_lowercase`. */
  function Lower(s: string): (r: string)
    ensures |r| == |s|
    ensures forall i :: 0 <= i < |s| ==> r[i] == AsciiLower(s[i])
  {
    if s == [] then [] else [AsciiLower(s[0])] + Lower(s[1..])
  }

  predicate NoUpper(s: string) { forall i :: 0 <= i < |s| ==> !IsUpper(s[i]) }

  /** Two strings that differ at most in the case of ASCII letters. */
  predicate SameUpToCase(a: string, b: string)
  {
    |a| == |b| && forall i :: 0 <= i < |a| ==> AsciiLower(a[i]) == AsciiLower(b[i])
  }

  /** `t` occurs in `s` starting at offset `i`. */
  predicate OccursAt(s: string, t: string, i: int)
  {
    0 <= i && i + |t| <= |s| && s[i..i + |t|] == t
  }

  /** `t` occurs in `s` at some offset. */
  predicate Contains(s: string, t: string)
  {
    exists i | 0 <= i <= |s| :: OccursAt(s, t, i)
  }

  predicate StartsWith(s: string, t: string)
  {
    |t| <= |s| && s[..|t|] == t
  }

  /** `str::contains`, as a search that tries every offset from the left. */
  function Search(s: string, t: string): (r: bool)
    ensures StartsWith(s, t) ==> r
    ensures r ==> |t| <= |s|
    decreases |s|
  {
    StartsWith(s, t) || (|t| < |s| && Search(s[1..], t))
  }

  /** An occurrence past the first character is an occurrence in the tail. */
  lemma OccursAtTail(s: string, t: string, i: int)
    requires |s| > 0 && i >= 1
    ensures OccursAt(s, t, i) <==> OccursAt(s[1..], t, i - 1)
  {
    if i + |t| <= |s| {
      assert s[1..][i - 1..i - 1 + |t|] == s[i..i + |t|];
    }
  }

  /** The search finds `t` exactly when `t` occurs in `s`. */
  lemma {:induction false} SearchIsContains(s: string, t: string)
    ensures Search(s, t) <==> Contains(s, t)
    decreases |s|
  {
    if StartsWith(s, t) {
      assert OccursAt(s, t, 0);
    } else if |t| < |s| {
      SearchIsContains(s[1..], t);
      if Contains(s, t) {
        var i :| 0 <= i <= |s| && OccursAt(s, t, i);
        OccursAtTail(s, t, i);
      }
      if Contains(s[1..], t) {
        var i :| 0 <= i <= |s| - 1 && OccursAt(s[1..], t, i);
        OccursAtTail(s, t, i + 1);
      }
    } else {
      forall i | OccursAt(s, t, i) ensures i == 0 { }
    }
  }

  /** Lowercasing commutes with taking a prefix. */
  lemma LowerPrefix(s: string, n: nat)
    requires n <= |s|
    ensures Lower(s[..n]) == Lower(s)[..n]
  {
  }

  /** `to_ascii_lowercase` keeps every character that is not an upper-case
      letter, digits and `+`, `/`, `=` among them, and leaves no upper-case
      letter behind. */
  lemma LowerKeepsNonUpper(s: string)
    ensures NoUpper(Lower(s))
    ensures forall i :: 0 <= i < |s| && !IsUpper(s[i]) ==> Lower(s)[i] == s[i]
    ensures NoUpper(s) ==> Lower(s) == s
  {
  }

  lemma LowerIdempotent(s: string)
    ensures Lower(Lower(s)) == Lower(s)
  {
    LowerKeepsNonUpper(Lower(s));
    LowerKeepsNonUpper(s);
  }

  /** Lowercasing identifies exactly the strings that differ only in case. */
  lemma SameUpToCaseIffLowerEqual(a: string, b: string)
    ensures SameUpToCase(a, b) <==> Lower(a) == Lower(b)
  {
    if Lower(a) == Lower(b) {
      assert |a| == |Lower(a)|;
      forall i | 0 <= i < |a| ensures AsciiLower(a[i]) == AsciiLower(b[i]) {
        assert Lower(a)[i] == Lower(b)[i];
      }
    }
  }

  /** Flipping the case of one character gives a string equal up to case. */
  lemma FlipCaseAtSameUpToCase(s: string, k: nat)
    requires k < |s|
    ensures SameUpToCase(s, s[k := FlipCase(s[k])])
  {
  }

  lemma ContainsEmpty(s: string)
    ensures Contains(s, [])
  {
    assert OccursAt(s, [], 0);
  }

  lemma ContainsTooLong(s: string, t: string)
    requires |t| > |s|
    ensures !Contains(s, t)
  {
  }

  /** An occurrence in a string is still an occurrence in any extension of it. */
  lemma ContainsExtend(s: string, u: string, t: string)
    requires Contains(s, t)
    ensures Contains(s + u, t)
  {
    var i :| 0 <= i <= |s| && OccursAt(s, t, i);
    assert (s + u)[i..i + |t|] == s[i..i + |t|];
    assert OccursAt(s + u, t, i);
  }

  /** A string without upper-case letters contains no string with one. */
  lemma NoUpperContainsNoUpper(s: string, t: string, j: nat)
    requires NoUpper(s) && j < |t| && IsUpper(t[j])
    ensures !Contains(s, t)
  {
    forall i | 0 <= i && i + |t| <= |s| ensures !OccursAt(s, t, i) {
      assert s[i..i + |t|][j] == s[i + j];
    }
  }

  /** A character missing from `s` rules out every `t` that uses it. */
  lemma MissingCharNotContained(s: string, t: string, j: nat)
    requires j < |t| && forall i :: 0 <= i < |s| ==> s[i] != t[j]
    ensures !Contains(s, t)
  {
    forall i | 0 <= i && i + |t| <= |s| ensures !OccursAt(s, t, i) {
      assert s[i..i + |t|][j] == s[i + j];
    }
  }

  /** The padded base64 alphabet of section 4 of RFC 4648, without the pad. */
  predicate IsBase64Char(c: char)
  {
    ('A' <= c <= 'Z') || ('a' <= c <= 'z') || ('0' <= c <= '9') || c == '+' || c == '/'
  }

  /** A 32-byte key in padded base64: `ceil(32 / 3) * 4 = 44` characters,
      the last one the pad `=`. */
  const KEY_TEXT_LEN: nat := 44

  predicate IsKeyText(s: string)
  {
    |s| == KEY_TEXT_LEN && s[KEY_TEXT_LEN - 1] == '=' &&
    forall i :: 0 <= i < KEY_TEXT_LEN - 1 ==> IsBase64Char(s[i])
  }
}
