/** The string operations the views apply to request fields: Python's
    `str.strip()`, `str.lower()`, and the case-insensitive `icontains` /
    `iexact` lookups of the ORM. */
module Text {

  /** The characters Python's `str.isspace()` accepts, so the ones
      `str.strip()` removes. */
  predicate IsSpace(c: char) {
    || ('\t' <= c <= '\r')
    || ('\U{1C}' <= c <= ' ')
    || c == '\U{85}' || c == '\U{A0}' || c == '\U{1680}'
    || ('\U{2000}' <= c <= '\U{200A}')
    || c == '\U{2028}' || c == '\U{2029}' || c == '\U{202F}' || c == '\U{205F}' || c == '\U{3000}'
  }

  /** The number of whitespace characters `s` starts with. */
  function LeadingSpace(s: string): (n: nat)
    ensures n <= |s|
    ensures forall k :: 0 <= k < n ==> IsSpace(s[k])
    ensures n < |s| ==> !IsSpace(s[n])
  {
    if s != [] && IsSpace(s[0]) then
      assert forall k :: 1 <= k < |s| ==> s[k] == s[1..][k - 1];
      1 + LeadingSpace(s[1..])
    else 0
  }

  /** The length of `s` without the whitespace it ends with. */
  function TrailingSpaceStart(s: string): (n: nat)
    ensures n <= |s|
    ensures forall k :: n <= k < |s| ==> IsSpace(s[k])
    ensures n > 0 ==> !IsSpace(s[n - 1])
  {
    if s != [] && IsSpace(s[|s| - 1]) then TrailingSpaceStart(s[..|s| - 1]) else |s|
  }

  /** Python's `s.strip()`: `s` without its leading and trailing whitespace;
      empty exactly when `s` is all whitespace. */
  function Strip(s: string): (r: string)
    ensures |r| <= |s|
    ensures r != [] ==> !IsSpace(r[0]) && !IsSpace(r[|r| - 1])
    ensures r == [] <==> forall k :: 0 <= k < |s| ==> IsSpace(s[k])
  {
    var a := LeadingSpace(s);
    var t := s[a..];
    var b := TrailingSpaceStart(t);
    assert forall k :: a <= k < |s| ==> s[k] == t[k - a];
    t[..b]
  }

  /** `s.strip()` is the slice of `s` between the whitespace it starts with
      and the whitespace it ends with: it keeps the characters in between, in
      order, and removes nothing else. */
  lemma StripIsInfix(s: string)
    ensures exists i, j ::
              && 0 <= i <= j <= |s| && Strip(s) == s[i..j]
              && (forall k :: 0 <= k < i ==> IsSpace(s[k]))
              && (forall k :: j <= k < |s| ==> IsSpace(s[k]))
  {
    var a := LeadingSpace(s);
    var t := s[a..];
    var b := TrailingSpaceStart(t);
    assert forall k :: a <= k < |s| ==> s[k] == t[k - a];
    assert Strip(s) == s[a..a + b];
  }

  /** Python's `c.lower()` on the ASCII letters. */
  function LowerChar(c: char): (d: char)
    ensures 'A' <= c <= 'Z' ==> 'a' <= d <= 'z' && d as int - c as int == 32
    ensures !('A' <= c <= 'Z') ==> d == c
  {
    if 'A' <= c <= 'Z' then (c as int + 32) as char else c
  }

  /** `s.lower()`, character by character. */
  function Lower(s: string): (r: string)
    ensures |r| == |s|
    ensures forall k :: 0 <= k < |s| ==> r[k] == LowerChar(s[k])
  {
    if s == [] then [] else [LowerChar(s[0])] + Lower(s[1..])
  }

  /** `n in h`: `n` occurs in `h` as a contiguous substring. */
  predicate Contains(h: string, n: string)
  {
    n <= h || (h != [] && Contains(h[1..], n))
  }

  /** An occurrence found by Contains is an infix of the haystack. */
  lemma {:induction false} ContainsAt(h: string, n: string)
    requires Contains(h, n)
    ensures exists i :: 0 <= i <= |h| - |n| && h[i..][..|n|] == n
  {
    if n <= h {
      assert h[0..][..|n|] == n;
    } else {
      ContainsAt(h[1..], n);
      var i :| 0 <= i <= |h[1..]| - |n| && h[1..][i..][..|n|] == n;
      assert h[1..][i..] == h[i + 1..];
    }
  }

  /** An infix of the haystack is found by Contains. */
  lemma {:induction false} InfixContains(h: string, n: string, i: nat)
    requires i + |n| <= |h| && h[i..][..|n|] == n
    ensures Contains(h, n)
  {
    if i == 0 {
      assert n <= h;
    } else {
      assert h[1..][i - 1..] == h[i..];
      InfixContains(h[1..], n, i - 1);
    }
  }

  /** Contains holds exactly when `n` occurs at some index of `h`. */
  lemma ContainsIff(h: string, n: string)
    ensures Contains(h, n) <==> exists i :: 0 <= i <= |h| - |n| && h[i..][..|n|] == n
  {
    if Contains(h, n) {
      ContainsAt(h, n);
    } else if exists i :: 0 <= i <= |h| - |n| && h[i..][..|n|] == n {
      var i :| 0 <= i <= |h| - |n| && h[i..][..|n|] == n;
      InfixContains(h, n, i);
    }
  }

  /** The ORM's `icontains`. */
  predicate ContainsIgnoreCase(h: string, n: string) {
    Contains(Lower(h), Lower(n))
  }

  /** The ORM's `iexact`. */
  predicate EqualsIgnoreCase(a: string, b: string) {
    Lower(a) == Lower(b)
  }
}
