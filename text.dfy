/** Character classes and the string helpers the parser uses: Python's `\d`,
    `\w`, `\s`, `str.strip()`, `str.replace()` and a case-insensitive
    substring test. `\d` and `\w` are taken over ASCII; whitespace is
    Python's full `str.isspace()` set. */
module Text {

  /** Regex `\d`, ASCII digits only. */
  predicate IsDigit(c: char) { '0' <= c <= '9' }

  predicate IsAsciiLetter(c: char) { 'a' <= c <= 'z' || 'A' <= c <= 'Z' }

  /** Regex `\w`, over ASCII: letters, digits and the underscore. */
  predicate IsWordChar(c: char) { IsDigit(c) || IsAsciiLetter(c) || c == '_' }

  /** Python's `str.isspace()`, which is also what regex `\s` and `str.strip()` use. */
  predicate IsSpace(c: char) {
    ('\t' <= c <= '\r') || ('\U{1C}' <= c <= ' ') || c == '\U{85}' || c == '\U{A0}'
    || c == '\U{1680}' || ('\U{2000}' <= c <= '\U{200A}') || c == '\U{2028}' || c == '\U{2029}'
    || c == '\U{202F}' || c == '\U{205F}' || c == '\U{3000}'
  }

  /** Lower-casing of ASCII letters; every other character is left alone. */
  function AsciiLower(c: char): (r: char)
    ensures IsAsciiLetter(c) ==> 'a' <= r <= 'z' && (r == c || r as int == c as int + 32)
    ensures !('A' <= c <= 'Z') ==> r == c
    ensures 'a' <= r <= 'z' ==> IsAsciiLetter(c)
  {
    if 'A' <= c <= 'Z' then (c as int + 32) as char else c
  }

  /** `w` (lower-case) occurs at position `i` of `s` when case is ignored. */
  predicate FoldedAt(s: string, i: nat, w: string) {
    i + |w| <= |s| && forall k :: 0 <= k < |w| ==> AsciiLower(s[i + k]) == w[k]
  }

  /** `w` occurs verbatim at position `i` of `s`. */
  predicate LiteralAt(s: string, i: nat, w: string) {
    i + |w| <= |s| && s[i..i + |w|] == w
  }

  /** Python's `w in s.lower()` for a lower-case ASCII word `w`. */
  predicate ContainsFolded(s: string, w: string) {
    exists i: nat | i <= |s| :: FoldedAt(s, i, w)
  }

  /** The number of whitespace characters `s` starts with. */
  function LeadingSpace(s: string): (n: nat)
    ensures n <= |s|
    ensures forall k :: 0 <= k < n ==> IsSpace(s[k])
    ensures n < |s| ==> !IsSpace(s[n])
  {
    if s != [] && IsSpace(s[0]) then 1 + LeadingSpace(s[1..]) else 0
  }

  /** The number of whitespace characters just before `e` in `s`, not
      counting any before `a`. */
  function SpaceBefore(s: string, a: nat, e: nat): (n: nat)
    requires a <= e <= |s|
    ensures n <= e - a
    ensures forall k :: e - n <= k < e ==> IsSpace(s[k])
    ensures n < e - a ==> !IsSpace(s[e - 1 - n])
    decreases e
  {
    if a < e && IsSpace(s[e - 1]) then 1 + SpaceBefore(s, a, e - 1) else 0
  }

  /** `str.strip()`: `s` without the whitespace it starts and ends with. */
  function Strip(s: string): (r: string)
    ensures r == [] || (!IsSpace(r[0]) && !IsSpace(r[|r| - 1]))
    ensures LeadingSpace(s) + |r| <= |s| && r == s[LeadingSpace(s)..LeadingSpace(s) + |r|]
    ensures forall k :: LeadingSpace(s) + |r| <= k < |s| ==> IsSpace(s[k])
  {
    s[LeadingSpace(s)..|s| - SpaceBefore(s, LeadingSpace(s), |s|)]
  }

  /** Stripping a text that neither starts nor ends with whitespace leaves it as it is. */
  lemma StripUnpadded(s: string)
    requires s != [] && !IsSpace(s[0]) && !IsSpace(s[|s| - 1])
    ensures Strip(s) == s
  {
    assert LeadingSpace(s) == 0;
    assert s[0..] == s;
  }

  /** `str.replace(a, b)` for single characters. */
  function Replace(s: string, a: char, b: char): (r: string)
    ensures |r| == |s|
    ensures forall k :: 0 <= k < |s| ==> r[k] == if s[k] == a then b else s[k]
  {
    if s == [] then [] else [if s[0] == a then b else s[0]] + Replace(s[1..], a, b)
  }

  /** `str.replace(c, "")`: every occurrence of `c` deleted, the rest kept in order. */
  function Remove(s: string, c: char): (r: string)
    ensures c !in r
    ensures |r| <= |s|
    ensures c !in s ==> r == s
    ensures forall x :: x != c ==> multiset(r)[x] == multiset(s)[x]
  {
    if s == [] then []
    else if s[0] == c then (assert s == [s[0]] + s[1..]; Remove(s[1..], c))
    else (assert s == [s[0]] + s[1..]; [s[0]] + Remove(s[1..], c))
  }
}
