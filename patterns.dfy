/** The four regular expressions of the parser (bot.py:40-43), each as the
    length of the match it makes at a position, to be run through the
    left-to-right scan of `Scanner`:

      MENTION_REGEX  (@Onyxia Alliance|@Onyxia Horde|@RendBuff)
      DATE_REGEX     \b\d{2}[-/.]\d{2}[-/.]\d{4}\b|\btonight\b      (ignoring case)
      TIME_REGEX     \b(\d{1,2}[:.]\d{2})\s*(CET|ST)?\b
      GUILD_REGEX    <([^>]+)>                                     (searched once)
*/
module Patterns {
  import opened Results
  import opened Text
  import opened Scanner

  /** Regex `\b` at position `p`: a word character on exactly one side. */
  predicate Boundary(s: string, p: nat) {
    p <= |s| && ((p > 0 && IsWordChar(s[p - 1])) != (p < |s| && IsWordChar(s[p])))
  }

  // ---------------------------------------------------------------- guild

  /** The first position at or after `i` that holds `c`. */
  function FirstFrom(s: string, c: char, i: nat): (r: Option<nat>)
    ensures r.Some? ==> i <= r.value < |s| && s[r.value] == c
    ensures forall k: nat :: i <= k < |s| && (r.None? || k < r.value) ==> s[k] != c
    decreases |s| - i
  {
    if i >= |s| then None
    else if s[i] == c then Some(i)
    else FirstFrom(s, c, i + 1)
  }

  /** `<([^>]+)>` matches at `p`: a `<`, then at least one character that is
      not `>`, then a `>` further on. The group runs up to the first `>`. */
  predicate GuildAt(s: string, p: nat) {
    p + 1 < |s| && s[p] == '<' && s[p + 1] != '>' && FirstFrom(s, '>', p + 1).Some?
  }

  /** `GUILD_REGEX.search(s[i..])`: the span of the first match, as the
      position of its `<` and of its `>`. */
  function GuildSearch(s: string, i: nat): (r: Option<(nat, nat)>)
    ensures r.Some? ==> var (p, q) := r.value;
              i <= p && GuildAt(s, p) && q == FirstFrom(s, '>', p + 1).value
              && (forall k: nat :: i <= k < p ==> !GuildAt(s, k))
    ensures r.None? ==> forall k: nat :: i <= k ==> !GuildAt(s, k)
    decreases |s| - i
  {
    if i >= |s| then None
    else if GuildAt(s, i) then Some((i, FirstFrom(s, '>', i + 1).value))
    else GuildSearch(s, i + 1)
  }

  /** The guild label: the first match's group, stripped, or `"Unknown"`. */
  function GuildName(s: string): (g: string)
    ensures (forall k: nat :: !GuildAt(s, k)) ==> g == "Unknown"
  {
    match GuildSearch(s, 0)
    case Some((p, q)) => Strip(s[p + 1..q])
    case None => "Unknown"
  }

  /** When a match exists, the label is the group of the leftmost one, stripped. */
  lemma GuildNameIsFirstMatch(s: string, p: nat)
    requires GuildAt(s, p) && forall k: nat :: k < p ==> !GuildAt(s, k)
    ensures GuildName(s) == Strip(s[p + 1..FirstFrom(s, '>', p + 1).value])
  {
    var r := GuildSearch(s, 0);
    assert r.Some?;
    var p', q := r.value.0, r.value.1;
    assert p' == p;
    assert GuildName(s) == Strip(s[p' + 1..q]);
  }

  // ----------------------------------------------------------------- date

  predicate IsDateSep(c: char) { c == '-' || c == '/' || c == '.' }

  /** `\b\d{2}[-/.]\d{2}[-/.]\d{4}\b` matches at `i`. */
  predicate NumericDateAt(s: string, i: nat) {
    i + 10 <= |s| && Boundary(s, i) && Boundary(s, i + 10)
    && IsDigit(s[i]) && IsDigit(s[i + 1]) && IsDateSep(s[i + 2])
    && IsDigit(s[i + 3]) && IsDigit(s[i + 4]) && IsDateSep(s[i + 5])
    && IsDigit(s[i + 6]) && IsDigit(s[i + 7]) && IsDigit(s[i + 8]) && IsDigit(s[i + 9])
  }

  /** `\btonight\b`, ignoring case, matches at `i`. */
  predicate TonightAt(s: string, i: nat) {
    Boundary(s, i) && FoldedAt(s, i, "tonight") && Boundary(s, i + 7)
  }

  /** DATE_REGEX: the first alternative is tried first. */
  function DateMatchLen(s: string, i: nat): nat {
    if NumericDateAt(s, i) then 10 else if TonightAt(s, i) then 7 else 0
  }

  // -------------------------------------------------------------- mention

  const Alliance: string := "@Onyxia Alliance"
  const Horde: string := "@Onyxia Horde"
  const Rend: string := "@RendBuff"

  /** MENTION_REGEX, case-sensitive, alternatives tried in order. */
  function MentionMatchLen(s: string, i: nat): nat {
    if LiteralAt(s, i, Alliance) then |Alliance|
    else if LiteralAt(s, i, Horde) then |Horde|
    else if LiteralAt(s, i, Rend) then |Rend|
    else 0
  }

  // ----------------------------------------------------------------- time

  predicate IsTimeSep(c: char) { c == ':' || c == '.' }

  /** The length of group 1, `\d{1,2}[:.]\d{2}`, at `i` (0 when it does not
      match). Two hour digits are tried first; one is tried only when the
      second character is not a digit, since it must then be the separator. */
  function ClockLen(s: string, i: nat): nat {
    if i + 5 <= |s| && IsDigit(s[i]) && IsDigit(s[i + 1]) && IsTimeSep(s[i + 2])
       && IsDigit(s[i + 3]) && IsDigit(s[i + 4]) then 5
    else if i + 4 <= |s| && IsDigit(s[i]) && IsTimeSep(s[i + 1])
       && IsDigit(s[i + 2]) && IsDigit(s[i + 3]) then 4
    else 0
  }

  /** The number of whitespace characters from position `e` on. */
  function SpaceRun(s: string, e: nat): (w: nat)
    requires e <= |s|
    ensures e + w <= |s|
    ensures forall k :: e <= k < e + w ==> IsSpace(s[k])
    ensures e + w < |s| ==> !IsSpace(s[e + w])
    decreases |s| - e
  {
    if e < |s| && IsSpace(s[e]) then 1 + SpaceRun(s, e + 1) else 0
  }

  /** `\s*(CET|ST)?\b` after the group, where `\s*` has taken `k` spaces:
      the optional zone is tried before its absence, and when neither is
      followed by `\b`, `\s*` gives back one space and the whole is retried. */
  function TailLen(s: string, e: nat, k: nat): (r: Option<nat>)
    requires e + k <= |s|
    ensures r.Some? ==> r.value <= k + 3 && e + r.value <= |s|
    decreases k
  {
    if LiteralAt(s, e + k, "CET") && Boundary(s, e + k + 3) then Some(k + 3)
    else if LiteralAt(s, e + k, "ST") && Boundary(s, e + k + 2) then Some(k + 2)
    else if Boundary(s, e + k) then Some(k)
    else if k == 0 then None
    else TailLen(s, e, k - 1)
  }

  /** TIME_REGEX: the length of the whole match at `i`. */
  function TimeMatchLen(s: string, i: nat): (n: nat)
    ensures n > 0 ==> Boundary(s, i) && 0 < ClockLen(s, i) <= n
  {
    var g := ClockLen(s, i);
    if g > 0 && Boundary(s, i) then
      match TailLen(s, i + g, SpaceRun(s, i + g))
      case Some(t) => g + t
      case None => 0
    else 0
  }

  /** The text of group 1: one or two hour digits, `:` or `.`, two minute digits. */
  predicate ClockText(c: string) {
    (|c| == 4 || |c| == 5) && IsTimeSep(c[|c| - 3])
    && forall k :: 0 <= k < |c| && k != |c| - 3 ==> IsDigit(c[k])
  }

  /** Group 1 of a TIME_REGEX match: two hour digits when the second
      character is a digit, otherwise one. */
  function ClockGroup(t: string): string {
    if |t| >= 5 && IsDigit(t[1]) then t[..5] else if |t| >= 4 then t[..4] else t
  }

  /** Group 1 of the match at `i` is its first `ClockLen(s, i)` characters. */
  lemma ClockGroupOfMatch(s: string, i: nat)
    requires TimeMatchLen(s, i) > 0 && i + TimeMatchLen(s, i) <= |s|
    ensures ClockGroup(s[i..i + TimeMatchLen(s, i)]) == s[i..i + ClockLen(s, i)]
    ensures ClockText(s[i..i + ClockLen(s, i)])
  {
    var g := ClockLen(s, i);
    var t := s[i..i + TimeMatchLen(s, i)];
    assert t[1] == s[i + 1];
    assert t[..g] == s[i..i + g];
  }
}
