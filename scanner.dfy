/** The left-to-right, non-overlapping scan behind Python's `re.findall` and
    `re.sub` for a pattern that never matches the empty string.

    A pattern is given by `m`, the length of the match that starts at a
    position (0 when none does). The scan starts at the front; where a match
    starts it takes the whole match and resumes right after it, otherwise it
    keeps the character and moves one position on. The result is a tiling of
    the text into pieces: `findall` returns the matched pieces and `sub(…, "")`
    the kept characters. */
module Scanner {

  datatype Piece = Kept(at: nat, c: char) | Match(at: nat, text: string)

  function Width(p: Piece): nat {
    match p
    case Kept(_, _) => 1
    case Match(_, t) => |t|
  }

  /** A match of the pattern starts at `i` and lies inside `s`. */
  predicate Fits(s: string, i: nat, m: (string, nat) -> nat) {
    0 < m(s, i) && i + m(s, i) <= |s|
  }

  /** The piece is what the scan must produce at its position. */
  predicate WellPlaced(s: string, p: Piece, m: (string, nat) -> nat) {
    match p
    case Kept(at, c) => at < |s| && c == s[at] && !Fits(s, at, m)
    case Match(at, t) => Fits(s, at, m) && t == s[at..at + m(s, at)]
  }

  /** `ps` covers `s[i..]` piece after piece, each piece well placed. */
  predicate Tiling(s: string, i: nat, m: (string, nat) -> nat, ps: seq<Piece>)
    decreases |ps|
  {
    if ps == [] then i == |s|
    else ps[0].at == i && WellPlaced(s, ps[0], m) && Tiling(s, i + Width(ps[0]), m, ps[1..])
  }

  /** The piece the scan takes at `i`: the whole match when one starts
      there, otherwise the single character. */
  function Head(s: string, i: nat, m: (string, nat) -> nat): (p: Piece)
    requires i < |s|
    ensures p.at == i && 0 < Width(p) && i + Width(p) <= |s| && WellPlaced(s, p, m)
  {
    if Fits(s, i, m) then Match(i, s[i..i + m(s, i)]) else Kept(i, s[i])
  }

  /** The scan of `s` from position `i`. */
  function Segments(s: string, i: nat, m: (string, nat) -> nat): seq<Piece>
    requires i <= |s|
    decreases |s| - i
  {
    if i == |s| then [] else [Head(s, i, m)] + Segments(s, i + Width(Head(s, i, m)), m)
  }

  /** The scan's first piece and the scan after it. */
  lemma SegmentsStep(s: string, i: nat, m: (string, nat) -> nat)
    requires i < |s|
    ensures Segments(s, i, m) != []
    ensures Segments(s, i, m)[0] == Head(s, i, m)
    ensures Segments(s, i, m)[1..] == Segments(s, i + Width(Head(s, i, m)), m)
  {
  }

  /** The scan tiles the text: every piece is what the scan must produce at its position. */
  lemma {:induction false} SegmentsTile(s: string, i: nat, m: (string, nat) -> nat)
    requires i <= |s|
    ensures Tiling(s, i, m, Segments(s, i, m))
    decreases |s| - i
  {
    if i < |s| {
      SegmentsStep(s, i, m);
      SegmentsTile(s, i + Width(Head(s, i, m)), m);
    }
  }

  /** A well-placed piece is the one the scan takes at its position. */
  lemma PlacedIsHead(s: string, h: Piece, m: (string, nat) -> nat)
    requires WellPlaced(s, h, m)
    ensures h.at < |s| && h == Head(s, h.at, m)
  {
    if h.Kept? {
      assert !Fits(s, h.at, m);
    }
  }

  /** The scan is the only tiling. */
  lemma {:induction false} TilingIsUnique(s: string, i: nat, m: (string, nat) -> nat, ps: seq<Piece>)
    requires i <= |s|
    requires Tiling(s, i, m, ps)
    ensures ps == Segments(s, i, m)
    decreases |ps|
  {
    if ps != [] {
      var h := ps[0];
      PlacedIsHead(s, h, m);
      var rest := ps[1..];
      TilingIsUnique(s, i + Width(h), m, rest);
      SegmentsStep(s, i, m);
      assert ps == [h] + rest;
    }
  }

  /** The texts of the matched pieces, in order: `re.findall`. */
  function Texts(ps: seq<Piece>): seq<string> {
    if ps == [] then []
    else (if ps[0].Match? then [ps[0].text] else []) + Texts(ps[1..])
  }

  /** The kept characters, in order: `re.sub(pattern, "", …)`. */
  function Chars(ps: seq<Piece>): string {
    if ps == [] then []
    else (if ps[0].Kept? then [ps[0].c] else []) + Chars(ps[1..])
  }

  /** `re.findall(pattern, s)` */
  function FindAll(s: string, m: (string, nat) -> nat): seq<string> {
    Texts(Segments(s, 0, m))
  }

  /** `re.sub(pattern, "", s)` */
  function Sub(s: string, m: (string, nat) -> nat): string {
    Chars(Segments(s, 0, m))
  }

  /** Every match `findall` returns is a match of the pattern somewhere in `s`. */
  lemma {:induction false} FoundAreMatches(s: string, i: nat, m: (string, nat) -> nat)
    requires i <= |s|
    ensures forall t :: t in Texts(Segments(s, i, m)) ==>
              exists a: nat :: i <= a && Fits(s, a, m) && t == s[a..a + m(s, a)]
    decreases |s| - i
  {
    if i < |s| {
      var h := Head(s, i, m);
      SegmentsStep(s, i, m);
      FoundAreMatches(s, i + Width(h), m);
    }
  }

  /** The position in `s` of the `j`-th match `findall` returns. */
  lemma FoundAt(s: string, m: (string, nat) -> nat, j: nat) returns (a: nat)
    requires j < |FindAll(s, m)|
    ensures Fits(s, a, m) && FindAll(s, m)[j] == s[a..a + m(s, a)]
  {
    FoundAreMatches(s, 0, m);
    assert FindAll(s, m)[j] in FindAll(s, m);
    a :| Fits(s, a, m) && FindAll(s, m)[j] == s[a..a + m(s, a)];
  }

  /** The positions of the kept characters, in order. */
  function KeptAt(ps: seq<Piece>): seq<nat> {
    if ps == [] then []
    else (if ps[0].Kept? then [ps[0].at] else []) + KeptAt(ps[1..])
  }

  /** There are as many kept positions as kept characters. */
  lemma {:induction false} KeptCount(s: string, i: nat, m: (string, nat) -> nat)
    requires i <= |s|
    ensures |KeptAt(Segments(s, i, m))| == |Chars(Segments(s, i, m))|
    decreases |s| - i
  {
    if i < |s| {
      SegmentsStep(s, i, m);
      KeptCount(s, i + Width(Head(s, i, m)), m);
    }
  }

  /** The `j`-th of the characters `c` is the character of `s` at the `j`-th
      of the positions `k`, which lie in `s` from `i` on, and no match starts
      at any of them. */
  predicate KeptFrom(s: string, i: nat, m: (string, nat) -> nat, k: seq<nat>, c: string) {
    forall j :: 0 <= j < |k| && j < |c| ==> i <= k[j] < |s| && c[j] == s[k[j]] && !Fits(s, k[j], m)
  }

  lemma KeptFromCons(s: string, i: nat, m: (string, nat) -> nat, k: seq<nat>, c: string)
    requires i < |s| && !Fits(s, i, m) && KeptFrom(s, i + 1, m, k, c)
    ensures KeptFrom(s, i, m, [i] + k, [s[i]] + c)
  {
    var k2, c2 := [i] + k, [s[i]] + c;
    forall j | 0 < j < |k2| && j < |c2| ensures i <= k2[j] < |s| && c2[j] == s[k2[j]] && !Fits(s, k2[j], m) {
      assert k2[j] == k[j - 1] && c2[j] == c[j - 1];
    }
  }

  /** The kept characters are the characters at the kept positions, and no
      match starts there. */
  lemma {:induction false} KeptChars(s: string, i: nat, m: (string, nat) -> nat)
    requires i <= |s|
    ensures KeptFrom(s, i, m, KeptAt(Segments(s, i, m)), Chars(Segments(s, i, m)))
    decreases |s| - i
  {
    if i < |s| {
      var h := Head(s, i, m);
      var e := i + Width(h);
      SegmentsStep(s, i, m);
      KeptChars(s, e, m);
      var ps, rest := Segments(s, i, m), Segments(s, e, m);
      if h.Kept? {
        assert KeptAt(ps) == [i] + KeptAt(rest) && Chars(ps) == [s[i]] + Chars(rest);
        KeptFromCons(s, i, m, KeptAt(rest), Chars(rest));
      } else {
        assert KeptAt(ps) == KeptAt(rest) && Chars(ps) == Chars(rest);
      }
    }
  }

  /** Every position in `k` is at least `i`, and they strictly increase. */
  predicate IncreasingFrom(i: nat, k: seq<nat>) {
    (forall j :: 0 <= j < |k| ==> i <= k[j]) && forall j :: 0 < j < |k| ==> k[j - 1] < k[j]
  }

  /** The kept positions increase. */
  lemma {:induction false} KeptIncrease(s: string, i: nat, m: (string, nat) -> nat)
    requires i <= |s|
    ensures IncreasingFrom(i, KeptAt(Segments(s, i, m)))
    decreases |s| - i
  {
    if i < |s| {
      var h := Head(s, i, m);
      var e := i + Width(h);
      SegmentsStep(s, i, m);
      KeptIncrease(s, e, m);
      var ps := Segments(s, i, m);
      var k' := KeptAt(Segments(s, e, m));
      assert IncreasingFrom(e, k');
      assert ps[1..] == Segments(s, e, m);
      if h.Kept? {
        assert KeptAt(ps) == [i] + k';
      } else {
        assert KeptAt(ps) == k';
      }
    }
  }

  /** The kept characters, where they came from and that no match starts there. */
  lemma KeptPositions(s: string, i: nat, m: (string, nat) -> nat)
    requires i <= |s|
    ensures var ps := Segments(s, i, m);
            var k := KeptAt(ps);
            |k| == |Chars(ps)|
            && (forall j :: 0 <= j < |k| ==> i <= k[j] < |s| && Chars(ps)[j] == s[k[j]] && !Fits(s, k[j], m))
            && (forall j :: 0 < j < |k| ==> k[j - 1] < k[j])
  {
    KeptCount(s, i, m);
    KeptChars(s, i, m);
    KeptIncrease(s, i, m);
  }

  /** A position the scan does not keep is where a match starts. */
  lemma SkippedStartIsMatch(s: string, i: nat, m: (string, nat) -> nat)
    requires i < |s|
    requires KeptAt(Segments(s, i, m)) == [] || KeptAt(Segments(s, i, m))[0] != i
    ensures Fits(s, i, m)
  {
    SegmentsStep(s, i, m);
  }
}
