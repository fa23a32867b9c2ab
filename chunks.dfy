/** Running the scans over a text known piece by piece: the left-to-right
    scan steps over a stretch where the pattern cannot match, or over one
    match, and each pattern has a test on a piece's own characters that
    rules out a match inside it. The sample messages are taken apart this
    way. */
module Chunks {
  import opened Results
  import opened Text
  import opened Scanner
  import opened Patterns

  /** `c` sits at position `i` of `s`. */
  predicate At(s: string, i: nat, c: string) {
    i + |c| <= |s| && forall j :: 0 <= j < |c| ==> s[i + j] == c[j]
  }

  lemma AtSlice(s: string, i: nat, c: string)
    requires At(s, i, c)
    ensures s[i..i + |c|] == c
  {
  }

  /** A piece of a piece of `s` is a piece of `s`. */
  lemma AtWithin(s: string, i: nat, b: string, j: nat, c: string)
    requires At(s, i, b) && At(b, j, c)
    ensures At(s, i + j, c)
  {
    forall k | 0 <= k < |c| ensures s[i + j + k] == c[k] {
      assert s[i + (j + k)] == b[j + k];
    }
  }

  /** The two halves of a piece are pieces. */
  lemma AtSplit(s: string, i: nat, a: string, b: string)
    requires At(s, i, a + b)
    ensures At(s, i, a) && At(s, i + |a|, b)
  {
    forall k | 0 <= k < |a| ensures s[i + k] == a[k] {
      assert (a + b)[k] == a[k];
    }
    forall k | 0 <= k < |b| ensures s[i + |a| + k] == b[k] {
      assert s[i + (|a| + k)] == (a + b)[|a| + k];
    }
  }

  /** A text made of three pieces holds each where it begins. */
  lemma ThreeParts(s: string, a: string, b: string, c: string, p: nat, q: nat)
    requires s == a + b + c && p == |a| && q == p + |b|
    ensures At(s, 0, a) && At(s, p, b) && At(s, q, c) && |s| == q + |c|
  {
    forall k | 0 <= k < |b| ensures s[p + k] == b[k] {
      assert s[p + k] == (a + b)[p + k];
    }
    forall k | 0 <= k < |c| ensures s[q + k] == c[k] {
    }
  }

  /** A text made of two pieces holds each where it begins. */
  lemma TwoParts(s: string, a: string, b: string, p: nat)
    requires s == a + b && p == |a|
    ensures At(s, 0, a) && At(s, p, b) && |s| == p + |b|
  {
    forall k | 0 <= k < |b| ensures s[p + k] == b[k] {
    }
  }

  /** Two pieces side by side make one. */
  lemma AtJoin(s: string, i: nat, a: string, b: string)
    requires At(s, i, a) && At(s, i + |a|, b)
    ensures At(s, i, a + b)
  {
    forall k | 0 <= k < |a + b| ensures s[i + k] == (a + b)[k] {
      if k >= |a| {
        assert s[(i + |a|) + (k - |a|)] == b[k - |a|];
      }
    }
  }

  /** A character no scan can start on: no digit, no `@`, no `t` in either case. */
  predicate Bland(x: char) {
    !IsDigit(x) && x != '@' && AsciiLower(x) != 't'
  }

  predicate Plain(c: string) {
    forall k :: 0 <= k < |c| ==> Bland(c[k])
  }

  lemma PlainJoin(a: string, b: string)
    requires Plain(a) && Plain(b)
    ensures Plain(a + b)
  {
    assert forall k :: |a| <= k < |a + b| ==> (a + b)[k] == b[k - |a|];
  }

  /** A plain piece is quiet for every pattern. */
  lemma PlainIsQuiet(c: string, last: bool)
    requires Plain(c)
    ensures DateQuiet(c) && NoDigit(c) && NoAt(c) && FoldQuiet(c, last)
  {
  }

  // ------------------------------------------------------------ scan steps

  /** Where no match starts, the scan keeps every character and finds nothing. */
  lemma {:induction false} QuietRun(s: string, i: nat, j: nat, m: (string, nat) -> nat)
    requires i <= j <= |s|
    requires forall p :: i <= p < j ==> !Fits(s, p, m)
    ensures Texts(Segments(s, i, m)) == Texts(Segments(s, j, m))
    ensures Chars(Segments(s, i, m)) == s[i..j] + Chars(Segments(s, j, m))
    decreases j - i
  {
    if i < j {
      var ps := Segments(s, i, m);
      SegmentsStep(s, i, m);
      QuietRun(s, i + 1, j, m);
      assert ps[0] == Kept(i, s[i]);
      assert Texts(ps) == Texts(ps[1..]);
      var rest := Chars(Segments(s, j, m));
      assert Chars(ps) == [s[i]] + (s[i + 1..j] + rest);
      KeepOne(s, i, j, rest);
    }
  }

  lemma KeepOne(s: string, i: nat, j: nat, rest: string)
    requires i < j <= |s|
    ensures [s[i]] + (s[i + 1..j] + rest) == s[i..j] + rest
  {
    assert s[i..j] == [s[i]] + s[i + 1..j];
  }

  /** Where a match starts, the scan takes it whole. */
  lemma MatchStep(s: string, i: nat, m: (string, nat) -> nat)
    requires Fits(s, i, m)
    ensures Texts(Segments(s, i, m)) == [s[i..i + m(s, i)]] + Texts(Segments(s, i + m(s, i), m))
    ensures Chars(Segments(s, i, m)) == Chars(Segments(s, i + m(s, i), m))
  {
    var ps := Segments(s, i, m);
    SegmentsStep(s, i, m);
    assert ps[0] == Match(i, s[i..i + m(s, i)]);
    assert Texts(ps) == [ps[0].text] + Texts(ps[1..]);
  }

  /** Where the match at `i` is exactly the piece `c`, the scan takes `c`
      and resumes at `j`, right after it. */
  lemma Take(s: string, i: nat, j: nat, c: string, m: (string, nat) -> nat)
    requires j == i + |c| && At(s, i, c) && Fits(s, i, m) && m(s, i) == |c|
    ensures Texts(Segments(s, i, m)) == [c] + Texts(Segments(s, j, m))
    ensures Chars(Segments(s, i, m)) == Chars(Segments(s, j, m))
  {
    MatchStep(s, i, m);
    AtSlice(s, i, c);
  }

  lemma ScanEnd(s: string, m: (string, nat) -> nat)
    ensures Texts(Segments(s, |s|, m)) == [] && Chars(Segments(s, |s|, m)) == []
  {
  }

  /** Over a piece where no date can start, the date scan keeps the piece
      and finds nothing. */
  lemma DateSkip(s: string, i: nat, j: nat, c: string)
    requires j == i + |c| && At(s, i, c) && DateQuiet(c)
    ensures j <= |s|
    ensures Texts(Segments(s, i, DateMatchLen)) == Texts(Segments(s, j, DateMatchLen))
    ensures Chars(Segments(s, i, DateMatchLen)) == c + Chars(Segments(s, j, DateMatchLen))
  {
    DateQuietAt(s, i, c);
    QuietRun(s, i, j, DateMatchLen);
    AtSlice(s, i, c);
  }

  /** Over a piece with no digit, the time scan finds nothing. */
  lemma TimeSkip(s: string, i: nat, j: nat, c: string)
    requires j == i + |c| && At(s, i, c) && NoDigit(c)
    ensures j <= |s|
    ensures Texts(Segments(s, i, TimeMatchLen)) == Texts(Segments(s, j, TimeMatchLen))
  {
    TimeQuietAt(s, i, c);
    QuietRun(s, i, j, TimeMatchLen);
  }

  /** Over a piece with no `@`, the mention scan finds nothing. */
  lemma MentionSkip(s: string, i: nat, j: nat, c: string)
    requires j == i + |c| && At(s, i, c) && NoAt(c)
    ensures j <= |s|
    ensures Texts(Segments(s, i, MentionMatchLen)) == Texts(Segments(s, j, MentionMatchLen))
  {
    MentionQuietAt(s, i, c);
    QuietRun(s, i, j, MentionMatchLen);
  }

  // ---------------------------------------------------------------- dates

  /** A position of `c` where DATE_REGEX cannot match, judged from `c` alone. */
  predicate DateDeadIn(c: string, k: nat)
    requires k < |c|
  {
    (!IsDigit(c[k]) && AsciiLower(c[k]) != 't')
    || (0 < k && IsWordChar(c[k - 1]) && IsWordChar(c[k]))
    || (IsDigit(c[k]) && k + 2 < |c| && !(IsDigit(c[k + 1]) && IsDateSep(c[k + 2])))
    || (IsDigit(c[k]) && k + 5 < |c| && !IsDateSep(c[k + 5]))
    || (!IsDigit(c[k]) && k + 2 < |c| && (AsciiLower(c[k + 1]) != 'o' || AsciiLower(c[k + 2]) != 'n'))
  }

  predicate DateQuiet(c: string) {
    forall k :: 0 <= k < |c| ==> DateDeadIn(c, k)
  }

  lemma DateQuietAt(s: string, i: nat, c: string)
    requires At(s, i, c) && DateQuiet(c)
    ensures forall p :: i <= p < i + |c| ==> !Fits(s, p, DateMatchLen)
  {
    forall p | i <= p < i + |c| ensures DateMatchLen(s, p) == 0 {
      var k := p - i;
      assert DateDeadIn(c, k);
      assert s[p] == c[k];
      if 0 < k {
        assert s[p - 1] == c[k - 1];
      }
      if k + 2 < |c| {
        assert s[p + 1] == c[k + 1] && s[p + 2] == c[k + 2];
      }
      if k + 5 < |c| {
        assert s[p + 5] == c[k + 5];
      }
      TonightStart(s, p);
    }
  }

  /** `tonight` starts with `t`, `o`, `n`, in either case. */
  lemma TonightStart(s: string, p: nat)
    ensures FoldedAt(s, p, "tonight") ==>
              AsciiLower(s[p]) == 't' && AsciiLower(s[p + 1]) == 'o' && AsciiLower(s[p + 2]) == 'n'
  {
    if FoldedAt(s, p, "tonight") {
      var w := "tonight";
      assert AsciiLower(s[p + 0]) == w[0];
      assert AsciiLower(s[p + 1]) == w[1];
      assert AsciiLower(s[p + 2]) == w[2];
    }
  }

  /** What the first DATE_REGEX alternative matches, by shape. */
  predicate DateShape(c: string) {
    |c| == 10 && IsDigit(c[0]) && IsDigit(c[1]) && IsDateSep(c[2]) && IsDigit(c[3]) && IsDigit(c[4])
    && IsDateSep(c[5]) && IsDigit(c[6]) && IsDigit(c[7]) && IsDigit(c[8]) && IsDigit(c[9])
  }

  /** A numeric date with no word character on either side is a match. */
  lemma DateHere(s: string, i: nat, c: string)
    requires At(s, i, c) && DateShape(c)
    requires i == 0 || !IsWordChar(s[i - 1])
    requires i + 10 == |s| || !IsWordChar(s[i + 10])
    ensures Fits(s, i, DateMatchLen) && DateMatchLen(s, i) == 10
  {
    assert s[i] == c[0] && s[i + 9] == c[9];
    assert NumericDateAt(s, i);
  }

  /** A standalone `tonight` is a match. */
  lemma TonightHere(s: string, i: nat)
    requires At(s, i, "tonight")
    requires i == 0 || !IsWordChar(s[i - 1])
    requires i + 7 == |s| || !IsWordChar(s[i + 7])
    ensures Fits(s, i, DateMatchLen) && DateMatchLen(s, i) == 7
  {
    var w := "tonight";
    assert s[i + 0] == w[0];
    assert s[i + 6] == w[6];
    assert forall k :: 0 <= k < 7 ==> AsciiLower(s[i + k]) == w[k];
  }

  // ---------------------------------------------------------------- times

  predicate NoDigit(c: string) {
    forall k :: 0 <= k < |c| ==> !IsDigit(c[k])
  }

  lemma TimeQuietAt(s: string, i: nat, c: string)
    requires At(s, i, c) && NoDigit(c)
    ensures forall p :: i <= p < i + |c| ==> !Fits(s, p, TimeMatchLen)
  {
    forall p | i <= p < i + |c| ensures TimeMatchLen(s, p) == 0 {
      assert s[p] == c[p - i];
    }
  }

  /** Group 1 of TIME_REGEX as it stands in the text: `H:MM` or `HH:MM` with
      either separator. */
  predicate ClockShape(g: string) {
    ClockText(g) && (|g| == 5 ==> IsDigit(g[1]))
  }

  lemma ClockHere(s: string, i: nat, g: string)
    requires At(s, i, g) && ClockShape(g)
    ensures ClockLen(s, i) == |g|
  {
    assert s[i] == g[0] && s[i + 1] == g[1] && s[i + 2] == g[2] && s[i + 3] == g[3];
    if |g| == 5 {
      assert s[i + 4] == g[4];
    }
  }

  /** TIME_REGEX's match length from its parts. */
  lemma TimeFromParts(s: string, i: nat, g: nat, w: nat, t: nat)
    requires 0 < g && ClockLen(s, i) == g && Boundary(s, i)
    requires i + g + w <= |s| && SpaceRun(s, i + g) == w && TailLen(s, i + g, w) == Some(t)
    requires i + g + t <= |s|
    ensures Fits(s, i, TimeMatchLen) && TimeMatchLen(s, i) == g + t
  {
  }

  lemma SpaceRunOne(s: string, e: nat)
    requires e + 1 < |s| && IsSpace(s[e]) && !IsSpace(s[e + 1])
    ensures SpaceRun(s, e) == 1
  {
    assert SpaceRun(s, e + 1) == 0;
  }

  /** A clock ends at `e` and is followed by one whitespace character and a
      character that is neither whitespace nor a word character: `\s*`
      gives its space back and no zone is taken. */
  lemma TailBare(s: string, e: nat)
    requires 0 < e && e + 1 < |s| && IsWordChar(s[e - 1])
    requires IsSpace(s[e]) && !IsWordChar(s[e])
    requires !IsSpace(s[e + 1]) && !IsWordChar(s[e + 1])
    ensures TailLen(s, e, 1) == Some(0)
  {
    assert !LiteralAt(s, e + 1, "CET") && !LiteralAt(s, e + 1, "ST") by {
      assert s[e + 1] != 'C' && s[e + 1] != 'S';
    }
    assert !LiteralAt(s, e, "CET") && !LiteralAt(s, e, "ST") by {
      assert s[e] != 'C' && s[e] != 'S';
    }
    assert TailLen(s, e, 0) == Some(0);
  }

  /** A clock followed by one whitespace character and then a character
      that is neither whitespace nor a word character: the match is the
      clock alone. */
  lemma TimeBare(s: string, i: nat, g: string)
    requires At(s, i, g) && ClockShape(g)
    requires i == 0 || !IsWordChar(s[i - 1])
    requires i + |g| + 1 < |s| && IsSpace(s[i + |g|]) && !IsWordChar(s[i + |g|])
    requires !IsSpace(s[i + |g| + 1]) && !IsWordChar(s[i + |g| + 1])
    ensures Fits(s, i, TimeMatchLen) && TimeMatchLen(s, i) == |g|
  {
    var e := i + |g|;
    ClockHere(s, i, g);
    assert s[i + 0] == g[0];
    assert IsWordChar(s[e - 1]) by { assert s[i + (|g| - 1)] == g[|g| - 1]; }
    SpaceRunOne(s, e);
    TailBare(s, e);
    TimeFromParts(s, i, |g|, 1, 0);
  }

  /** After a clock ending at `e`: one space and a zone label `z` that no
      word character follows; the label is taken. */
  lemma TailZoned(s: string, e: nat, z: string)
    requires z == "CET" || z == "ST"
    requires At(s, e, " " + z)
    requires e + 1 + |z| == |s| || !IsWordChar(s[e + 1 + |z|])
    ensures TailLen(s, e, 1) == Some(1 + |z|)
  {
    var t := " " + z;
    assert s[e + 1] == t[1] == z[0];
    assert s[e + |z|] == t[|z|] == 'T';
    if z == "CET" {
      assert s[e + 2] == t[2] == 'E';
      assert LiteralAt(s, e + 1, "CET");
    } else {
      assert !LiteralAt(s, e + 1, "CET");
      assert LiteralAt(s, e + 1, "ST");
    }
  }

  /** A clock, one space and a zone label `z` (`CET` or `ST`) that no word
      character follows: the label is part of the match. */
  lemma TimeZoned(s: string, i: nat, g: string, z: string)
    requires At(s, i, g) && ClockShape(g)
    requires z == "CET" || z == "ST"
    requires At(s, i + |g|, " " + z)
    requires i == 0 || !IsWordChar(s[i - 1])
    requires i + |g| + 1 + |z| == |s| || !IsWordChar(s[i + |g| + 1 + |z|])
    ensures Fits(s, i, TimeMatchLen) && TimeMatchLen(s, i) == |g| + 1 + |z|
  {
    var e := i + |g|;
    ClockHere(s, i, g);
    ClockEnds(s, i, g);
    ZoneStart(s, e, z);
    SpaceRunOne(s, e);
    TailZoned(s, e, z);
    TimeFromParts(s, i, |g|, 1, 1 + |z|);
  }

  lemma ClockEnds(s: string, i: nat, g: string)
    requires At(s, i, g) && ClockShape(g)
    ensures 0 < i + |g| && IsWordChar(s[i + |g| - 1])
  {
    assert s[i + (|g| - 1)] == g[|g| - 1];
  }

  lemma ZoneStart(s: string, e: nat, z: string)
    requires z == "CET" || z == "ST"
    requires At(s, e, " " + z)
    ensures e + 1 < |s| && IsSpace(s[e]) && !IsSpace(s[e + 1])
  {
    var t := " " + z;
    assert s[e + 0] == t[0] == ' ';
    assert s[e + 1] == t[1] == z[0];
  }

  // ------------------------------------------------------------- mentions

  predicate NoAt(c: string) {
    forall k :: 0 <= k < |c| ==> c[k] != '@'
  }

  lemma MentionQuietAt(s: string, i: nat, c: string)
    requires At(s, i, c) && NoAt(c)
    ensures forall p :: i <= p < i + |c| ==> !Fits(s, p, MentionMatchLen)
  {
    forall p | i <= p < i + |c| ensures MentionMatchLen(s, p) == 0 {
      assert s[p] == c[p - i];
    }
  }

  lemma AllianceHere(s: string, i: nat)
    requires At(s, i, Alliance)
    ensures Fits(s, i, MentionMatchLen) && MentionMatchLen(s, i) == |Alliance|
  {
    AtSlice(s, i, Alliance);
  }

  lemma HordeHere(s: string, i: nat)
    requires At(s, i, Horde)
    ensures Fits(s, i, MentionMatchLen) && MentionMatchLen(s, i) == |Horde|
  {
    AtSlice(s, i, Horde);
    assert s[i + 8] == 'H';
    assert !LiteralAt(s, i, Alliance);
  }

  lemma RendHere(s: string, i: nat)
    requires At(s, i, Rend)
    ensures Fits(s, i, MentionMatchLen) && MentionMatchLen(s, i) == |Rend|
  {
    AtSlice(s, i, Rend);
    assert s[i + 1] == 'R';
    assert !LiteralAt(s, i, Alliance) && !LiteralAt(s, i, Horde);
  }

  // -------------------------------------------------------------- tonight

  /** A position of `c` where `tonight` cannot start, judged from `c` alone;
      when `c` ends the text, a position too close to the end cannot either. */
  predicate FoldDeadIn(c: string, k: nat, last: bool)
    requires k < |c|
  {
    AsciiLower(c[k]) != 't'
    || (k + 1 < |c| && AsciiLower(c[k + 1]) != 'o')
    || (k + 2 < |c| && AsciiLower(c[k + 2]) != 'n')
    || (last && |c| < k + 7)
  }

  predicate FoldQuiet(c: string, last: bool) {
    forall k :: 0 <= k < |c| ==> FoldDeadIn(c, k, last)
  }

  lemma FoldQuietAt(s: string, i: nat, c: string, last: bool)
    requires At(s, i, c) && FoldQuiet(c, last)
    requires last ==> i + |c| == |s|
    ensures forall p :: i <= p < i + |c| ==> !FoldedAt(s, p, "tonight")
  {
    forall p | i <= p < i + |c| ensures !FoldedAt(s, p, "tonight") {
      var k := p - i;
      assert FoldDeadIn(c, k, last);
      assert s[p] == c[k];
      if k + 1 < |c| {
        assert s[p + 1] == c[k + 1];
      }
      if k + 2 < |c| {
        assert s[p + 2] == c[k + 2];
      }
      TonightStart(s, p);
    }
  }
}
