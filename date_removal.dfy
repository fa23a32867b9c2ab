/** What `DATE_REGEX.sub("", message)` (bot.py:56) leaves behind.

    A date or `tonight` match begins and ends with a word character and has
    `\b` on both sides, so the characters around a removed match are not word
    characters, and no two neighbouring characters inside a match are both
    non-word characters. Hence every run of the remaining text that has no
    two neighbouring non-word characters lay in one piece in the original
    message. Two consequences are proved here: the remaining text holds no
    date and no standalone `tonight` (so the `tonight` test at bot.py:68 only
    sees the word inside a longer word), and a time is only ever read from
    characters that were next to each other in the message and outside
    every date token. */
module DateRemoval {
  import opened Text
  import opened Scanner
  import opened Patterns

  /** Position `p` of `s` holds a character that is not a word character. */
  predicate NonWordAt(s: string, p: nat) {
    p < |s| && !IsWordChar(s[p])
  }

  /** A date match starts and ends with a word character, has non-word
      characters (or the ends of the text) around it, and has no two
      neighbouring non-word characters inside. */
  lemma DateMatchIsWordBounded(s: string, i: nat)
    requires DateMatchLen(s, i) > 0
    ensures var n := DateMatchLen(s, i);
            i + n <= |s| && IsWordChar(s[i]) && IsWordChar(s[i + n - 1])
            && (i > 0 ==> NonWordAt(s, i - 1))
            && (i + n < |s| ==> NonWordAt(s, i + n))
            && (forall t :: i <= t < i + n - 1 ==> IsWordChar(s[t]) || IsWordChar(s[t + 1]))
  {
    if !NumericDateAt(s, i) {
      forall t | i <= t < i + 7 ensures IsAsciiLetter(s[t]) {
        assert AsciiLower(s[i + (t - i)]) == "tonight"[t - i];
      }
    }
  }

  /** The text kept by a scan from `i` that removes dates: its first kept
      character, if the scan removed something before it, is not a word
      character. */
  lemma {:induction false} FirstKeptAfterRemoval(s: string, i: nat)
    requires i <= |s|
    ensures var k := KeptAt(Segments(s, i, DateMatchLen));
            |k| > 0 && k[0] != i ==> NonWordAt(s, k[0])
    decreases |s| - i
  {
    if i < |s| && Fits(s, i, DateMatchLen) {
      var e := i + DateMatchLen(s, i);
      var ps := Segments(s, i, DateMatchLen);
      assert ps[1..] == Segments(s, e, DateMatchLen);
      FirstKeptAfterRemoval(s, e);
      DateMatchIsWordBounded(s, i);
      KeptPositions(s, e, DateMatchLen);
    }
  }

  /** The last kept character of a scan from `i`, if the scan removed
      something after it, is not a word character. */
  predicate LastKeptIsNonWord(s: string, i: nat)
    requires i <= |s|
  {
    var k := KeptAt(Segments(s, i, DateMatchLen));
    |k| > 0 && k[|k| - 1] != |s| - 1 ==> NonWordAt(s, k[|k| - 1])
  }

  lemma {:induction false} LastKeptBeforeRemoval(s: string, i: nat)
    requires i <= |s|
    ensures LastKeptIsNonWord(s, i)
    decreases |s| - i
  {
    if i < |s| {
      var ps := Segments(s, i, DateMatchLen);
      if Fits(s, i, DateMatchLen) {
        var e := i + DateMatchLen(s, i);
        assert ps[1..] == Segments(s, e, DateMatchLen);
        LastKeptBeforeRemoval(s, e);
      } else {
        LastKeptBeforeRemoval(s, i + 1);
        LastKeptSkipStep(s, i);
      }
    }
  }

  /** A kept character followed by a scan whose last kept character is
      right, or by nothing kept before a removed match, keeps the property. */
  lemma LastKeptSkipStep(s: string, i: nat)
    requires i < |s| && !Fits(s, i, DateMatchLen) && LastKeptIsNonWord(s, i + 1)
    ensures LastKeptIsNonWord(s, i)
  {
    var ps := Segments(s, i, DateMatchLen);
    assert ps[1..] == Segments(s, i + 1, DateMatchLen);
    var k' := KeptAt(Segments(s, i + 1, DateMatchLen));
    var k := KeptAt(ps);
    assert k == [i] + k';
    if k' != [] {
      assert k[|k| - 1] == k'[|k'| - 1];
    } else if i + 1 < |s| {
      SkippedStartIsMatch(s, i + 1, DateMatchLen);
      DateMatchIsWordBounded(s, i + 1);
    }
  }

  /** Wherever the kept positions jump over removed matches, the kept
      characters on both sides of the jump are not word characters. */
  predicate JumpsAreNonWord(s: string, k: seq<nat>) {
    forall j :: 0 < j < |k| && k[j] != k[j - 1] + 1 ==> NonWordAt(s, k[j - 1]) && NonWordAt(s, k[j])
  }

  lemma JumpsCons(s: string, i: nat, k': seq<nat>)
    requires JumpsAreNonWord(s, k')
    requires |k'| > 0 && k'[0] != i + 1 ==> NonWordAt(s, i) && NonWordAt(s, k'[0])
    ensures JumpsAreNonWord(s, [i] + k')
  {
    var k := [i] + k';
    forall j | 0 < j < |k| && k[j] != k[j - 1] + 1 ensures NonWordAt(s, k[j - 1]) && NonWordAt(s, k[j]) {
      if j > 1 {
        assert k[j - 1] == k'[j - 2] && k[j] == k'[j - 1];
      }
    }
  }

  lemma {:induction false} KeptJumps(s: string, i: nat)
    requires i <= |s|
    ensures JumpsAreNonWord(s, KeptAt(Segments(s, i, DateMatchLen)))
    decreases |s| - i
  {
    if i < |s| {
      var ps := Segments(s, i, DateMatchLen);
      if Fits(s, i, DateMatchLen) {
        var e := i + DateMatchLen(s, i);
        assert ps[1..] == Segments(s, e, DateMatchLen);
        KeptJumps(s, e);
      } else {
        assert ps[1..] == Segments(s, i + 1, DateMatchLen);
        KeptJumps(s, i + 1);
        FirstKeptAfterRemoval(s, i + 1);
        var k' := KeptAt(Segments(s, i + 1, DateMatchLen));
        assert KeptAt(ps) == [i] + k';
        if |k'| > 0 && k'[0] != i + 1 {
          KeptPositions(s, i + 1, DateMatchLen);
          SkippedStartIsMatch(s, i + 1, DateMatchLen);
          DateMatchIsWordBounded(s, i + 1);
        }
        JumpsCons(s, i, k');
      }
    }
  }

  /** `r` is what is left of `s` after removing the characters at positions
      not in `k`, and every removal was of a word-bounded stretch. */
  predicate Remnant(s: string, k: seq<nat>, r: string) {
    |k| == |r|
    && (forall j :: 0 <= j < |k| ==> k[j] < |s| && r[j] == s[k[j]])
    && (forall j :: 0 < j < |k| ==> k[j - 1] < k[j])
    && (|k| > 0 && k[0] != 0 ==> NonWordAt(s, k[0]))
    && (|k| > 0 && k[|k| - 1] != |s| - 1 ==> NonWordAt(s, k[|k| - 1]))
    && JumpsAreNonWord(s, k)
  }

  lemma RemovalLeavesRemnant(s: string)
    ensures Remnant(s, KeptAt(Segments(s, 0, DateMatchLen)), Sub(s, DateMatchLen))
  {
    KeptPositions(s, 0, DateMatchLen);
    FirstKeptAfterRemoval(s, 0);
    LastKeptBeforeRemoval(s, 0);
    KeptJumps(s, 0);
  }

  /** A stretch of the remnant with no two neighbouring non-word characters
      comes from consecutive positions of the message. */
  lemma {:induction false} StretchIsContiguous(s: string, k: seq<nat>, r: string, q: nat, n: nat)
    requires Remnant(s, k, r)
    requires 0 < n && q + n <= |r|
    requires forall t :: q <= t < q + n - 1 ==> IsWordChar(r[t]) || IsWordChar(r[t + 1])
    ensures forall t :: q <= t < q + n ==> k[t] == k[q] + (t - q) && s[k[t]] == r[t]
    decreases n
  {
    if n > 1 {
      StretchIsContiguous(s, k, r, q, n - 1);
      var last := q + n - 1;
      assert IsWordChar(r[last - 1]) || IsWordChar(r[last]);
      assert k[last] == k[last - 1] + 1;
    }
  }

  /** `\b` before a stretch that starts with a word character holds in the
      message when it holds in the remnant. */
  lemma BoundaryBefore(s: string, k: seq<nat>, r: string, q: nat)
    requires Remnant(s, k, r)
    requires q < |r| && IsWordChar(r[q]) && Boundary(r, q)
    ensures Boundary(s, k[q])
  {
    if q > 0 && k[q - 1] + 1 == k[q] {
      assert s[k[q] - 1] == r[q - 1];
    }
  }

  /** `\b` after a stretch that ends with a word character. */
  lemma BoundaryAfter(s: string, k: seq<nat>, r: string, last: nat)
    requires Remnant(s, k, r)
    requires last < |r| && IsWordChar(r[last]) && Boundary(r, last + 1)
    ensures Boundary(s, k[last] + 1)
  {
    if last + 1 < |r| && k[last + 1] == k[last] + 1 {
      assert s[k[last] + 1] == r[last + 1];
    }
  }

  /** The `n` characters of the remnant from `q` on are the `n` characters
      of the message from `k[q]` on. */
  lemma StretchText(s: string, k: seq<nat>, r: string, q: nat, n: nat)
    requires 0 < n && q + n <= |r| && q + n <= |k|
    requires forall t :: q <= t < q + n ==> k[t] == k[q] + (t - q) && k[t] < |s| && s[k[t]] == r[t]
    ensures k[q] + n <= |s| && s[k[q]..k[q] + n] == r[q..q + n]
  {
    var a := k[q];
    assert k[q + n - 1] == a + n - 1;
    forall t | a <= t < a + n ensures s[t] == r[q + (t - a)] {
      assert k[q + (t - a)] == t;
    }
    assert s[a..a + n] == r[q..q + n];
  }

  /** Whether a date matches depends only on its own characters and on `\b`
      at both ends. */
  lemma DateMatchIsLocal(s: string, a: nat, r: string, q: nat)
    requires DateMatchLen(r, q) > 0
    requires a + DateMatchLen(r, q) <= |s|
    requires s[a..a + DateMatchLen(r, q)] == r[q..q + DateMatchLen(r, q)]
    requires Boundary(s, a) && Boundary(s, a + DateMatchLen(r, q))
    ensures DateMatchLen(s, a) > 0
  {
    var n := DateMatchLen(r, q);
    forall t | a <= t < a + n ensures s[t] == r[q + (t - a)] {
      assert s[a..a + n][t - a] == r[q..q + n][t - a];
    }
    if NumericDateAt(r, q) {
      assert NumericDateAt(s, a);
    } else {
      assert FoldedAt(s, a, "tonight");
      assert TonightAt(s, a);
    }
  }

  /** A date match in the remnant is a date match at the corresponding
      position of the message. */
  lemma MatchComesFromMessage(s: string, k: seq<nat>, r: string, q: nat)
    requires Remnant(s, k, r)
    requires q < |r| && DateMatchLen(r, q) > 0
    ensures DateMatchLen(s, k[q]) > 0
  {
    var n := DateMatchLen(r, q);
    DateMatchIsWordBounded(r, q);
    StretchIsContiguous(s, k, r, q, n);
    StretchText(s, k, r, q, n);
    assert k[q + n - 1] + 1 == k[q] + n;
    BoundaryBefore(s, k, r, q);
    BoundaryAfter(s, k, r, q + n - 1);
    DateMatchIsLocal(s, k[q], r, q);
  }

  /** `DATE_REGEX.sub("", m)` leaves no date and no standalone `tonight`:
      substituting a second time changes nothing. */
  lemma RemainderHasNoDate(s: string)
    ensures forall q: nat :: DateMatchLen(Sub(s, DateMatchLen), q) == 0
  {
    var r := Sub(s, DateMatchLen);
    var k := KeptAt(Segments(s, 0, DateMatchLen));
    RemovalLeavesRemnant(s);
    KeptPositions(s, 0, DateMatchLen);
    forall q: nat ensures DateMatchLen(r, q) == 0 {
      if q < |r| && DateMatchLen(r, q) > 0 {
        MatchComesFromMessage(s, k, r, q);
        DateMatchIsWordBounded(s, k[q]);
      }
    }
  }

  /** When the text left after removing dates contains `tonight` (the test at
      bot.py:68), that occurrence is part of a longer word. */
  lemma TonightLeftIsEmbedded(s: string, q: nat)
    requires FoldedAt(Sub(s, DateMatchLen), q, "tonight")
    ensures !Boundary(Sub(s, DateMatchLen), q) || !Boundary(Sub(s, DateMatchLen), q + 7)
  {
    RemainderHasNoDate(s);
    assert DateMatchLen(Sub(s, DateMatchLen), q) == 0;
  }

  /** The `g` characters of the remnant `r` from `q` are the `g` characters
      of `s` from `k[q]`, kept at consecutive positions. */
  predicate FromOneStretch(s: string, k: seq<nat>, r: string, q: nat, g: nat) {
    0 < g && q + g <= |k| && q + g <= |r|
    && (forall t :: q <= t < q + g ==> k[t] == k[q] + (t - q))
    && k[q] + g <= |s| && s[k[q]..k[q] + g] == r[q..q + g]
  }

  /** The clock text of a time in the remnant lies in one stretch of the message. */
  lemma ClockStretch(s: string, k: seq<nat>, r: string, q: nat)
    requires Remnant(s, k, r)
    requires ClockLen(r, q) > 0
    ensures FromOneStretch(s, k, r, q, ClockLen(r, q))
  {
    var g := ClockLen(r, q);
    assert forall t :: q <= t < q + g - 1 ==> IsWordChar(r[t]) || IsWordChar(r[t + 1]);
    StretchIsContiguous(s, k, r, q, g);
    StretchText(s, k, r, q, g);
  }

  /** Every time found after the dates are removed consists of characters
      that stand next to each other in the message and outside every date
      token: no time is read from inside a date or across a removed one. */
  lemma TimeComesFromOneStretch(s: string, q: nat)
    requires q < |Sub(s, DateMatchLen)|
    requires TimeMatchLen(Sub(s, DateMatchLen), q) > 0
    ensures FromOneStretch(s, KeptAt(Segments(s, 0, DateMatchLen)), Sub(s, DateMatchLen), q,
                           ClockLen(Sub(s, DateMatchLen), q))
  {
    RemovalLeavesRemnant(s);
    ClockStretch(s, KeptAt(Segments(s, 0, DateMatchLen)), Sub(s, DateMatchLen), q);
  }
}
