/** The sample announcements of temp.py:87-106 run through the parser, each
    stated as the exact list of events it yields. Each message is written as
    the pieces the proofs take it apart into; `today` stands for the day the
    parser runs. */
module Samples {
  import opened Results
  import opened Text
  import opened Scanner
  import opened Patterns
  import opened WallClock
  import opened BuffParser
  import opened Chunks

  // ---------------------------------------------------------------- pieces

  const Victory: string := "<Victory>"
  const WillPop: string := " will pop "
  const Newline: string := "\n"
  const Layer: string := "+- few mins " + "depending " + "on layer cd"

  lemma VictoryIsQuiet()
    ensures DateQuiet(Victory) && NoDigit(Victory) && NoAt(Victory) && FoldQuiet(Victory, false)
  {
  }

  lemma RendIsQuiet()
    ensures DateQuiet(Rend) && NoDigit(Rend) && FoldQuiet(Rend, false)
  {
  }

  lemma HordeIsQuiet()
    ensures DateQuiet(Horde) && NoDigit(Horde) && FoldQuiet(Horde, false)
  {
  }

  lemma PlainPieces()
    ensures Plain(WillPop) && Plain(Newline)
  {
  }

  lemma LayerIsPlain()
    ensures Plain(Layer) && |Layer| == 33 && Layer[0] == '+'
  {
    PlainJoin("+- few mins ", "depending ");
    PlainJoin("+- few mins " + "depending ", "on layer cd");
  }

  /** A clock piece: `HH:MM`, no `@`, no `t`, and no date with the line feed after it. */
  predicate ClockPiece(clock: string) {
    ClockShape(clock) && |clock| == 5 && clock[2] == ':' && NoAt(clock) && FoldQuiet(clock, false)
    && DateQuiet(clock + Newline)
  }

  type Hour = h: nat | h <= 23
  type Minute = m: nat | m <= 59

  /** A time of day as `strftime("%H:%M")` writes it. */
  function Clock(h: Hour, m: Minute): string {
    Padded(h, 2) + ":" + Padded(m, 2)
  }

  lemma ClockIsPiece(h: Hour, m: Minute)
    ensures ClockPiece(Clock(h, m)) && NormalizeTime(Clock(h, m)) == Clock(h, m) && TimeText(Clock(h, m))
    ensures HourOf(Clock(h, m)) == h && MinuteOf(Clock(h, m)) == m
  {
    ClockIsShaped(h, m);
    ClockIsQuiet(h, m);
    ClockReads(h, m);
  }

  lemma ClockIsShaped(h: Hour, m: Minute)
    ensures ClockShape(Clock(h, m)) && |Clock(h, m)| == 5 && Clock(h, m)[2] == ':'
  {
    ClockLayout(h, m);
  }

  /** A clock starts no mention and no `tonight`, and is no date with a line feed after it. */
  lemma ClockIsQuiet(h: Hour, m: Minute)
    ensures NoAt(Clock(h, m)) && FoldQuiet(Clock(h, m), false) && DateQuiet(Clock(h, m) + Newline)
  {
    ClockLayout(h, m);
    ClockThen(h, m, '\n');
  }

  /** A clock is its own normal form and reads back as its hour and minute. */
  lemma ClockReads(h: Hour, m: Minute)
    ensures NormalizeTime(Clock(h, m)) == Clock(h, m) && TimeText(Clock(h, m))
    ensures HourOf(Clock(h, m)) == h && MinuteOf(Clock(h, m)) == m
  {
    ClockLayout(h, m);
    ClockIsNormal(Clock(h, m));
    ClockValues(h, m);
  }

  /** A clock followed by a character that starts nothing is no date. */
  lemma ClockThen(h: Hour, m: Minute, x: char)
    requires Bland(x) && !IsDateSep(x)
    ensures DateQuiet(Clock(h, m) + [x])
  {
    var c := Clock(h, m) + [x];
    ClockLayout(h, m);
    assert c[5] == x;
    assert DateDeadIn(c, 0) && DateDeadIn(c, 3) && DateDeadIn(c, 4);
  }

  lemma ClockLayout(h: Hour, m: Minute)
    ensures |Clock(h, m)| == 5 && Clock(h, m)[2] == ':'
    ensures IsDigit(Clock(h, m)[0]) && IsDigit(Clock(h, m)[1]) && IsDigit(Clock(h, m)[3]) && IsDigit(Clock(h, m)[4])
  {
  }

  lemma ClockValues(h: Hour, m: Minute)
    ensures TimeText(Clock(h, m)) && HourOf(Clock(h, m)) == h && MinuteOf(Clock(h, m)) == m
  {
    ClockLayout(h, m);
    assert Clock(h, m)[..2] == Padded(h, 2) && Clock(h, m)[3..] == Padded(m, 2);
    PaddedValue(h, 2);
    PaddedValue(m, 2);
  }

  // --------------------------------------------------------------- helpers

  /** A message that opens with `<name>` is credited to `name` when the name
      has no `>` and no surrounding whitespace. */
  lemma GuildInFront(s: string, name: string)
    requires At(s, 0, "<" + name + ">")
    requires name != [] && !IsSpace(name[0]) && !IsSpace(name[|name| - 1])
    requires forall k :: 0 <= k < |name| ==> name[k] != '>'
    ensures GuildName(s) == name
  {
    var q := |name| + 1;
    GuildChars(s, name);
    FirstClose(s, q);
    GuildNameIsFirstMatch(s, 0);
    StripUnpadded(name);
  }

  lemma GuildChars(s: string, name: string)
    requires At(s, 0, "<" + name + ">")
    requires name != [] && forall k :: 0 <= k < |name| ==> name[k] != '>'
    ensures |name| + 1 < |s| && s[0] == '<' && s[|name| + 1] == '>' && s[1..|name| + 1] == name
    ensures forall k :: 1 <= k <= |name| ==> s[k] != '>'
  {
    var w := "<" + name + ">";
    assert s[0 + 0] == w[0];
    assert s[0 + (|name| + 1)] == w[|name| + 1];
    forall k | 1 <= k <= |name| ensures s[k] == name[k - 1] {
      assert s[0 + k] == w[k];
    }
  }

  /** The first `>` after the opening `<` is at `q`. */
  lemma FirstClose(s: string, q: nat)
    requires 1 <= q < |s| && s[q] == '>'
    requires forall k :: 1 <= k < q ==> s[k] != '>'
    ensures FirstFrom(s, '>', 1) == Some(q)
  {
  }

  /** The date `strftime` gives for today, read back with a time. */
  lemma TodayAt(today: Date, time: string)
    requires ValidDate(today) && TimeText(time)
    requires HourOf(time) <= 23 && MinuteOf(time) <= 59
    ensures Strptime(FormatDate(today), time) == Some(WallTime(today, HourOf(time), MinuteOf(time)))
  {
    FormatDateRoundTrip(today);
    StrptimeAcceptsValid(FormatDate(today), time);
  }

  lemma MentionColors()
    ensures ColorOf(Alliance) == "7" && ColorOf(Horde) == "11" && ColorOf(Rend) == "11"
  {
    assert Alliance[1] == 'O' && Rend[1] == 'R';
    assert Alliance[8] == 'A' && Horde[8] == 'H';
  }

  /** A clock text with neither padding nor `.` is its own normal form. */
  lemma ClockIsNormal(t: string)
    requires ClockShape(t) && |t| == 5 && t[2] == ':'
    ensures NormalizeTime(t) == t && TimeText(t)
  {
    assert ClockGroup(t) == t[..5] == t;
    StripUnpadded(t);
  }

  /** The times of a text whose TIME_REGEX matches normalise to `ts`. */
  lemma TimesAre(text: string, ts: seq<string>)
    requires |FindAll(text, TimeMatchLen)| == |ts|
    requires forall k :: 0 <= k < |ts| ==> NormalizeTime(FindAll(text, TimeMatchLen)[k]) == ts[k]
    ensures Times(text) == ts
  {
  }

  /** With no date kept and no "tonight" left, every time is today. */
  lemma DatesAreToday(message: string, today: Date)
    requires ValidDate(today)
    requires KeptDates(FindAll(message, DateMatchLen)) == []
    requires !ContainsFolded(WithoutDates(message), "tonight")
    ensures Dates(message, today) == seq(|Times(WithoutDates(message))|, _ => FormatDate(today))
  {
  }

  /** With dates kept and no "tonight" left, the dates are the kept ones. */
  lemma DatesAreKept(message: string, today: Date)
    requires ValidDate(today)
    requires KeptDates(FindAll(message, DateMatchLen)) != []
    requires !ContainsFolded(WithoutDates(message), "tonight")
    ensures Dates(message, today) == KeptDates(FindAll(message, DateMatchLen))
  {
  }

  lemma TokensAre(message: string, today: Date, g: string, ds: seq<string>, ts: seq<string>, ms: seq<string>)
    requires ValidDate(today)
    requires GuildName(message) == g && Dates(message, today) == ds
    requires Times(WithoutDates(message)) == ts && Mentions(WithoutDates(message)) == ms
    ensures Tokenize(message, today) == Tokens(g, ds, ts, ms)
  {
  }

  /** Tokens whose every time gives the event listed at its index are
      assembled into exactly that list, unless one of those events falls on
      an outermost day. */
  lemma AssembledAs(tk: Tokens, es: seq<Event>)
    requires Pairable(tk) && tk.mentions != [] && |es| == |tk.times|
    requires forall i :: 0 <= i < |es| ==> Candidate(tk, i) == Some(es[i])
    ensures Assemble(tk) == if OnOutermostDay(es) then Err(LocalizeOverflow) else Ok(es)
  {
    var cs := Candidates(tk);
    assert forall i :: 0 <= i < |es| ==> cs[i] == Some(es[i]);
    PresentOfSomes(cs, es);
    if OnOutermostDay(es) {
      var i :| 0 <= i < |es| && LocalizeOverflows(es[i].at);
      assert Overflows(cs[i]);
    }
  }

  /** Some event falls on an outermost day. */
  predicate OnOutermostDay(es: seq<Event>) {
    exists i :: 0 <= i < |es| && LocalizeOverflows(es[i].at)
  }

  lemma {:induction false} PresentOfSomes<T>(os: seq<Option<T>>, xs: seq<T>)
    requires |os| == |xs| && forall i :: 0 <= i < |os| ==> os[i] == Some(xs[i])
    ensures Present(os) == xs
  {
    if os != [] {
      var n := |os| - 1;
      PresentOfSomes(os[..n], xs[..n]);
      assert xs == xs[..n] + [xs[n]];
    }
  }

  lemma ParseIs(message: string, today: Date, tk: Tokens, r: Result<seq<Event>, ParseError>)
    requires ValidDate(today) && Tokenize(message, today) == tk
    requires Assemble(tk) == r
    ensures Parse(message, today) == r
  {
  }

  // ------------------------------------------------------------- pop lines

  /** `<Victory> will pop <mention><dash><clock>` and its line feed. */
  function PopLine(m: string, dash: string, clock: string): string {
    Victory + WillPop + m + dash + clock + Newline
  }

  /** What a pop line's own pieces must be for the scans below; every
      `Pop` below has them. */
  predicate PopPieces(m: string, dash: string, clock: string) {
    (m == Rend || m == Horde) && Plain(dash) && dash != [] && dash[|dash| - 1] == ' ' && ClockPiece(clock)
  }

  /** The pieces of a pop line in place from `i`: its mention starts at
      `p`, its dash at `q`, its clock at `c`, and the line ends at `j`. */
  predicate PopLineAt(s: string, i: nat, p: nat, q: nat, c: nat, j: nat, m: string, dash: string, clock: string) {
    p == i + 19 && q == p + |m| && c == q + |dash| && |clock| == 5 && j == c + 6
    && At(s, i, Victory) && At(s, i + 9, WillPop) && At(s, p, m) && At(s, q, dash)
    && At(s, c, clock) && At(s, c + 5, Newline)
  }

  lemma PopLineLayout(s: string, i: nat, m: string, dash: string, clock: string) returns (p: nat, q: nat, c: nat, j: nat)
    requires At(s, i, PopLine(m, dash, clock)) && |clock| == 5
    ensures PopLineAt(s, i, p, q, c, j, m, dash, clock) && j == i + |PopLine(m, dash, clock)|
  {
    var v := Victory + WillPop;
    p, q, c, j := i + 19, i + 19 + |m|, i + 19 + |m| + |dash|, i + 25 + |m| + |dash|;
    AtSplit(s, i, v + m + dash + clock, Newline);
    AtSplit(s, i, v + m + dash, clock);
    AtSplit(s, i, v + m, dash);
    AtSplit(s, i, v, m);
    AtSplit(s, i, Victory, WillPop);
  }

  lemma PopLineDates(s: string, i: nat, p: nat, q: nat, c: nat, j: nat, m: string, dash: string, clock: string)
    requires PopPieces(m, dash, clock) && PopLineAt(s, i, p, q, c, j, m, dash, clock)
    ensures forall k :: i <= k < j ==> !Fits(s, k, DateMatchLen)
  {
    VictoryIsQuiet();
    RendIsQuiet();
    HordeIsQuiet();
    PlainPieces();
    PlainIsQuiet(dash, false);
    DateQuietAt(s, i, Victory);
    DateQuietAt(s, i + 9, WillPop);
    DateQuietAt(s, p, m);
    DateQuietAt(s, q, dash);
    AtJoin(s, c, clock, Newline);
    DateQuietAt(s, c, clock + Newline);
  }

  lemma PopLineNoTonight(s: string, i: nat, p: nat, q: nat, c: nat, j: nat, m: string, dash: string, clock: string)
    requires PopPieces(m, dash, clock) && PopLineAt(s, i, p, q, c, j, m, dash, clock)
    ensures forall k :: i <= k < j ==> !FoldedAt(s, k, "tonight")
  {
    VictoryIsQuiet();
    RendIsQuiet();
    HordeIsQuiet();
    PlainPieces();
    PlainIsQuiet(WillPop, false);
    PlainIsQuiet(dash, false);
    PlainIsQuiet(Newline, false);
    FoldQuietAt(s, i, Victory, false);
    FoldQuietAt(s, i + 9, WillPop, false);
    FoldQuietAt(s, p, m, false);
    FoldQuietAt(s, q, dash, false);
    FoldQuietAt(s, c, clock, false);
    FoldQuietAt(s, c + 5, Newline, false);
  }

  /** The line's one TIME_REGEX match is its clock, when what follows the
      line feed (at `j`) is neither whitespace nor a word character. */
  lemma PopLineTimes(s: string, i: nat, p: nat, q: nat, c: nat, j: nat, m: string, dash: string, clock: string)
    requires PopPieces(m, dash, clock) && PopLineAt(s, i, p, q, c, j, m, dash, clock)
    requires j < |s| && !IsSpace(s[j]) && !IsWordChar(s[j])
    ensures Texts(Segments(s, i, TimeMatchLen)) == [clock] + Texts(Segments(s, j, TimeMatchLen))
  {
    PopLineLeadAt(s, i, p, q, c, j, m, dash, clock);
    PopLineClockAt(s, i, p, q, c, j, m, dash, clock);
  }

  lemma PopLineLeadAt(s: string, i: nat, p: nat, q: nat, c: nat, j: nat, m: string, dash: string, clock: string)
    requires PopPieces(m, dash, clock) && PopLineAt(s, i, p, q, c, j, m, dash, clock)
    ensures Texts(Segments(s, i, TimeMatchLen)) == Texts(Segments(s, c, TimeMatchLen))
  {
    PopLineLead(s, i, p, q, c, m, dash);
  }

  lemma PopLineClockAt(s: string, i: nat, p: nat, q: nat, c: nat, j: nat, m: string, dash: string, clock: string)
    requires PopPieces(m, dash, clock) && PopLineAt(s, i, p, q, c, j, m, dash, clock)
    requires j < |s| && !IsSpace(s[j]) && !IsWordChar(s[j])
    ensures Texts(Segments(s, c, TimeMatchLen)) == [clock] + Texts(Segments(s, j, TimeMatchLen))
  {
    PopClockTimes(s, q, c, c + 5, j, dash, clock);
  }

  /** From a pop line's clock on, the clock is the next time. */
  lemma PopClockTimes(s: string, q: nat, c: nat, d: nat, j: nat, dash: string, clock: string)
    requires dash != [] && dash[|dash| - 1] == ' ' && c == q + |dash| && d == c + 5 && j == d + 1 && |clock| == 5
    requires At(s, q, dash) && At(s, c, clock) && At(s, d, Newline) && ClockShape(clock)
    requires j < |s| && !IsSpace(s[j]) && !IsWordChar(s[j])
    ensures Texts(Segments(s, c, TimeMatchLen)) == [clock] + Texts(Segments(s, j, TimeMatchLen))
  {
    PopClockMatch(s, q, c, j, dash, clock);
    Take(s, c, d, clock, TimeMatchLen);
    PlainPieces();
    PlainIsQuiet(Newline, false);
    TimeSkip(s, d, j, Newline);
  }

  /** A pop line's clock, after its dash and before its line feed, is a TIME_REGEX match. */
  lemma PopClockMatch(s: string, q: nat, c: nat, j: nat, dash: string, clock: string)
    requires dash != [] && dash[|dash| - 1] == ' ' && c == q + |dash| && j == c + 6 && |clock| == 5
    requires At(s, q, dash) && At(s, c, clock) && At(s, c + 5, Newline) && ClockShape(clock)
    requires j < |s| && !IsSpace(s[j]) && !IsWordChar(s[j])
    ensures Fits(s, c, TimeMatchLen) && TimeMatchLen(s, c) == |clock|
  {
    assert s[q + (|dash| - 1)] == dash[|dash| - 1];
    assert s[(c + 5) + 0] == Newline[0];
    TimeBare(s, c, clock);
  }

  /** No time starts before a pop line's clock. */
  lemma PopLineLead(s: string, i: nat, p: nat, q: nat, c: nat, m: string, dash: string)
    requires (m == Rend || m == Horde) && Plain(dash)
    requires p == i + 19 && q == p + |m| && c == q + |dash|
    requires At(s, i, Victory) && At(s, i + 9, WillPop) && At(s, p, m) && At(s, q, dash)
    ensures c <= |s|
    ensures Texts(Segments(s, i, TimeMatchLen)) == Texts(Segments(s, c, TimeMatchLen))
  {
    PopLeadNoDigit(m, dash);
    TimeSkip(s, i, i + 9, Victory);
    TimeSkip(s, i + 9, p, WillPop);
    TimeSkip(s, p, q, m);
    TimeSkip(s, q, c, dash);
  }

  lemma PopLeadNoDigit(m: string, dash: string)
    requires (m == Rend || m == Horde) && Plain(dash)
    ensures NoDigit(Victory) && NoDigit(WillPop) && NoDigit(m) && NoDigit(dash)
  {
    VictoryIsQuiet();
    RendIsQuiet();
    HordeIsQuiet();
    PlainPieces();
    PlainIsQuiet(WillPop, false);
    PlainIsQuiet(dash, false);
  }

  lemma PopLineMentions(s: string, i: nat, p: nat, q: nat, c: nat, j: nat, m: string, dash: string, clock: string)
    requires PopPieces(m, dash, clock) && PopLineAt(s, i, p, q, c, j, m, dash, clock)
    ensures Texts(Segments(s, i, MentionMatchLen)) == [m] + Texts(Segments(s, j, MentionMatchLen))
  {
    VictoryIsQuiet();
    PlainPieces();
    PlainIsQuiet(WillPop, false);
    MentionSkip(s, i, i + 9, Victory);
    MentionSkip(s, i + 9, p, WillPop);
    if m == Rend {
      RendHere(s, p);
    } else {
      HordeHere(s, p);
    }
    Take(s, p, q, m, MentionMatchLen);
    PopLineMentionsAfter(s, q, c, j, dash, clock);
  }

  /** After the mention, a pop line holds no `@`. */
  lemma PopLineMentionsAfter(s: string, q: nat, c: nat, j: nat, dash: string, clock: string)
    requires Plain(dash) && NoAt(clock) && c == q + |dash| && |clock| == 5 && j == c + 6
    requires At(s, q, dash) && At(s, c, clock) && At(s, c + 5, Newline)
    ensures j <= |s|
    ensures Texts(Segments(s, q, MentionMatchLen)) == Texts(Segments(s, j, MentionMatchLen))
  {
    PlainPieces();
    PlainIsQuiet(dash, false);
    PlainIsQuiet(Newline, false);
    MentionSkip(s, q, c, dash);
    MentionSkip(s, c, c + 5, clock);
    MentionSkip(s, c + 5, j, Newline);
  }

  // ------------------------------------------------------ pop line lists

  /** The buff a pop line announces. */
  datatype Buff = RendBuff | HordeBuff

  function MentionOf(b: Buff): string {
    match b
    case RendBuff => Rend
    case HordeBuff => Horde
  }

  /** One `will pop` line: the buff, how many spaces come before its `- `,
      and the hour and minute it pops at. */
  datatype Pop = Pop(buff: Buff, pad: nat, hour: Hour, minute: Minute)

  function Dash(pad: nat): string {
    seq(pad, _ => ' ') + "- "
  }

  function Line(p: Pop): string {
    PopLine(MentionOf(p.buff), Dash(p.pad), Clock(p.hour, p.minute))
  }

  function PopText(ls: seq<Pop>): string {
    if ls == [] then [] else Line(ls[0]) + PopText(ls[1..])
  }

  function PopClocks(ls: seq<Pop>): seq<string> {
    seq(|ls|, k requires 0 <= k < |ls| => Clock(ls[k].hour, ls[k].minute))
  }

  function PopMentions(ls: seq<Pop>): seq<string> {
    seq(|ls|, k requires 0 <= k < |ls| => MentionOf(ls[k].buff))
  }

  /** The events a list of pop lines announces for today, all credited to Victory. */
  function PopEvents(ls: seq<Pop>, today: Date): seq<Event> {
    seq(|ls|, k requires 0 <= k < |ls| => PopEvent(ls[k], today))
  }

  /** The event one pop line announces for today. */
  function PopEvent(p: Pop, today: Date): Event {
    Event(MentionOf(p.buff), WallTime(today, p.hour, p.minute), "CET", "11", "Victory")
  }

  /** Every pop line is made of pieces the line lemmas accept. */
  lemma PopFits(p: Pop)
    ensures PopPieces(MentionOf(p.buff), Dash(p.pad), Clock(p.hour, p.minute))
  {
    var d := Dash(p.pad);
    assert forall k :: 0 <= k < |d| ==> d[k] == ' ' || d[k] == '-';
    ClockIsPiece(p.hour, p.minute);
  }

  lemma PopTextFront(ls: seq<Pop>)
    requires ls != []
    ensures PopText(ls) == Line(ls[0]) + PopText(ls[1..])
    ensures PopText(ls)[0] == '<'
  {
    assert Victory[0] == '<';
  }

  /** The first line of a list and the rest of the list, in place: the
      first line's pieces sit at `i`, `p`, `q`, `c` and the rest starts at `e`. */
  lemma PopsStep(s: string, i: nat, j: nat, ls: seq<Pop>) returns (p: nat, q: nat, c: nat, e: nat)
    requires ls != [] && At(s, i, PopText(ls)) && j == i + |PopText(ls)|
    ensures At(s, e, PopText(ls[1..])) && j == e + |PopText(ls[1..])|
    ensures ls[1..] != [] ==> s[e] == '<'
    ensures PopPieces(MentionOf(ls[0].buff), Dash(ls[0].pad), Clock(ls[0].hour, ls[0].minute))
    ensures PopLineAt(s, i, p, q, c, e, MentionOf(ls[0].buff), Dash(ls[0].pad), Clock(ls[0].hour, ls[0].minute))
  {
    PopTextFront(ls);
    AtSplit(s, i, Line(ls[0]), PopText(ls[1..]));
    PopFits(ls[0]);
    p, q, c, e := PopLineLayout(s, i, MentionOf(ls[0].buff), Dash(ls[0].pad), Clock(ls[0].hour, ls[0].minute));
    if ls[1..] != [] {
      PopTextFront(ls[1..]);
      assert s[e + 0] == PopText(ls[1..])[0];
    }
  }

  lemma PopListsFront(ls: seq<Pop>)
    requires ls != []
    ensures PopClocks(ls) == [Clock(ls[0].hour, ls[0].minute)] + PopClocks(ls[1..])
    ensures PopMentions(ls) == [MentionOf(ls[0].buff)] + PopMentions(ls[1..])
  {
  }

  lemma {:induction false} PopsDates(s: string, i: nat, j: nat, ls: seq<Pop>)
    requires At(s, i, PopText(ls)) && j == i + |PopText(ls)|
    ensures forall k :: i <= k < j ==> !Fits(s, k, DateMatchLen)
    decreases |ls|
  {
    if ls != [] {
      var p, q, c, e := PopsStep(s, i, j, ls);
      PopLineDates(s, i, p, q, c, e, MentionOf(ls[0].buff), Dash(ls[0].pad), Clock(ls[0].hour, ls[0].minute));
      PopsDates(s, e, j, ls[1..]);
    }
  }

  lemma {:induction false} PopsNoTonight(s: string, i: nat, j: nat, ls: seq<Pop>)
    requires At(s, i, PopText(ls)) && j == i + |PopText(ls)|
    ensures forall k :: i <= k < j ==> !FoldedAt(s, k, "tonight")
    decreases |ls|
  {
    if ls != [] {
      var p, q, c, e := PopsStep(s, i, j, ls);
      PopLineNoTonight(s, i, p, q, c, e, MentionOf(ls[0].buff), Dash(ls[0].pad), Clock(ls[0].hour, ls[0].minute));
      PopsNoTonight(s, e, j, ls[1..]);
    }
  }

  lemma ConsAssoc<T>(all: seq<T>, front: seq<T>, mid: seq<T>, rest: seq<T>, tail: seq<T>)
    requires front != [] && all == [front[0]] + mid && mid == rest + tail && front == [front[0]] + rest
    ensures all == front + tail
  {
  }

  /** Each line gives its clock to TIME_REGEX, in order; `j` is where the lines end. */
  lemma {:induction false} PopsTimes(s: string, i: nat, j: nat, ls: seq<Pop>)
    requires At(s, i, PopText(ls)) && j == i + |PopText(ls)|
    requires ls != [] ==> j < |s| && !IsSpace(s[j]) && !IsWordChar(s[j])
    ensures Texts(Segments(s, i, TimeMatchLen)) == PopClocks(ls) + Texts(Segments(s, j, TimeMatchLen))
    decreases |ls|
  {
    if ls == [] {
      assert PopClocks(ls) == [];
    } else {
      var e := PopsTimesStep(s, i, j, ls);
      PopsTimes(s, e, j, ls[1..]);
      ConsAssoc(Texts(Segments(s, i, TimeMatchLen)), PopClocks(ls), Texts(Segments(s, e, TimeMatchLen)),
                PopClocks(ls[1..]), Texts(Segments(s, j, TimeMatchLen)));
    }
  }

  /** The first line's clock, and where the rest of the list starts. */
  lemma PopsTimesStep(s: string, i: nat, j: nat, ls: seq<Pop>) returns (e: nat)
    requires ls != [] && At(s, i, PopText(ls)) && j == i + |PopText(ls)|
    requires j < |s| && !IsSpace(s[j]) && !IsWordChar(s[j])
    ensures At(s, e, PopText(ls[1..])) && j == e + |PopText(ls[1..])|
    ensures PopClocks(ls) == [PopClocks(ls)[0]] + PopClocks(ls[1..])
    ensures Texts(Segments(s, i, TimeMatchLen)) == [PopClocks(ls)[0]] + Texts(Segments(s, e, TimeMatchLen))
  {
    var p, q, c;
    p, q, c, e := PopsStep(s, i, j, ls);
    PopListsFront(ls);
    PopsNextStart(s, e, j, ls[1..]);
    PopLineTimes(s, i, p, q, c, e, MentionOf(ls[0].buff), Dash(ls[0].pad), Clock(ls[0].hour, ls[0].minute));
  }

  /** Where a line ends, the next line's `<` or the end of the lines' stretch
      ends the clock's word. */
  lemma PopsNextStart(s: string, e: nat, j: nat, rest: seq<Pop>)
    requires At(s, e, PopText(rest)) && j == e + |PopText(rest)|
    requires j < |s| && !IsSpace(s[j]) && !IsWordChar(s[j])
    ensures e < |s| && !IsSpace(s[e]) && !IsWordChar(s[e])
  {
    if rest != [] {
      PopTextFront(rest);
      assert s[e + 0] == PopText(rest)[0];
    }
  }

  /** Each line gives its mention to MENTION_REGEX, in order. */
  lemma {:induction false} PopsMentions(s: string, i: nat, j: nat, ls: seq<Pop>)
    requires At(s, i, PopText(ls)) && j == i + |PopText(ls)|
    ensures Texts(Segments(s, i, MentionMatchLen)) == PopMentions(ls) + Texts(Segments(s, j, MentionMatchLen))
    decreases |ls|
  {
    if ls == [] {
      assert PopMentions(ls) == [];
    } else {
      var e := PopsMentionsStep(s, i, j, ls);
      PopsMentions(s, e, j, ls[1..]);
      ConsAssoc(Texts(Segments(s, i, MentionMatchLen)), PopMentions(ls), Texts(Segments(s, e, MentionMatchLen)),
                PopMentions(ls[1..]), Texts(Segments(s, j, MentionMatchLen)));
    }
  }

  lemma PopsMentionsStep(s: string, i: nat, j: nat, ls: seq<Pop>) returns (e: nat)
    requires ls != [] && At(s, i, PopText(ls)) && j == i + |PopText(ls)|
    ensures At(s, e, PopText(ls[1..])) && j == e + |PopText(ls[1..])|
    ensures PopMentions(ls) == [PopMentions(ls)[0]] + PopMentions(ls[1..])
    ensures Texts(Segments(s, i, MentionMatchLen)) == [PopMentions(ls)[0]] + Texts(Segments(s, e, MentionMatchLen))
  {
    var p, q, c;
    p, q, c, e := PopsStep(s, i, j, ls);
    PopListsFront(ls);
    PopLineMentions(s, i, p, q, c, e, MentionOf(ls[0].buff), Dash(ls[0].pad), Clock(ls[0].hour, ls[0].minute));
  }

  // ------------------------------------------------------- pop messages

  /** A message of pop lines closed by a tail no scan can start in, whose
      first character ends the last clock's word. */
  predicate PopMessage(ls: seq<Pop>, tail: string) {
    ls != [] && Plain(tail) && tail != [] && !IsSpace(tail[0]) && !IsWordChar(tail[0])
  }

  /** A pop message in place in `s`: its lines up to `n`, then its tail. */
  predicate PopMessageIn(s: string, n: nat, ls: seq<Pop>, tail: string) {
    PopMessage(ls, tail) && At(s, 0, PopText(ls)) && n == |PopText(ls)| && At(s, n, tail) && |s| == n + |tail|
  }

  lemma PopMessageLayout(ls: seq<Pop>, tail: string)
    requires PopMessage(ls, tail)
    ensures PopMessageIn(PopText(ls) + tail, |PopText(ls)|, ls, tail)
  {
    TwoParts(PopText(ls) + tail, PopText(ls), tail, |PopText(ls)|);
  }

  lemma PopScanDates(s: string, n: nat, ls: seq<Pop>, tail: string)
    requires PopMessageIn(s, n, ls, tail)
    ensures FindAll(s, DateMatchLen) == [] && WithoutDates(s) == s
  {
    PopsDates(s, 0, n, ls);
    PlainIsQuiet(tail, true);
    DateQuietAt(s, n, tail);
    QuietRun(s, 0, |s|, DateMatchLen);
    ScanEnd(s, DateMatchLen);
    assert s[0..|s|] == s;
  }

  lemma PopScanNoTonight(s: string, n: nat, ls: seq<Pop>, tail: string)
    requires PopMessageIn(s, n, ls, tail)
    ensures !ContainsFolded(s, "tonight")
  {
    PopsNoTonight(s, 0, n, ls);
    PlainIsQuiet(tail, true);
    FoldQuietAt(s, n, tail, true);
  }

  lemma PopScanTimes(s: string, n: nat, ls: seq<Pop>, tail: string)
    requires PopMessageIn(s, n, ls, tail)
    ensures FindAll(s, TimeMatchLen) == PopClocks(ls)
  {
    assert s[n + 0] == tail[0];
    PopsTimes(s, 0, n, ls);
    PlainIsQuiet(tail, false);
    TimeSkip(s, n, |s|, tail);
    ScanEnd(s, TimeMatchLen);
  }

  lemma PopScanMentions(s: string, n: nat, ls: seq<Pop>, tail: string)
    requires PopMessageIn(s, n, ls, tail)
    ensures FindAll(s, MentionMatchLen) == PopMentions(ls)
  {
    PopsMentions(s, 0, n, ls);
    PlainIsQuiet(tail, false);
    MentionSkip(s, n, |s|, tail);
    ScanEnd(s, MentionMatchLen);
  }

  lemma PopScanGuild(s: string, n: nat, ls: seq<Pop>, tail: string)
    requires PopMessageIn(s, n, ls, tail)
    ensures GuildName(s) == "Victory"
  {
    PopTextTag(ls);
    AtWithin(s, 0, PopText(ls), 0, "<" + "Victory" + ">");
    GuildInFront(s, "Victory");
  }

  /** Pop lines open with Victory's tag. */
  lemma PopTextTag(ls: seq<Pop>)
    requires ls != []
    ensures At(PopText(ls), 0, "<" + "Victory" + ">")
  {
    var t := PopText(ls);
    PopTextFront(ls);
    assert t[..9] == Victory;
    assert Victory == "<" + "Victory" + ">";
  }

  lemma PopMessageTokens(ls: seq<Pop>, tail: string, today: Date)
    requires ValidDate(today) && PopMessage(ls, tail)
    ensures Tokenize(PopText(ls) + tail, today)
            == Tokens("Victory", seq(|ls|, _ => FormatDate(today)), PopClocks(ls), PopMentions(ls))
  {
    var s := PopText(ls) + tail;
    var n := |PopText(ls)|;
    PopMessageLayout(ls, tail);
    PopScanDates(s, n, ls, tail);
    PopScanNoTonight(s, n, ls, tail);
    PopScanTimes(s, n, ls, tail);
    PopScanMentions(s, n, ls, tail);
    PopScanGuild(s, n, ls, tail);
    forall k | 0 <= k < |ls| ensures NormalizeTime(PopClocks(ls)[k]) == PopClocks(ls)[k] {
      ClockReads(ls[k].hour, ls[k].minute);
    }
    TimesAre(s, PopClocks(ls));
    DatesAreToday(s, today);
    TokensAre(s, today, "Victory", seq(|ls|, _ => FormatDate(today)), PopClocks(ls), PopMentions(ls));
  }

  /** The tokens of a pop message put together: one event per line. */
  lemma PopAssembled(ls: seq<Pop>, today: Date)
    requires ValidDate(today) && ls != []
    ensures Assemble(Tokens("Victory", seq(|ls|, _ => FormatDate(today)), PopClocks(ls), PopMentions(ls)))
            == if OutermostDay(today) then Err(LocalizeOverflow) else Ok(PopEvents(ls, today))
  {
    var tk := Tokens("Victory", seq(|ls|, _ => FormatDate(today)), PopClocks(ls), PopMentions(ls));
    var es := PopEvents(ls, today);
    MentionColors();
    forall k | 0 <= k < |ls| ensures TimeText(PopClocks(ls)[k]) {
      ClockReads(ls[k].hour, ls[k].minute);
    }
    assert Pairable(tk);
    forall k | 0 <= k < |es| ensures Candidate(tk, k) == Some(es[k]) {
      ClockReads(ls[k].hour, ls[k].minute);
      TodayAt(today, Clock(ls[k].hour, ls[k].minute));
    }
    AssembledAs(tk, es);
    PopOutermost(ls, today);
  }

  /** The events of pop lines fall on an outermost day exactly when today is one. */
  lemma PopOutermost(ls: seq<Pop>, today: Date)
    requires ls != []
    ensures OnOutermostDay(PopEvents(ls, today)) <==> OutermostDay(today)
  {
    var es := PopEvents(ls, today);
    assert es[0].at == WallTime(today, ls[0].hour, ls[0].minute);
    if OnOutermostDay(es) {
      var i :| 0 <= i < |es| && LocalizeOverflows(es[i].at);
      assert es[i] == PopEvent(ls[i], today);
    }
  }

  /** A message of pop lines announces, in order, one event today per line,
      unless today is an outermost day, where `localize` raises. */
  lemma PopMessageEvents(ls: seq<Pop>, tail: string, today: Date)
    requires ValidDate(today) && PopMessage(ls, tail)
    ensures Parse(PopText(ls) + tail, today) == if OutermostDay(today) then Err(LocalizeOverflow) else Ok(PopEvents(ls, today))
  {
    PopMessageTokens(ls, tail, today);
    PopAssembled(ls, today);
    ParseIs(PopText(ls) + tail, today, Tokens("Victory", seq(|ls|, _ => FormatDate(today)), PopClocks(ls), PopMentions(ls)),
            if OutermostDay(today) then Err(LocalizeOverflow) else Ok(PopEvents(ls, today)));
  }

  // ------------------------------------------------------------ written dates

  /** A calendar date `datetime` accepts. */
  type Day = d: Date | ValidDate(d) witness Date(1, 1, 1)

  /** A date written `DD<sep>MM<sep>YYYY`, as DATE_REGEX accepts it. */
  function Written(d: Day, sep: char): string {
    Padded(d.day, 2) + [sep] + Padded(d.month, 2) + [sep] + Padded(d.year, 4)
  }

  lemma WrittenLayout(d: Day, sep: char)
    ensures |Written(d, sep)| == 10 && Written(d, sep)[2] == sep && Written(d, sep)[5] == sep
    ensures IsDigit(Written(d, sep)[0]) && IsDigit(Written(d, sep)[1]) && IsDigit(Written(d, sep)[3])
    ensures IsDigit(Written(d, sep)[4]) && IsDigit(Written(d, sep)[6]) && IsDigit(Written(d, sep)[7])
    ensures IsDigit(Written(d, sep)[8]) && IsDigit(Written(d, sep)[9])
  {
    var w := Written(d, sep);
    assert w[0] == Padded(d.day, 2)[0] && w[1] == Padded(d.day, 2)[1];
    assert w[3] == Padded(d.month, 2)[0] && w[4] == Padded(d.month, 2)[1];
    assert forall k :: 0 <= k < 4 ==> w[k + 6] == Padded(d.year, 4)[k];
  }

  /** Apart from its separators, a written date is `strftime`'s form of it. */
  lemma WrittenDigits(d: Day, sep: char)
    ensures |Written(d, sep)| == 10 && |FormatDate(d)| == 10
    ensures forall k :: 0 <= k < 10 && k != 2 && k != 5 ==> Written(d, sep)[k] == FormatDate(d)[k]
  {
    var w := Written(d, sep);
    var f := FormatDate(d);
    assert forall k :: 0 <= k < 2 ==> w[k] == Padded(d.day, 2)[k] == f[k] && w[k + 3] == Padded(d.month, 2)[k] == f[k + 3];
    assert forall k :: 0 <= k < 4 ==> w[k + 6] == Padded(d.year, 4)[k] == f[k + 6];
  }

  /** However it is separated, a written date normalises to `strftime`'s form of it. */
  lemma WrittenNormal(d: Day, sep: char)
    requires IsDateSep(sep)
    ensures DateShape(Written(d, sep)) && Written(d, sep) != "" && !IsTonightWord(Written(d, sep))
    ensures NormalizeDate(Written(d, sep)) == FormatDate(d)
  {
    var w := Written(d, sep);
    WrittenLayout(d, sep);
    assert !IsTonightWord(w) by {
      assert AsciiLower(w[0]) == w[0] != "tonight"[0];
    }
    WrittenNormalizes(d, sep);
  }

  lemma WrittenNormalizes(d: Day, sep: char)
    requires IsDateSep(sep)
    ensures NormalizeDate(Written(d, sep)) == FormatDate(d)
  {
    var w := Written(d, sep);
    var f := FormatDate(d);
    WrittenLayout(d, sep);
    WrittenDigits(d, sep);
    assert f[2] == '-' && f[5] == '-';
    SeparatedNormal(w, f, sep);
  }

  /** Ten characters that differ from `f` only in the separators at 2 and 5
      normalise to `f`. */
  lemma SeparatedNormal(w: string, f: string, sep: char)
    requires IsDateSep(sep) && |w| == 10 && |f| == 10 && w[2] == sep && w[5] == sep && f[2] == '-' && f[5] == '-'
    requires IsDigit(w[0]) && IsDigit(w[9])
    requires forall k :: 0 <= k < 10 && k != 2 && k != 5 ==> w[k] == f[k]
    requires forall k :: 0 <= k < 10 && k != 2 && k != 5 ==> IsDigit(f[k])
    ensures NormalizeDate(w) == f
  {
    StripUnpadded(w);
    var r1 := Replace(w, '.', '-');
    var r := Replace(r1, '/', '-');
    forall k | 0 <= k < 10 ensures r[k] == f[k] {
      assert r[k] == if r1[k] == '/' then '-' else r1[k];
    }
  }

  // ------------------------------------------------------------- dated lines

  const Ony: string := ":ony: :alliance:  - "
  const DashSp: string := " - "

  /** A line `:ony: :alliance:  - DD.MM.YYYY - HH:MM`: the Onyxia buff on a given day. */
  datatype Dated = Dated(date: Day, hour: Hour, minute: Minute)

  function DatedLine(x: Dated): string {
    Ony + Written(x.date, '.') + DashSp + Clock(x.hour, x.minute) + Newline
  }

  /** What is left of a dated line once DATE_REGEX's matches are removed. */
  function UndatedLine(x: Dated): string {
    Ony + DashSp + Clock(x.hour, x.minute) + Newline
  }

  function DatedText(xs: seq<Dated>): string {
    if xs == [] then [] else DatedLine(xs[0]) + DatedText(xs[1..])
  }

  function UndatedText(xs: seq<Dated>): string {
    if xs == [] then [] else UndatedLine(xs[0]) + UndatedText(xs[1..])
  }

  function DatedRaw(xs: seq<Dated>): seq<string> {
    seq(|xs|, k requires 0 <= k < |xs| => Written(xs[k].date, '.'))
  }

  function DatedDays(xs: seq<Dated>): seq<string> {
    seq(|xs|, k requires 0 <= k < |xs| => FormatDate(xs[k].date))
  }

  function DatedClocks(xs: seq<Dated>): seq<string> {
    seq(|xs|, k requires 0 <= k < |xs| => Clock(xs[k].hour, xs[k].minute))
  }

  lemma DatedPieces()
    ensures Plain(Ony) && Plain(DashSp) && |Ony| == 20 && |DashSp| == 3 && Ony[0] == ':' && Ony[19] == ' ' && DashSp[0] == ' '
  {
  }

  lemma DatedLineLayout(s: string, i: nat, x: Dated)
    requires At(s, i, DatedLine(x))
    ensures |DatedLine(x)| == 39 && |Written(x.date, '.')| == 10 && |Clock(x.hour, x.minute)| == 5
    ensures At(s, i, Ony) && At(s, i + 20, Written(x.date, '.')) && At(s, i + 30, DashSp)
    ensures At(s, i + 33, Clock(x.hour, x.minute)) && At(s, i + 38, Newline)
  {
    var w, c := Written(x.date, '.'), Clock(x.hour, x.minute);
    WrittenLayout(x.date, '.');
    ClockLayout(x.hour, x.minute);
    DatedPieces();
    AtSplit(s, i, Ony + w + DashSp + c, Newline);
    AtSplit(s, i, Ony + w + DashSp, c);
    AtSplit(s, i, Ony + w, DashSp);
    AtSplit(s, i, Ony, w);
  }

  lemma UndatedLineLayout(s: string, i: nat, x: Dated)
    requires At(s, i, UndatedLine(x))
    ensures |UndatedLine(x)| == 29 && |Clock(x.hour, x.minute)| == 5
    ensures At(s, i, Ony) && At(s, i + 20, DashSp) && At(s, i + 23, Clock(x.hour, x.minute)) && At(s, i + 28, Newline)
  {
    var c := Clock(x.hour, x.minute);
    ClockLayout(x.hour, x.minute);
    DatedPieces();
    AtSplit(s, i, Ony + DashSp + c, Newline);
    AtSplit(s, i, Ony + DashSp, c);
    AtSplit(s, i, Ony, DashSp);
  }

  /** DATE_REGEX finds the line's date and nothing else in it. */
  lemma DatedLineDates(s: string, i: nat, j: nat, x: Dated)
    requires At(s, i, DatedLine(x)) && j == i + |DatedLine(x)|
    ensures Texts(Segments(s, i, DateMatchLen)) == [Written(x.date, '.')] + Texts(Segments(s, j, DateMatchLen))
    ensures Chars(Segments(s, i, DateMatchLen)) == s[i..i + 20] + s[i + 30..j] + Chars(Segments(s, j, DateMatchLen))
  {
    var w := Written(x.date, '.');
    var c := Clock(x.hour, x.minute);
    DatedLineLayout(s, i, x);
    DatedPieces();
    WrittenNormal(x.date, '.');
    ClockIsQuiet(x.hour, x.minute);
    PlainIsQuiet(Ony, false);
    PlainIsQuiet(DashSp, false);
    DateQuietAt(s, i, Ony);
    QuietRun(s, i, i + 20, DateMatchLen);
    assert s[i + 19] == Ony[19] && s[i + 30 + 0] == DashSp[0];
    DateHere(s, i + 20, w);
    MatchStep(s, i + 20, DateMatchLen);
    AtSlice(s, i + 20, w);
    DateQuietAt(s, i + 30, DashSp);
    AtJoin(s, i + 33, c, Newline);
    DateQuietAt(s, i + 33, c + Newline);
    QuietRun(s, i + 30, j, DateMatchLen);
  }

  /** The characters a dated line keeps are its undated form. */
  lemma DatedLineKeeps(s: string, i: nat, j: nat, x: Dated)
    requires At(s, i, DatedLine(x)) && j == i + |DatedLine(x)|
    ensures s[i..i + 20] + s[i + 30..j] == UndatedLine(x)
  {
    var c := Clock(x.hour, x.minute);
    DatedLineLayout(s, i, x);
    AtJoin(s, i + 30, DashSp, c);
    AtJoin(s, i + 30, DashSp + c, Newline);
    AtSlice(s, i, Ony);
    AtSlice(s, i + 30, DashSp + c + Newline);
  }

  lemma DatedFront(xs: seq<Dated>)
    requires xs != []
    ensures DatedText(xs) == DatedLine(xs[0]) + DatedText(xs[1..])
    ensures UndatedText(xs) == UndatedLine(xs[0]) + UndatedText(xs[1..])
    ensures UndatedText(xs)[0] == ':'
    ensures DatedRaw(xs) == [DatedRaw(xs)[0]] + DatedRaw(xs[1..])
    ensures DatedClocks(xs) == [DatedClocks(xs)[0]] + DatedClocks(xs[1..])
  {
    UndatedFront(xs);
    DatedListsFront(xs);
  }

  lemma UndatedFront(xs: seq<Dated>)
    requires xs != []
    ensures UndatedText(xs) == UndatedLine(xs[0]) + UndatedText(xs[1..])
    ensures UndatedText(xs)[0] == ':'
  {
    assert Ony[0] == ':';
    assert UndatedLine(xs[0])[0] == Ony[0];
  }

  lemma DatedListsFront(xs: seq<Dated>)
    requires xs != []
    ensures DatedRaw(xs) == [DatedRaw(xs)[0]] + DatedRaw(xs[1..])
    ensures DatedClocks(xs) == [DatedClocks(xs)[0]] + DatedClocks(xs[1..])
  {
    DatedRawCons(xs);
    DatedClocksFront(xs);
  }

  lemma DatedRawCons(xs: seq<Dated>)
    requires xs != []
    ensures DatedRaw(xs) == [DatedRaw(xs)[0]] + DatedRaw(xs[1..])
  {
    var r := DatedRaw(xs);
    assert r[1..] == DatedRaw(xs[1..]);
    assert r == [r[0]] + r[1..];
  }

  lemma DatedClocksFront(xs: seq<Dated>)
    requires xs != []
    ensures DatedClocks(xs) == [DatedClocks(xs)[0]] + DatedClocks(xs[1..])
  {
    var c := DatedClocks(xs);
    assert c[1..] == DatedClocks(xs[1..]);
    assert c == [c[0]] + c[1..];
  }

  /** Each dated line gives DATE_REGEX its date and keeps its undated form, in order. */
  lemma {:induction false} DatedDates(s: string, i: nat, j: nat, xs: seq<Dated>)
    requires At(s, i, DatedText(xs)) && j == i + |DatedText(xs)|
    ensures Texts(Segments(s, i, DateMatchLen)) == DatedRaw(xs) + Texts(Segments(s, j, DateMatchLen))
    ensures Chars(Segments(s, i, DateMatchLen)) == UndatedText(xs) + Chars(Segments(s, j, DateMatchLen))
    decreases |xs|
  {
    if xs == [] {
      assert DatedRaw(xs) == [];
    } else {
      var e := DatedDatesStep(s, i, j, xs);
      DatedDates(s, e, j, xs[1..]);
      ConsAssoc(Texts(Segments(s, i, DateMatchLen)), DatedRaw(xs), Texts(Segments(s, e, DateMatchLen)),
                DatedRaw(xs[1..]), Texts(Segments(s, j, DateMatchLen)));
      DatedKeepsAssoc(Chars(Segments(s, i, DateMatchLen)), UndatedLine(xs[0]), Chars(Segments(s, e, DateMatchLen)),
                      UndatedText(xs[1..]), Chars(Segments(s, j, DateMatchLen)), UndatedText(xs));
    }
  }

  lemma DatedKeepsAssoc(all: string, line: string, mid: string, rest: string, tail: string, whole: string)
    requires all == line + mid && mid == rest + tail && whole == line + rest
    ensures all == whole + tail
  {
  }

  lemma DatedDatesStep(s: string, i: nat, j: nat, xs: seq<Dated>) returns (e: nat)
    requires xs != [] && At(s, i, DatedText(xs)) && j == i + |DatedText(xs)|
    ensures At(s, e, DatedText(xs[1..])) && j == e + |DatedText(xs[1..])|
    ensures DatedRaw(xs) == [DatedRaw(xs)[0]] + DatedRaw(xs[1..])
    ensures UndatedText(xs) == UndatedLine(xs[0]) + UndatedText(xs[1..])
    ensures Texts(Segments(s, i, DateMatchLen)) == [DatedRaw(xs)[0]] + Texts(Segments(s, e, DateMatchLen))
    ensures Chars(Segments(s, i, DateMatchLen)) == UndatedLine(xs[0]) + Chars(Segments(s, e, DateMatchLen))
  {
    DatedFront(xs);
    AtSplit(s, i, DatedLine(xs[0]), DatedText(xs[1..]));
    e := i + |DatedLine(xs[0])|;
    DatedLineDates(s, i, e, xs[0]);
    DatedLineKeeps(s, i, e, xs[0]);
  }

  lemma {:induction false} UndatedNoTonight(s: string, i: nat, j: nat, xs: seq<Dated>)
    requires At(s, i, UndatedText(xs)) && j == i + |UndatedText(xs)|
    ensures forall p :: i <= p < j ==> !FoldedAt(s, p, "tonight")
    decreases |xs|
  {
    if xs != [] {
      var x := xs[0];
      var e := i + |UndatedLine(x)|;
      DatedFront(xs);
      AtSplit(s, i, UndatedLine(x), UndatedText(xs[1..]));
      UndatedLineNoTonight(s, i, x);
      UndatedNoTonight(s, e, j, xs[1..]);
    }
  }

  lemma UndatedLineNoTonight(s: string, i: nat, x: Dated)
    requires At(s, i, UndatedLine(x))
    ensures forall p :: i <= p < i + |UndatedLine(x)| ==> !FoldedAt(s, p, "tonight")
  {
    UndatedLineLayout(s, i, x);
    DatedPieces();
    ClockIsQuiet(x.hour, x.minute);
    PlainIsQuiet(Ony, false);
    PlainIsQuiet(DashSp, false);
    PlainIsQuiet(Newline, false);
    FoldQuietAt(s, i, Ony, false);
    FoldQuietAt(s, i + 20, DashSp, false);
    FoldQuietAt(s, i + 23, Clock(x.hour, x.minute), false);
    FoldQuietAt(s, i + 28, Newline, false);
  }

  /** The undated line's one TIME_REGEX match is its clock. */
  lemma UndatedLineTimes(s: string, i: nat, j: nat, x: Dated)
    requires At(s, i, UndatedLine(x)) && j == i + |UndatedLine(x)|
    requires j < |s| && !IsSpace(s[j]) && !IsWordChar(s[j])
    ensures Texts(Segments(s, i, TimeMatchLen)) == [Clock(x.hour, x.minute)] + Texts(Segments(s, j, TimeMatchLen))
  {
    var c := Clock(x.hour, x.minute);
    UndatedLineLayout(s, i, x);
    DatedPieces();
    ClockIsShaped(x.hour, x.minute);
    PlainIsQuiet(Ony, false);
    PlainIsQuiet(DashSp, false);
    PlainIsQuiet(Newline, false);
    TimeQuietAt(s, i, Ony);
    TimeQuietAt(s, i + 20, DashSp);
    QuietRun(s, i, i + 23, TimeMatchLen);
    assert s[i + 20 + 2] == DashSp[2] && s[i + 28 + 0] == Newline[0];
    TimeBare(s, i + 23, c);
    MatchStep(s, i + 23, TimeMatchLen);
    AtSlice(s, i + 23, c);
    TimeQuietAt(s, i + 28, Newline);
    QuietRun(s, i + 28, j, TimeMatchLen);
  }

  lemma {:induction false} UndatedTimes(s: string, i: nat, j: nat, xs: seq<Dated>)
    requires At(s, i, UndatedText(xs)) && j == i + |UndatedText(xs)|
    requires xs != [] ==> j < |s| && !IsSpace(s[j]) && !IsWordChar(s[j])
    ensures Texts(Segments(s, i, TimeMatchLen)) == DatedClocks(xs) + Texts(Segments(s, j, TimeMatchLen))
    decreases |xs|
  {
    if xs == [] {
      assert DatedClocks(xs) == [];
    } else {
      var e := UndatedTimesStep(s, i, j, xs);
      UndatedTimes(s, e, j, xs[1..]);
      ConsAssoc(Texts(Segments(s, i, TimeMatchLen)), DatedClocks(xs), Texts(Segments(s, e, TimeMatchLen)),
                DatedClocks(xs[1..]), Texts(Segments(s, j, TimeMatchLen)));
    }
  }

  lemma UndatedTimesStep(s: string, i: nat, j: nat, xs: seq<Dated>) returns (e: nat)
    requires xs != [] && At(s, i, UndatedText(xs)) && j == i + |UndatedText(xs)|
    requires j < |s| && !IsSpace(s[j]) && !IsWordChar(s[j])
    ensures At(s, e, UndatedText(xs[1..])) && j == e + |UndatedText(xs[1..])|
    ensures DatedClocks(xs) == [DatedClocks(xs)[0]] + DatedClocks(xs[1..])
    ensures Texts(Segments(s, i, TimeMatchLen)) == [DatedClocks(xs)[0]] + Texts(Segments(s, e, TimeMatchLen))
  {
    DatedFront(xs);
    AtSplit(s, i, UndatedLine(xs[0]), UndatedText(xs[1..]));
    e := i + |UndatedLine(xs[0])|;
    if xs[1..] != [] {
      DatedFront(xs[1..]);
      assert s[e + 0] == UndatedText(xs[1..])[0];
    }
    UndatedLineTimes(s, i, e, xs[0]);
  }

  /** Undated lines hold no `@`. */
  lemma {:induction false} UndatedMentions(s: string, i: nat, j: nat, xs: seq<Dated>)
    requires At(s, i, UndatedText(xs)) && j == i + |UndatedText(xs)|
    ensures Texts(Segments(s, i, MentionMatchLen)) == Texts(Segments(s, j, MentionMatchLen))
    decreases |xs|
  {
    if xs != [] {
      var x := xs[0];
      var e := i + |UndatedLine(x)|;
      DatedFront(xs);
      AtSplit(s, i, UndatedLine(x), UndatedText(xs[1..]));
      UndatedLineLayout(s, i, x);
      DatedPieces();
      ClockIsQuiet(x.hour, x.minute);
      PlainIsQuiet(Ony, false);
      PlainIsQuiet(DashSp, false);
      PlainIsQuiet(Newline, false);
      MentionQuietAt(s, i, Ony);
      MentionQuietAt(s, i + 20, DashSp);
      MentionQuietAt(s, i + 23, Clock(x.hour, x.minute));
      MentionQuietAt(s, i + 28, Newline);
      QuietRun(s, i, e, MentionMatchLen);
      UndatedMentions(s, e, j, xs[1..]);
    }
  }

  lemma {:induction false} KeptWritten(xs: seq<Dated>)
    ensures KeptDates(DatedRaw(xs)) == DatedDays(xs)
    decreases |xs|
  {
    if xs != [] {
      KeptWrittenFront(xs);
      KeptWritten(xs[1..]);
    }
  }

  lemma KeptWrittenFront(xs: seq<Dated>)
    requires xs != []
    ensures KeptDates(DatedRaw(xs)) == [FormatDate(xs[0].date)] + KeptDates(DatedRaw(xs[1..]))
    ensures DatedDays(xs) == [FormatDate(xs[0].date)] + DatedDays(xs[1..])
  {
    WrittenNormal(xs[0].date, '.');
    DatedRawFront(xs);
    KeptFirst(DatedRaw(xs));
    DatedDaysFront(xs);
  }

  lemma DatedRawFront(xs: seq<Dated>)
    requires xs != []
    ensures DatedRaw(xs)[0] == Written(xs[0].date, '.') && DatedRaw(xs)[1..] == DatedRaw(xs[1..])
  {
  }

  lemma DatedDaysFront(xs: seq<Dated>)
    requires xs != []
    ensures DatedDays(xs) == [FormatDate(xs[0].date)] + DatedDays(xs[1..])
  {
    var d := DatedDays(xs);
    assert d[1..] == DatedDays(xs[1..]);
    assert d == [d[0]] + d[1..];
  }

  /** A first raw date that is neither empty nor `tonight` is kept, normalised. */
  lemma KeptFirst(raw: seq<string>)
    requires raw != [] && raw[0] != "" && !IsTonightWord(raw[0])
    ensures KeptDates(raw) == [NormalizeDate(raw[0])] + KeptDates(raw[1..])
  {
  }

  // ------------------------------------------------------------- message 1

  const Mortal: string := "<Mortal> \n"

  /** The text of message 1 around its dated lines. */
  function DatedMessage(xs: seq<Dated>): string {
    Mortal + DatedText(xs) + Alliance
  }

  function UndatedMessage(xs: seq<Dated>): string {
    Mortal + UndatedText(xs) + Alliance
  }

  lemma MortalIsQuiet()
    ensures DateQuiet(Mortal) && NoDigit(Mortal) && NoAt(Mortal) && FoldQuiet(Mortal, false) && |Mortal| == 10
  {
  }

  lemma AllianceIsQuiet()
    ensures DateQuiet(Alliance) && NoDigit(Alliance) && FoldQuiet(Alliance, true) && Alliance[0] == '@'
    ensures FoldQuiet(Alliance, false)
  {
    AllianceDateQuiet();
    AllianceFoldQuiet();
  }

  lemma AllianceDateQuiet()
    ensures DateQuiet(Alliance) && NoDigit(Alliance) && Alliance[0] == '@'
  {
  }

  lemma AllianceFoldQuiet()
    ensures FoldQuiet(Alliance, true) && FoldQuiet(Alliance, false)
  {
  }

  /** Message 1 in place in `s`: its head, its dated lines up to `n`, its closing mention. */
  predicate DatedMessageIn(s: string, n: nat, xs: seq<Dated>) {
    At(s, 0, Mortal) && At(s, 10, DatedText(xs)) && n == 10 + |DatedText(xs)| && At(s, n, Alliance) && |s| == n + |Alliance|
  }

  /** What DATE_REGEX's removal leaves of message 1, in place in `s`. */
  predicate UndatedMessageIn(s: string, n: nat, xs: seq<Dated>) {
    At(s, 0, Mortal) && At(s, 10, UndatedText(xs)) && n == 10 + |UndatedText(xs)| && At(s, n, Alliance) && |s| == n + |Alliance|
  }

  lemma DatedMessageLayout(xs: seq<Dated>)
    ensures DatedMessageIn(DatedMessage(xs), 10 + |DatedText(xs)|, xs)
  {
    MortalIsQuiet();
    ThreeParts(DatedMessage(xs), Mortal, DatedText(xs), Alliance, 10, 10 + |DatedText(xs)|);
  }

  lemma UndatedMessageLayout(xs: seq<Dated>)
    ensures UndatedMessageIn(UndatedMessage(xs), 10 + |UndatedText(xs)|, xs)
  {
    MortalIsQuiet();
    ThreeParts(UndatedMessage(xs), Mortal, UndatedText(xs), Alliance, 10, 10 + |UndatedText(xs)|);
  }

  /** DATE_REGEX finds the lines' dates and nothing else, and its removal leaves the undated lines. */
  lemma DatedScanDates(s: string, n: nat, xs: seq<Dated>)
    requires DatedMessageIn(s, n, xs)
    ensures FindAll(s, DateMatchLen) == DatedRaw(xs)
    ensures WithoutDates(s) == UndatedMessage(xs)
  {
    DatedScanParts(s, n, xs);
    var c0, c10, cn := Chars(Segments(s, 0, DateMatchLen)), Chars(Segments(s, 10, DateMatchLen)), Chars(Segments(s, n, DateMatchLen));
    DatedKeepsAssoc(c0, Mortal, c10, UndatedText(xs), cn, Mortal + UndatedText(xs));
  }

  /** The date scan of message 1, piece by piece: the head, the dated lines, the closing mention. */
  lemma DatedScanParts(s: string, n: nat, xs: seq<Dated>)
    requires DatedMessageIn(s, n, xs)
    ensures Texts(Segments(s, 0, DateMatchLen)) == DatedRaw(xs)
    ensures Chars(Segments(s, 0, DateMatchLen)) == Mortal + Chars(Segments(s, 10, DateMatchLen))
    ensures Chars(Segments(s, 10, DateMatchLen)) == UndatedText(xs) + Chars(Segments(s, n, DateMatchLen))
    ensures Chars(Segments(s, n, DateMatchLen)) == Alliance
  {
    MortalIsQuiet();
    AllianceIsQuiet();
    DateSkip(s, 0, 10, Mortal);
    DatedDates(s, 10, n, xs);
    DateQuietEnd(s, n, Alliance);
  }

  /** A date-quiet piece that ends the text is kept whole and gives no date. */
  lemma DateQuietEnd(s: string, n: nat, c: string)
    requires At(s, n, c) && n + |c| == |s| && DateQuiet(c)
    ensures Texts(Segments(s, n, DateMatchLen)) == [] && Chars(Segments(s, n, DateMatchLen)) == c
  {
    DateSkip(s, n, |s|, c);
    ScanEnd(s, DateMatchLen);
  }

  lemma UndatedScanNoTonight(s: string, n: nat, xs: seq<Dated>)
    requires UndatedMessageIn(s, n, xs)
    ensures !ContainsFolded(s, "tonight")
  {
    MortalIsQuiet();
    AllianceIsQuiet();
    FoldQuietAt(s, 0, Mortal, false);
    UndatedNoTonight(s, 10, n, xs);
    FoldQuietAt(s, n, Alliance, true);
  }

  /** TIME_REGEX finds the lines' clocks, in order, and nothing else. */
  lemma UndatedScanTimes(s: string, n: nat, xs: seq<Dated>)
    requires UndatedMessageIn(s, n, xs)
    ensures FindAll(s, TimeMatchLen) == DatedClocks(xs)
  {
    UndatedTimesHead(s, n, xs);
    UndatedTimesLines(s, n, xs);
    UndatedTimesEnd(s, n, xs);
  }

  lemma UndatedTimesHead(s: string, n: nat, xs: seq<Dated>)
    requires UndatedMessageIn(s, n, xs)
    ensures Texts(Segments(s, 0, TimeMatchLen)) == Texts(Segments(s, 10, TimeMatchLen))
  {
    MortalIsQuiet();
    TimeSkip(s, 0, 10, Mortal);
  }

  lemma UndatedTimesLines(s: string, n: nat, xs: seq<Dated>)
    requires UndatedMessageIn(s, n, xs)
    ensures Texts(Segments(s, 10, TimeMatchLen)) == DatedClocks(xs) + Texts(Segments(s, n, TimeMatchLen))
  {
    AllianceIsQuiet();
    assert s[n + 0] == Alliance[0];
    UndatedTimes(s, 10, n, xs);
  }

  lemma UndatedTimesEnd(s: string, n: nat, xs: seq<Dated>)
    requires UndatedMessageIn(s, n, xs)
    ensures Texts(Segments(s, n, TimeMatchLen)) == []
  {
    AllianceIsQuiet();
    TimeSkip(s, n, |s|, Alliance);
    ScanEnd(s, TimeMatchLen);
  }

  /** MENTION_REGEX finds the closing mention alone. */
  lemma UndatedScanMentions(s: string, n: nat, xs: seq<Dated>)
    requires UndatedMessageIn(s, n, xs)
    ensures FindAll(s, MentionMatchLen) == [Alliance]
  {
    MortalIsQuiet();
    MentionSkip(s, 0, 10, Mortal);
    UndatedMentions(s, 10, n, xs);
    AllianceHere(s, n);
    Take(s, n, |s|, Alliance, MentionMatchLen);
    ScanEnd(s, MentionMatchLen);
  }

  lemma DatedScanGuild(s: string, n: nat, xs: seq<Dated>)
    requires DatedMessageIn(s, n, xs)
    ensures GuildName(s) == "Mortal"
  {
    assert At(Mortal, 0, "<" + "Mortal" + ">");
    AtWithin(s, 0, Mortal, 0, "<" + "Mortal" + ">");
    GuildInFront(s, "Mortal");
  }

  lemma DatedMessageTokens(xs: seq<Dated>, today: Date)
    requires ValidDate(today) && xs != []
    ensures Tokenize(DatedMessage(xs), today) == DatedTokens(xs)
  {
    var s, n := DatedMessage(xs), 10 + |DatedText(xs)|;
    var u, un := UndatedMessage(xs), 10 + |UndatedText(xs)|;
    DatedMessageLayout(xs);
    DatedScanDates(s, n, xs);
    DatedScanGuild(s, n, xs);
    UndatedMessageLayout(xs);
    UndatedScanNoTonight(u, un, xs);
    UndatedScanTimes(u, un, xs);
    UndatedScanMentions(u, un, xs);
    KeptWritten(xs);
    forall k | 0 <= k < |xs| ensures NormalizeTime(DatedClocks(xs)[k]) == DatedClocks(xs)[k] {
      ClockReads(xs[k].hour, xs[k].minute);
    }
    TimesAre(UndatedMessage(xs), DatedClocks(xs));
    DatesAreKept(s, today);
    TokensAre(s, today, "Mortal", DatedDays(xs), DatedClocks(xs), [Alliance]);
  }

  /** The events of dated lines: each on its own day, all Onyxia (Alliance), credited to Mortal. */
  function DatedEvents(xs: seq<Dated>): seq<Event> {
    seq(|xs|, k requires 0 <= k < |xs| => DatedEvent(xs[k]))
  }

  function DatedEvent(x: Dated): Event {
    Event(Alliance, WallTime(x.date, x.hour, x.minute), "CET", "7", "Mortal")
  }

  /** The tokens message 1 gives: one date and one clock per line, and the closing mention. */
  function DatedTokens(xs: seq<Dated>): Tokens {
    Tokens("Mortal", DatedDays(xs), DatedClocks(xs), [Alliance])
  }

  lemma DatedAssembled(xs: seq<Dated>)
    requires xs != []
    ensures Assemble(DatedTokens(xs))
            == if exists k :: 0 <= k < |xs| && OutermostDay(xs[k].date) then Err(LocalizeOverflow) else Ok(DatedEvents(xs))
  {
    var tk := DatedTokens(xs);
    var es := DatedEvents(xs);
    DatedPairable(xs);
    forall k | 0 <= k < |es| ensures Candidate(tk, k) == Some(es[k]) {
      DatedCandidate(xs, k);
    }
    AssembledAs(tk, es);
    DatedOutermost(xs);
  }

  /** The events of dated lines fall on an outermost day exactly when one of their days is one. */
  lemma DatedOutermost(xs: seq<Dated>)
    ensures OnOutermostDay(DatedEvents(xs)) <==> exists k :: 0 <= k < |xs| && OutermostDay(xs[k].date)
  {
    var es := DatedEvents(xs);
    assert forall k :: 0 <= k < |xs| ==> es[k].at.date == xs[k].date;
  }

  lemma DatedPairable(xs: seq<Dated>)
    requires xs != []
    ensures Pairable(DatedTokens(xs))
  {
    forall k | 0 <= k < |xs| ensures TimeText(DatedClocks(xs)[k]) {
      ClockReads(xs[k].hour, xs[k].minute);
    }
  }

  /** The `k`-th clock pairs with the `k`-th day into the `k`-th line's event. */
  lemma DatedCandidate(xs: seq<Dated>, k: nat)
    requires k < |xs| && Pairable(DatedTokens(xs))
    ensures Candidate(DatedTokens(xs), k) == Some(DatedEvent(xs[k]))
  {
    var x := xs[k];
    MentionColors();
    ClockReads(x.hour, x.minute);
    TodayAt(x.date, Clock(x.hour, x.minute));
  }

  /** A message of dated lines announces one event per line on its day,
      unless one of the days is an outermost day, where `localize` raises. */
  lemma DatedMessageEvents(xs: seq<Dated>, today: Date)
    requires ValidDate(today) && xs != []
    ensures Parse(DatedMessage(xs), today)
            == if exists k :: 0 <= k < |xs| && OutermostDay(xs[k].date) then Err(LocalizeOverflow) else Ok(DatedEvents(xs))
  {
    DatedMessageTokens(xs, today);
    DatedAssembled(xs);
    ParseIs(DatedMessage(xs), today, DatedTokens(xs), Assemble(DatedTokens(xs)));
  }

  const Days1: seq<Dated> := [Dated(Date(28, 2, 2025), 19, 45), Dated(Date(1, 3, 2025), 19, 45), Dated(Date(2, 3, 2025), 19, 45)]

  const Message1: string := DatedMessage(Days1)

  /** Three dated lines and a closing Alliance mention: the Onyxia buff at
      19:45 on each of the three days, blue, credited to Mortal. */
  lemma Message1Events(today: Date)
    requires ValidDate(today)
    ensures Parse(Message1, today) == Ok([
      Event(Alliance, WallTime(Date(28, 2, 2025), 19, 45), "CET", "7", "Mortal"),
      Event(Alliance, WallTime(Date(1, 3, 2025), 19, 45), "CET", "7", "Mortal"),
      Event(Alliance, WallTime(Date(2, 3, 2025), 19, 45), "CET", "7", "Mortal")])
  {
    DatedMessageEvents(Days1, today);
    Days1InRange();
    Days1Events();
  }

  lemma Days1InRange()
    ensures !exists k :: 0 <= k < |Days1| && OutermostDay(Days1[k].date)
  {
    assert forall k :: 0 <= k < |Days1| ==> Days1[k].date.year == 2025;
  }

  lemma Days1Events()
    ensures DatedEvents(Days1) == [
      Event(Alliance, WallTime(Date(28, 2, 2025), 19, 45), "CET", "7", "Mortal"),
      Event(Alliance, WallTime(Date(1, 3, 2025), 19, 45), "CET", "7", "Mortal"),
      Event(Alliance, WallTime(Date(2, 3, 2025), 19, 45), "CET", "7", "Mortal")]
  {
    assert DatedEvents(Days1) == [DatedEvent(Days1[0]), DatedEvent(Days1[1]), DatedEvent(Days1[2])];
  }

  // ------------------------------------------------------------- message 5

  const Pops5: seq<Pop> := [Pop(RendBuff, 4, 20, 0)]

  const Message5: string := PopText(Pops5) + Layer

  /** `<Victory> will pop @RendBuff - 20:00` with no date: one Rend buff
      today at 20:00, red, credited to Victory (`OverflowError` if today is
      an outermost day). */
  lemma Message5Events(today: Date)
    requires ValidDate(today)
    ensures Parse(Message5, today)
            == if OutermostDay(today) then Err(LocalizeOverflow) else Ok([Event(Rend, WallTime(today, 20, 0), "CET", "11", "Victory")])
  {
    LayerIsPlain();
    PopMessageEvents(Pops5, Layer, today);
    assert PopEvents(Pops5, today) == [PopEvent(Pops5[0], today)];
  }

  // ------------------------------------------------------------- message 3

  const Pops3: seq<Pop> := [Pop(RendBuff, 3, 14, 0), Pop(RendBuff, 2, 17, 1), Pop(RendBuff, 2, 20, 2), Pop(HordeBuff, 4, 20, 2)]

  const LayerLine: string := Layer + Newline

  const Message3: string := PopText(Pops3) + LayerLine

  /** Four pop lines and no date: three Rend buffs and an Onyxia (Horde)
      buff, all today, in the order written (`OverflowError` if today is an
      outermost day). */
  lemma Message3Events(today: Date)
    requires ValidDate(today)
    ensures Parse(Message3, today) == if OutermostDay(today) then Err(LocalizeOverflow) else Ok([
      Event(Rend, WallTime(today, 14, 0), "CET", "11", "Victory"),
      Event(Rend, WallTime(today, 17, 1), "CET", "11", "Victory"),
      Event(Rend, WallTime(today, 20, 2), "CET", "11", "Victory"),
      Event(Horde, WallTime(today, 20, 2), "CET", "11", "Victory")])
  {
    PlainPieces();
    LayerIsPlain();
    PlainJoin(Layer, Newline);
    assert LayerLine[0] == Layer[0];
    PopMessageEvents(Pops3, LayerLine, today);
    PopEventsFour(Pops3, today);
  }

  lemma PopEventsFour(ls: seq<Pop>, today: Date)
    requires |ls| == 4
    ensures PopEvents(ls, today) == [PopEvent(ls[0], today), PopEvent(ls[1], today), PopEvent(ls[2], today), PopEvent(ls[3], today)]
  {
  }

  // ------------------------------------------------------------- message 2

  const Nihilum: string := "<Nihilum>"
  const WillPopCap: string := " Will pop "
  const Sp: string := " "
  const Cet: string := " CET "
  const Tonight: string := "tonight"

  /** `<Nihilum> Will pop @Onyxia Alliance HH:MM CET `: the part of message 2
      before its date words. */
  function TonightHead(h: Hour, m: Minute): string {
    Nihilum + WillPopCap + Alliance + Sp + Clock(h, m) + Cet
  }

  /** Message 2: a clock with its zone, then `tonight` and a written date. */
  function TonightMessage(h: Hour, m: Minute, d: Day): string {
    TonightHead(h, m) + Tonight + Sp + Written(d, '-')
  }

  /** What DATE_REGEX's removal leaves of message 2. */
  function TonightText(h: Hour, m: Minute): string {
    TonightHead(h, m) + Sp
  }

  lemma TonightLengths()
    ensures Sp == [' '] && |Nihilum| == 9 && |WillPopCap| == 10 && |Cet| == 5 && Cet[0] == ' ' && Cet[4] == ' '
  {
  }

  lemma TonightPlain()
    ensures Plain(WillPopCap) && Plain(Sp)
  {
  }

  lemma CetZone()
    ensures At(Cet, 0, " " + "CET")
  {
  }

  lemma NihilumTag()
    ensures At(Nihilum, 0, "<" + "Nihilum" + ">")
  {
  }

  lemma NihilumIsQuiet()
    ensures DateQuiet(Nihilum) && NoDigit(Nihilum) && NoAt(Nihilum) && FoldQuiet(Nihilum, false)
  {
  }

  lemma CetIsQuiet()
    ensures DateQuiet(Cet) && NoDigit(Cet) && NoAt(Cet) && FoldQuiet(Cet, false)
  {
  }

  lemma TonightHeadLayout(s: string, h: Hour, m: Minute)
    requires At(s, 0, TonightHead(h, m))
    ensures |TonightHead(h, m)| == 46 && |Clock(h, m)| == 5
    ensures At(s, 0, Nihilum) && At(s, 9, WillPopCap) && At(s, 19, Alliance) && At(s, 35, Sp)
    ensures At(s, 36, Clock(h, m)) && At(s, 36, Clock(h, m) + Sp) && At(s, 41, Cet)
  {
    var c := Clock(h, m);
    ClockLayout(h, m);
    TonightLengths();
    AtSplit(s, 0, Nihilum + WillPopCap + Alliance + Sp + c, Cet);
    AtSplit(s, 0, Nihilum + WillPopCap + Alliance + Sp, c);
    TonightLeadLayout(s);
    TonightClockSpace(s, c);
  }

  lemma TonightHeadLength(h: Hour, m: Minute)
    ensures |TonightHead(h, m)| == 46
  {
    ClockLayout(h, m);
    TonightLengths();
  }

  lemma TonightLeadLayout(s: string)
    requires At(s, 0, Nihilum + WillPopCap + Alliance + Sp)
    ensures At(s, 0, Nihilum) && At(s, 9, WillPopCap) && At(s, 19, Alliance) && At(s, 35, Sp)
  {
    TonightLengths();
    AtSplit(s, 0, Nihilum + WillPopCap + Alliance, Sp);
    AtSplit(s, 0, Nihilum + WillPopCap, Alliance);
    AtSplit(s, 0, Nihilum, WillPopCap);
  }

  /** The zone piece opens with a space, so the clock has one after it. */
  lemma TonightClockSpace(s: string, c: string)
    requires |c| == 5 && At(s, 36, c) && At(s, 41, Cet)
    ensures At(s, 36, c + Sp)
  {
    TonightLengths();
    AtWithin(s, 41, Cet, 0, Sp);
    AtJoin(s, 36, c, Sp);
  }

  lemma TonightLayout(h: Hour, m: Minute, d: Day)
    ensures |TonightMessage(h, m, d)| == 64 && |Written(d, '-')| == 10
    ensures At(TonightMessage(h, m, d), 0, TonightHead(h, m)) && At(TonightMessage(h, m, d), 46, Tonight)
    ensures At(TonightMessage(h, m, d), 53, Sp) && At(TonightMessage(h, m, d), 54, Written(d, '-'))
  {
    var s := TonightMessage(h, m, d);
    var head := TonightHead(h, m);
    TonightHeadLength(h, m);
    TonightLengths();
    WrittenLayout(d, '-');
    ThreeParts(s, head + Tonight, Sp, Written(d, '-'), 53, 54);
    TwoParts(head + Tonight, head, Tonight, 46);
    AtWithin(s, 0, head + Tonight, 0, head);
    AtWithin(s, 0, head + Tonight, 46, Tonight);
  }

  /** The head of message 2 holds no date. */
  lemma TonightHeadDates(s: string, h: Hour, m: Minute)
    requires At(s, 0, TonightHead(h, m))
    ensures Texts(Segments(s, 0, DateMatchLen)) == Texts(Segments(s, 46, DateMatchLen))
    ensures Chars(Segments(s, 0, DateMatchLen)) == TonightHead(h, m) + Chars(Segments(s, 46, DateMatchLen))
  {
    TonightHeadLayout(s, h, m);
    TonightLengths();
    TonightPlain();
    NihilumIsQuiet();
    CetIsQuiet();
    AllianceIsQuiet();
    PlainIsQuiet(WillPopCap, false);
    PlainIsQuiet(Sp, false);
    ClockThen(h, m, ' ');
    DateQuietAt(s, 0, Nihilum);
    DateQuietAt(s, 9, WillPopCap);
    DateQuietAt(s, 19, Alliance);
    DateQuietAt(s, 35, Sp);
    DateQuietAt(s, 36, Clock(h, m) + Sp);
    DateQuietAt(s, 41, Cet);
    QuietRun(s, 0, 46, DateMatchLen);
    AtSlice(s, 0, TonightHead(h, m));
  }

  /** A standalone `tonight`, one space and a date that ends the text: both
      are matches and the space is all that is kept. */
  lemma TonightTail(s: string, n: nat, w: string)
    requires At(s, n, Tonight) && At(s, n + 7, Sp) && At(s, n + 8, w) && n + 18 == |s|
    requires 0 < n && !IsWordChar(s[n - 1]) && DateShape(w)
    ensures Texts(Segments(s, n, DateMatchLen)) == [Tonight, w]
    ensures Chars(Segments(s, n, DateMatchLen)) == Sp
  {
    TonightLengths();
    TonightPlain();
    assert s[n + 7 + 0] == Sp[0];
    TonightHere(s, n);
    MatchStep(s, n, DateMatchLen);
    AtSlice(s, n, Tonight);
    PlainIsQuiet(Sp, false);
    DateQuietAt(s, n + 7, Sp);
    QuietRun(s, n + 7, n + 8, DateMatchLen);
    AtSlice(s, n + 7, Sp);
    DateHere(s, n + 8, w);
    MatchStep(s, n + 8, DateMatchLen);
    AtSlice(s, n + 8, w);
    ScanEnd(s, DateMatchLen);
  }

  /** Message 2 in place in `s`, its written date being `w`. */
  predicate TonightIn(s: string, h: Hour, m: Minute, w: string) {
    |s| == 64 && At(s, 0, TonightHead(h, m)) && At(s, 46, Tonight) && At(s, 53, Sp) && At(s, 54, w) && DateShape(w)
  }

  lemma TonightScanDates(s: string, h: Hour, m: Minute, w: string)
    requires TonightIn(s, h, m, w)
    ensures FindAll(s, DateMatchLen) == [Tonight, w]
    ensures WithoutDates(s) == TonightText(h, m)
  {
    TonightLengths();
    TonightHeadDates(s, h, m);
    assert s[45] == Cet[4] by { TonightHeadLayout(s, h, m); assert s[41 + 4] == Cet[4]; }
    TonightTail(s, 46, w);
  }

  lemma TonightDates(h: Hour, m: Minute, d: Day)
    ensures FindAll(TonightMessage(h, m, d), DateMatchLen) == [Tonight, Written(d, '-')]
    ensures WithoutDates(TonightMessage(h, m, d)) == TonightText(h, m)
  {
    TonightLayout(h, m, d);
    WrittenNormal(d, '-');
    TonightScanDates(TonightMessage(h, m, d), h, m, Written(d, '-'));
  }

  lemma TonightTextLayout(h: Hour, m: Minute)
    ensures |TonightText(h, m)| == 47
    ensures At(TonightText(h, m), 0, TonightHead(h, m)) && At(TonightText(h, m), 46, Sp)
  {
    var t := TonightText(h, m);
    TonightHeadLayout(TonightHead(h, m), h, m);
    assert At(t, 0, t);
    AtSplit(t, 0, TonightHead(h, m), Sp);
  }

  /** The one TIME_REGEX match of message 2 is its clock with the zone. */
  lemma TonightTimes(h: Hour, m: Minute)
    ensures FindAll(TonightText(h, m), TimeMatchLen) == [Clock(h, m) + " CET"]
  {
    var t := TonightText(h, m);
    TonightTextLayout(h, m);
    TonightTimeHead(t, h, m);
    TonightTimeMatch(t, h, m);
    TonightTimeEnd(t, h, m);
  }

  lemma TonightTimeHead(s: string, h: Hour, m: Minute)
    requires At(s, 0, TonightHead(h, m))
    ensures Texts(Segments(s, 0, TimeMatchLen)) == Texts(Segments(s, 36, TimeMatchLen))
  {
    TonightHeadLayout(s, h, m);
    TonightLengths();
    TonightPlain();
    NihilumIsQuiet();
    PlainIsQuiet(WillPopCap, false);
    PlainIsQuiet(Sp, false);
    AllianceIsQuiet();
    TimeQuietAt(s, 0, Nihilum);
    TimeQuietAt(s, 9, WillPopCap);
    TimeQuietAt(s, 19, Alliance);
    TimeQuietAt(s, 35, Sp);
    QuietRun(s, 0, 36, TimeMatchLen);
  }

  lemma TonightTimeMatch(t: string, h: Hour, m: Minute)
    requires At(t, 0, TonightHead(h, m)) && |t| == 47
    ensures Texts(Segments(t, 36, TimeMatchLen)) == [Clock(h, m) + " CET"] + Texts(Segments(t, 45, TimeMatchLen))
  {
    var c := Clock(h, m);
    TonightHeadLayout(t, h, m);
    TonightLengths();
    ClockIsShaped(h, m);
    CetZone();
    AtWithin(t, 41, Cet, 0, " " + "CET");
    assert t[35 + 0] == Sp[0] && t[41 + 4] == Cet[4];
    TimeZoned(t, 36, c, "CET");
    MatchStep(t, 36, TimeMatchLen);
    AtJoin(t, 36, c, " " + "CET");
    AtSlice(t, 36, c + (" " + "CET"));
    assert c + (" " + "CET") == c + " CET";
  }

  lemma TonightTimeEnd(t: string, h: Hour, m: Minute)
    requires At(t, 0, TonightHead(h, m)) && At(t, 46, Sp) && |t| == 47
    ensures Texts(Segments(t, 45, TimeMatchLen)) == []
  {
    TonightHeadLayout(t, h, m);
    TonightLengths();
    TonightPlain();
    CetIsQuiet();
    PlainIsQuiet(Sp, false);
    TimeQuietAt(t, 41, Cet);
    TimeQuietAt(t, 46, Sp);
    QuietRun(t, 45, 47, TimeMatchLen);
    ScanEnd(t, TimeMatchLen);
  }

  lemma TonightMentions(h: Hour, m: Minute)
    ensures FindAll(TonightText(h, m), MentionMatchLen) == [Alliance]
  {
    var t := TonightText(h, m);
    TonightTextLayout(h, m);
    TonightMentionHead(t, h, m);
    TonightMentionEnd(t, h, m);
  }

  lemma TonightMentionHead(s: string, h: Hour, m: Minute)
    requires At(s, 0, TonightHead(h, m))
    ensures Texts(Segments(s, 0, MentionMatchLen)) == [Alliance] + Texts(Segments(s, 35, MentionMatchLen))
  {
    TonightHeadLayout(s, h, m);
    TonightLengths();
    TonightPlain();
    NihilumIsQuiet();
    PlainIsQuiet(WillPopCap, false);
    MentionQuietAt(s, 0, Nihilum);
    MentionQuietAt(s, 9, WillPopCap);
    QuietRun(s, 0, 19, MentionMatchLen);
    AllianceHere(s, 19);
    MatchStep(s, 19, MentionMatchLen);
    AtSlice(s, 19, Alliance);
  }

  lemma TonightMentionEnd(t: string, h: Hour, m: Minute)
    requires At(t, 0, TonightHead(h, m)) && At(t, 46, Sp) && |t| == 47
    ensures Texts(Segments(t, 35, MentionMatchLen)) == []
  {
    TonightHeadLayout(t, h, m);
    TonightLengths();
    TonightPlain();
    CetIsQuiet();
    ClockIsQuiet(h, m);
    PlainIsQuiet(Sp, false);
    MentionQuietAt(t, 35, Sp);
    MentionQuietAt(t, 36, Clock(h, m));
    MentionQuietAt(t, 41, Cet);
    MentionQuietAt(t, 46, Sp);
    QuietRun(t, 35, 47, MentionMatchLen);
    ScanEnd(t, MentionMatchLen);
  }

  /** Once the date words are gone, no `tonight` is left. */
  lemma TonightGone(h: Hour, m: Minute)
    ensures !ContainsFolded(TonightText(h, m), "tonight")
  {
    var t := TonightText(h, m);
    TonightTextLayout(h, m);
    TonightLengths();
    TonightPlain();
    TonightHeadFold(t, h, m);
    PlainIsQuiet(Sp, false);
    FoldQuietAt(t, 46, Sp, false);
  }

  lemma TonightHeadFold(s: string, h: Hour, m: Minute)
    requires At(s, 0, TonightHead(h, m))
    ensures forall p :: 0 <= p < 46 ==> !FoldedAt(s, p, "tonight")
  {
    TonightHeadLayout(s, h, m);
    TonightLengths();
    TonightPlain();
    NihilumIsQuiet();
    CetIsQuiet();
    ClockIsQuiet(h, m);
    PlainIsQuiet(WillPopCap, false);
    PlainIsQuiet(Sp, false);
    AllianceIsQuiet();
    FoldQuietAt(s, 0, Nihilum, false);
    FoldQuietAt(s, 9, WillPopCap, false);
    FoldQuietAt(s, 19, Alliance, false);
    FoldQuietAt(s, 35, Sp, false);
    FoldQuietAt(s, 36, Clock(h, m), false);
    FoldQuietAt(s, 41, Cet, false);
  }

  /** A clock with a zone after it normalises to the clock alone. */
  lemma ZonedClockNormal(h: Hour, m: Minute, z: string)
    ensures NormalizeTime(Clock(h, m) + z) == Clock(h, m)
  {
    ClockReads(h, m);
    ClockLayout(h, m);
    assert ClockGroup(Clock(h, m) + z) == Clock(h, m) == ClockGroup(Clock(h, m));
  }

  /** `tonight` is dropped from the kept dates; a written date is kept in `strftime`'s form. */
  lemma KeptTonight(w: string)
    requires w != "" && !IsTonightWord(w)
    ensures KeptDates([Tonight, w]) == [NormalizeDate(w)]
  {
    assert IsTonightWord(Tonight) by {
      assert forall k :: 0 <= k < 7 ==> AsciiLower(Tonight[0 + k]) == "tonight"[k];
    }
    var raw := [Tonight, w];
    assert raw[1..] == [w] && [w][1..] == [];
    assert KeptDates(raw) == KeptDates([w]);
    assert KeptDates([w]) == [NormalizeDate(w)] + KeptDates([]);
  }

  lemma TonightDays(h: Hour, m: Minute, d: Day, today: Date)
    requires ValidDate(today)
    ensures Dates(TonightMessage(h, m, d), today) == [FormatDate(d)]
  {
    TonightDates(h, m, d);
    TonightGone(h, m);
    WrittenNormal(d, '-');
    KeptTonight(Written(d, '-'));
    DatesAreKept(TonightMessage(h, m, d), today);
  }

  lemma TonightGuild(h: Hour, m: Minute, d: Day)
    ensures GuildName(TonightMessage(h, m, d)) == "Nihilum"
  {
    var s := TonightMessage(h, m, d);
    TonightLayout(h, m, d);
    TonightLengths();
    AtWithin(s, 0, TonightHead(h, m), 0, Nihilum);
    NihilumTag();
    AtWithin(s, 0, Nihilum, 0, "<" + "Nihilum" + ">");
    GuildInFront(s, "Nihilum");
  }

  lemma TonightTokens(h: Hour, m: Minute, d: Day, today: Date)
    requires ValidDate(today)
    ensures Tokenize(TonightMessage(h, m, d), today) == Tokens("Nihilum", [FormatDate(d)], [Clock(h, m)], [Alliance])
  {
    var s := TonightMessage(h, m, d);
    TonightDates(h, m, d);
    TonightTimes(h, m);
    ZonedClockNormal(h, m, " CET");
    TimesAre(TonightText(h, m), [Clock(h, m)]);
    TonightMentions(h, m);
    TonightDays(h, m, d, today);
    TonightGuild(h, m, d);
    TokensAre(s, today, "Nihilum", [FormatDate(d)], [Clock(h, m)], [Alliance]);
  }

  /** One Onyxia (Alliance) event on the written day: `tonight` adds no date
      when a written one is there. On an outermost day `localize` raises. */
  lemma TonightEvents(h: Hour, m: Minute, d: Day, today: Date)
    requires ValidDate(today)
    ensures Parse(TonightMessage(h, m, d), today)
            == if OutermostDay(d) then Err(LocalizeOverflow) else Ok([Event(Alliance, WallTime(d, h, m), "CET", "7", "Nihilum")])
  {
    TonightTokens(h, m, d, today);
    OneAllianceAssembled("Nihilum", h, m, d);
    ParseIs(TonightMessage(h, m, d), today, Tokens("Nihilum", [FormatDate(d)], [Clock(h, m)], [Alliance]),
            if OutermostDay(d) then Err(LocalizeOverflow) else Ok([Event(Alliance, WallTime(d, h, m), "CET", "7", "Nihilum")]));
  }

  /** One day, one clock and the Alliance mention make one blue Onyxia
      event, or `OverflowError` on an outermost day. */
  lemma OneAllianceAssembled(g: string, h: Hour, m: Minute, d: Day)
    ensures Pairable(Tokens(g, [FormatDate(d)], [Clock(h, m)], [Alliance]))
    ensures Assemble(Tokens(g, [FormatDate(d)], [Clock(h, m)], [Alliance]))
            == if OutermostDay(d) then Err(LocalizeOverflow) else Ok([Event(Alliance, WallTime(d, h, m), "CET", "7", g)])
  {
    var tk := Tokens(g, [FormatDate(d)], [Clock(h, m)], [Alliance]);
    var es := [Event(Alliance, WallTime(d, h, m), "CET", "7", g)];
    MentionColors();
    ClockReads(h, m);
    TodayAt(d, Clock(h, m));
    assert Pairable(tk);
    assert Candidate(tk, 0) == Some(es[0]);
    AssembledAs(tk, es);
  }

  const Message2: string := TonightMessage(23, 0, Date(28, 2, 2025))

  /** `<Nihilum> Will pop @Onyxia Alliance 23:00 CET tonight 28-02-2025`:
      one Onyxia buff at 23:00 on the written day, blue, credited to Nihilum. */
  lemma Message2Events(today: Date)
    requires ValidDate(today)
    ensures Parse(Message2, today) == Ok([Event(Alliance, WallTime(Date(28, 2, 2025), 23, 0), "CET", "7", "Nihilum")])
  {
    TonightEvents(23, 0, Date(28, 2, 2025), today);
  }

  // ------------------------------------------------------------- message 4

  const JustPull: string := "<Just Pull HC>\n"
  const Gap: string := "   "
  const St: string := " ST"

  /** `<Just Pull HC>`, a line feed, the Alliance mention and three spaces. */
  const ZonedHead: string := JustPull + Alliance + Gap

  /** A time of day written `HH.MM`. */
  function DotClock(h: Hour, m: Minute): string {
    Padded(h, 2) + "." + Padded(m, 2)
  }

  /** ` - HH.MM ST`: the part of message 4 after its date. */
  function ZonedTail(h: Hour, m: Minute): string {
    DashSp + DotClock(h, m) + St
  }

  /** Message 4: a mention, a date written with `/`, and a dotted clock with a zone. */
  function ZonedMessage(h: Hour, m: Minute, d: Day): string {
    ZonedHead + Written(d, '/') + ZonedTail(h, m)
  }

  /** What DATE_REGEX's removal leaves of message 4. */
  function ZonedText(h: Hour, m: Minute): string {
    ZonedHead + ZonedTail(h, m)
  }

  lemma ZonedLengths()
    ensures |JustPull| == 15 && |ZonedHead| == 34 && ZonedHead[33] == ' ' && |St| == 3
  {
  }

  lemma ZonedHeadParts()
    ensures At(ZonedHead, 0, JustPull) && At(ZonedHead, 15, Alliance) && At(ZonedHead, 31, Gap)
  {
  }

  lemma GapIsPlain()
    ensures Plain(Gap)
  {
  }

  lemma JustPullTag()
    ensures At(JustPull, 0, "<" + "Just Pull HC" + ">")
  {
  }

  lemma StZone()
    ensures At(St, 0, " " + "ST")
  {
  }

  lemma JustPullIsQuiet()
    ensures DateQuiet(JustPull) && NoDigit(JustPull) && NoAt(JustPull) && FoldQuiet(JustPull, false)
  {
  }

  /** The head of message 4 piece by piece, none of which starts a scan. */
  lemma ZonedHeadLayout(s: string)
    requires At(s, 0, ZonedHead)
    ensures At(s, 0, JustPull) && At(s, 15, Alliance) && At(s, 31, Gap)
  {
    ZonedHeadParts();
    AtWithin(s, 0, ZonedHead, 0, JustPull);
    AtWithin(s, 0, ZonedHead, 15, Alliance);
    AtWithin(s, 0, ZonedHead, 31, Gap);
  }

  /** The head of message 4 holds no date and no time. */
  lemma ZonedHeadQuiet(s: string)
    requires At(s, 0, ZonedHead)
    ensures forall p :: 0 <= p < 34 ==> !Fits(s, p, DateMatchLen) && !Fits(s, p, TimeMatchLen)
  {
    ZonedHeadLayout(s);
    JustPullIsQuiet();
    AllianceIsQuiet();
    GapIsPlain();
    PlainIsQuiet(Gap, false);
    DateQuietAt(s, 0, JustPull);
    DateQuietAt(s, 15, Alliance);
    DateQuietAt(s, 31, Gap);
    TimeQuietAt(s, 0, JustPull);
    TimeQuietAt(s, 15, Alliance);
    TimeQuietAt(s, 31, Gap);
  }

  lemma DotClockLayout(h: Hour, m: Minute)
    ensures |DotClock(h, m)| == 5 && DotClock(h, m)[2] == '.' && ClockShape(DotClock(h, m))
    ensures IsDigit(DotClock(h, m)[0]) && IsDigit(DotClock(h, m)[1]) && IsDigit(DotClock(h, m)[3]) && IsDigit(DotClock(h, m)[4])
  {
    ClockLayout(h, m);
  }

  /** A dotted clock with a zone after it normalises to the `HH:MM` clock. */
  lemma DotClockNormal(h: Hour, m: Minute)
    ensures NormalizeTime(DotClock(h, m) + St) == Clock(h, m)
  {
    var dc := DotClock(h, m);
    DotClockLayout(h, m);
    ClockLayout(h, m);
    assert ClockGroup(dc + St) == dc;
    StripUnpadded(dc);
    var r := Replace(dc, '.', ':');
    forall k | 0 <= k < 5 ensures r[k] == Clock(h, m)[k] {
      assert k < 2 ==> dc[k] == Padded(h, 2)[k] == Clock(h, m)[k];
      assert 2 < k ==> dc[k] == Padded(m, 2)[k - 3] == Clock(h, m)[k];
    }
  }

  lemma ZonedTailLayout(s: string, i: nat, h: Hour, m: Minute)
    requires At(s, i, ZonedTail(h, m))
    ensures |ZonedTail(h, m)| == 11
    ensures At(s, i, DashSp) && At(s, i + 3, DotClock(h, m)) && At(s, i + 8, St)
  {
    DotClockLayout(h, m);
    AtSplit(s, i, DashSp + DotClock(h, m), St);
    AtSplit(s, i, DashSp, DotClock(h, m));
  }

  lemma ZonedTailIsQuiet(h: Hour, m: Minute)
    ensures DateQuiet(ZonedTail(h, m)) && NoAt(ZonedTail(h, m)) && FoldQuiet(ZonedTail(h, m), true)
  {
    var c := ZonedTail(h, m);
    var dc := DotClock(h, m);
    DotClockLayout(h, m);
    assert c[3] == dc[0] && c[4] == dc[1] && c[5] == '.' && c[6] == dc[3] && c[7] == dc[4];
    assert c[8] == ' ' && c[9] == 'S' && c[10] == 'T';
    assert DateDeadIn(c, 3) && DateDeadIn(c, 4) && DateDeadIn(c, 6) && DateDeadIn(c, 7);
  }

  lemma ZonedLayout(h: Hour, m: Minute, d: Day)
    ensures |ZonedMessage(h, m, d)| == 55 && |Written(d, '/')| == 10 && |ZonedTail(h, m)| == 11
    ensures At(ZonedMessage(h, m, d), 0, ZonedHead) && At(ZonedMessage(h, m, d), 34, Written(d, '/'))
    ensures At(ZonedMessage(h, m, d), 44, ZonedTail(h, m))
  {
    var s := ZonedMessage(h, m, d);
    ZonedLengths();
    WrittenLayout(d, '/');
    DotClockLayout(h, m);
    assert At(s, 0, s);
    AtSplit(s, 0, ZonedHead + Written(d, '/'), ZonedTail(h, m));
    AtSplit(s, 0, ZonedHead, Written(d, '/'));
  }

  lemma ZonedTextLayout(h: Hour, m: Minute)
    ensures |ZonedText(h, m)| == 45 && At(ZonedText(h, m), 0, ZonedHead) && At(ZonedText(h, m), 34, ZonedTail(h, m))
  {
    var t := ZonedText(h, m);
    ZonedLengths();
    DotClockLayout(h, m);
    assert At(t, 0, t);
    AtSplit(t, 0, ZonedHead, ZonedTail(h, m));
  }

  /** The one DATE_REGEX match of message 4 is its date; head and tail are kept. */
  lemma ZonedDates(h: Hour, m: Minute, d: Day)
    ensures FindAll(ZonedMessage(h, m, d), DateMatchLen) == [Written(d, '/')]
    ensures WithoutDates(ZonedMessage(h, m, d)) == ZonedText(h, m)
  {
    var s := ZonedMessage(h, m, d);
    ZonedLayout(h, m, d);
    WrittenNormal(d, '/');
    ZonedDateHead(s);
    ZonedLengths();
    assert s[0 + 33] == ZonedHead[33];
    ZonedDateTail(s, Written(d, '/'), h, m);
  }

  lemma ZonedDateHead(s: string)
    requires At(s, 0, ZonedHead)
    ensures Texts(Segments(s, 0, DateMatchLen)) == Texts(Segments(s, 34, DateMatchLen))
    ensures Chars(Segments(s, 0, DateMatchLen)) == ZonedHead + Chars(Segments(s, 34, DateMatchLen))
  {
    ZonedLengths();
    ZonedHeadQuiet(s);
    QuietRun(s, 0, 34, DateMatchLen);
    AtSlice(s, 0, ZonedHead);
  }

  /** A date with a space before it and the tail after it: the date is the one match. */
  lemma ZonedDateTail(s: string, w: string, h: Hour, m: Minute)
    requires At(s, 34, w) && DateShape(w) && At(s, 44, ZonedTail(h, m)) && |s| == 55 && s[33] == ' '
    ensures Texts(Segments(s, 34, DateMatchLen)) == [w]
    ensures Chars(Segments(s, 34, DateMatchLen)) == ZonedTail(h, m)
  {
    ZonedTailLayout(s, 44, h, m);
    ZonedTailIsQuiet(h, m);
    assert s[44 + 0] == ZonedTail(h, m)[0];
    DateHere(s, 34, w);
    MatchStep(s, 34, DateMatchLen);
    AtSlice(s, 34, w);
    DateQuietEnd(s, 44, ZonedTail(h, m));
  }

  /** The one TIME_REGEX match of message 4 is its dotted clock with the zone. */
  lemma ZonedTimes(h: Hour, m: Minute)
    ensures FindAll(ZonedText(h, m), TimeMatchLen) == [DotClock(h, m) + St]
  {
    var t := ZonedText(h, m);
    ZonedTextLayout(h, m);
    ZonedTimeHead(t, h, m);
    ZonedTimeMatch(t, h, m);
  }

  lemma ZonedTimeHead(s: string, h: Hour, m: Minute)
    requires At(s, 0, ZonedHead) && At(s, 34, ZonedTail(h, m))
    ensures Texts(Segments(s, 0, TimeMatchLen)) == Texts(Segments(s, 37, TimeMatchLen))
  {
    ZonedHeadQuiet(s);
    ZonedTailLayout(s, 34, h, m);
    DatedPieces();
    PlainIsQuiet(DashSp, false);
    TimeQuietAt(s, 34, DashSp);
    QuietRun(s, 0, 37, TimeMatchLen);
  }

  lemma ZonedTimeMatch(t: string, h: Hour, m: Minute)
    requires At(t, 34, ZonedTail(h, m)) && |t| == 45
    ensures Texts(Segments(t, 37, TimeMatchLen)) == [DotClock(h, m) + St]
  {
    var dc := DotClock(h, m);
    ZonedTailLayout(t, 34, h, m);
    ZonedLengths();
    StZone();
    DatedPieces();
    DotClockLayout(h, m);
    AtWithin(t, 42, St, 0, " " + "ST");
    assert t[34 + 2] == DashSp[2];
    TimeZoned(t, 37, dc, "ST");
    MatchStep(t, 37, TimeMatchLen);
    AtJoin(t, 37, dc, St);
    AtSlice(t, 37, dc + St);
    ScanEnd(t, TimeMatchLen);
  }

  lemma ZonedMentions(h: Hour, m: Minute)
    ensures FindAll(ZonedText(h, m), MentionMatchLen) == [Alliance]
  {
    var t := ZonedText(h, m);
    ZonedTextLayout(h, m);
    ZonedHeadLayout(t);
    JustPullIsQuiet();
    AllianceIsQuiet();
    GapIsPlain();
    PlainIsQuiet(Gap, false);
    ZonedTailIsQuiet(h, m);
    MentionQuietAt(t, 0, JustPull);
    QuietRun(t, 0, 15, MentionMatchLen);
    AllianceHere(t, 15);
    MatchStep(t, 15, MentionMatchLen);
    AtSlice(t, 15, Alliance);
    MentionQuietAt(t, 31, Gap);
    MentionQuietAt(t, 34, ZonedTail(h, m));
    QuietRun(t, 31, 45, MentionMatchLen);
    ScanEnd(t, MentionMatchLen);
  }

  lemma ZonedGone(h: Hour, m: Minute)
    ensures !ContainsFolded(ZonedText(h, m), "tonight")
  {
    var t := ZonedText(h, m);
    ZonedTextLayout(h, m);
    ZonedHeadLayout(t);
    JustPullIsQuiet();
    AllianceIsQuiet();
    GapIsPlain();
    PlainIsQuiet(Gap, false);
    ZonedTailIsQuiet(h, m);
    FoldQuietAt(t, 0, JustPull, false);
    FoldQuietAt(t, 15, Alliance, false);
    FoldQuietAt(t, 31, Gap, false);
    FoldQuietAt(t, 34, ZonedTail(h, m), true);
  }

  lemma ZonedDays(h: Hour, m: Minute, d: Day, today: Date)
    requires ValidDate(today)
    ensures Dates(ZonedMessage(h, m, d), today) == [FormatDate(d)]
  {
    var w := Written(d, '/');
    ZonedDates(h, m, d);
    ZonedGone(h, m);
    WrittenNormal(d, '/');
    assert KeptDates([w]) == [NormalizeDate(w)] by {
      assert [w][1..] == [];
    }
    DatesAreKept(ZonedMessage(h, m, d), today);
  }

  lemma ZonedGuild(h: Hour, m: Minute, d: Day)
    ensures GuildName(ZonedMessage(h, m, d)) == "Just Pull HC"
  {
    var s := ZonedMessage(h, m, d);
    ZonedLayout(h, m, d);
    ZonedLengths();
    ZonedHeadParts();
    JustPullTag();
    AtWithin(s, 0, ZonedHead, 0, JustPull);
    AtWithin(s, 0, JustPull, 0, "<" + "Just Pull HC" + ">");
    GuildInFront(s, "Just Pull HC");
  }

  lemma ZonedTokens(h: Hour, m: Minute, d: Day, today: Date)
    requires ValidDate(today)
    ensures Tokenize(ZonedMessage(h, m, d), today) == Tokens("Just Pull HC", [FormatDate(d)], [Clock(h, m)], [Alliance])
  {
    var s := ZonedMessage(h, m, d);
    ZonedDates(h, m, d);
    ZonedTimes(h, m);
    DotClockNormal(h, m);
    TimesAre(ZonedText(h, m), [Clock(h, m)]);
    ZonedMentions(h, m);
    ZonedDays(h, m, d, today);
    ZonedGuild(h, m, d);
    TokensAre(s, today, "Just Pull HC", [FormatDate(d)], [Clock(h, m)], [Alliance]);
  }

  /** One Onyxia (Alliance) event on the written day at the dotted clock's
      time; on an outermost day `localize` raises. */
  lemma ZonedEvents(h: Hour, m: Minute, d: Day, today: Date)
    requires ValidDate(today)
    ensures Parse(ZonedMessage(h, m, d), today)
            == if OutermostDay(d) then Err(LocalizeOverflow) else Ok([Event(Alliance, WallTime(d, h, m), "CET", "7", "Just Pull HC")])
  {
    ZonedTokens(h, m, d, today);
    OneAllianceAssembled("Just Pull HC", h, m, d);
    ParseIs(ZonedMessage(h, m, d), today, Tokens("Just Pull HC", [FormatDate(d)], [Clock(h, m)], [Alliance]),
            if OutermostDay(d) then Err(LocalizeOverflow) else Ok([Event(Alliance, WallTime(d, h, m), "CET", "7", "Just Pull HC")]));
  }

  const Message4: string := ZonedMessage(18, 45, Date(27, 2, 2025))

  /** `<Just Pull HC>`, a line feed, then `@Onyxia Alliance   27/02/2025 - 18.45 ST`:
      one Onyxia buff at 18:45 on the written day, blue, credited to Just Pull HC. */
  lemma Message4Events(today: Date)
    requires ValidDate(today)
    ensures Parse(Message4, today) == Ok([Event(Alliance, WallTime(Date(27, 2, 2025), 18, 45), "CET", "7", "Just Pull HC")])
  {
    ZonedEvents(18, 45, Date(27, 2, 2025), today);
  }

  // ------------------------------------------------------- the sample texts

  /** The five messages above, spelled out piece by piece: each is the text
      of temp.py:87-106. */

  function DigitChar(x: nat): char
    requires x < 10
  {
    ('0' as int + x) as char
  }

  lemma PaddedTwo(n: nat)
    requires n < 100
    ensures Padded(n, 2) == [DigitChar(n / 10), DigitChar(n % 10)]
  {
    assert Padded(n / 10, 1) == Padded(n / 100, 0) + [DigitChar(n / 10 % 10)];
  }

  lemma Year2025()
    ensures Padded(2025, 4) == "2025"
  {
    PaddedTwo(20);
    assert Padded(202, 3) == Padded(20, 2) + ['2'];
  }

  lemma ClockDigits(h: Hour, m: Minute)
    ensures Clock(h, m) == [DigitChar(h / 10), DigitChar(h % 10), ':', DigitChar(m / 10), DigitChar(m % 10)]
    ensures DotClock(h, m) == [DigitChar(h / 10), DigitChar(h % 10), '.', DigitChar(m / 10), DigitChar(m % 10)]
  {
    PaddedTwo(h);
    PaddedTwo(m);
  }

  lemma WrittenIn2025(d: Day, sep: char)
    requires d.year == 2025
    ensures Written(d, sep) == [DigitChar(d.day / 10), DigitChar(d.day % 10), sep,
                                DigitChar(d.month / 10), DigitChar(d.month % 10), sep, '2', '0', '2', '5']
  {
    PaddedTwo(d.day);
    PaddedTwo(d.month);
    Year2025();
  }

  lemma Days1Pieces()
    ensures Clock(19, 45) == "19:45"
    ensures Written(Date(28, 2, 2025), '.') == "28.02.2025"
    ensures Written(Date(1, 3, 2025), '.') == "01.03.2025"
    ensures Written(Date(2, 3, 2025), '.') == "02.03.2025"
  {
    Days1Clock();
    Days1Dates();
  }

  lemma Days1Clock()
    ensures Clock(19, 45) == "19:45"
  {
    ClockDigits(19, 45);
  }

  lemma Days1Dates()
    ensures Written(Date(28, 2, 2025), '.') == "28.02.2025"
    ensures Written(Date(1, 3, 2025), '.') == "01.03.2025"
    ensures Written(Date(2, 3, 2025), '.') == "02.03.2025"
  {
    FirstOfDays1();
    WrittenIn2025(Date(1, 3, 2025), '.');
    WrittenIn2025(Date(2, 3, 2025), '.');
  }

  lemma FirstOfDays1()
    ensures Written(Date(28, 2, 2025), '.') == "28.02.2025"
  {
    WrittenIn2025(Date(28, 2, 2025), '.');
  }

  lemma Message1Text()
    ensures Message1 == "<Mortal> \n"
      + (":ony: :alliance:  - " + "28.02.2025" + " - " + "19:45" + "\n"
      + (":ony: :alliance:  - " + "01.03.2025" + " - " + "19:45" + "\n"
      + (":ony: :alliance:  - " + "02.03.2025" + " - " + "19:45" + "\n")))
      + "@Onyxia Alliance"
  {
    Days1Pieces();
  }

  lemma Message2Pieces()
    ensures Clock(23, 0) == "23:00" && Written(Date(28, 2, 2025), '-') == "28-02-2025"
  {
    ClockDigits(23, 0);
    Message2Date();
  }

  lemma Message2Date()
    ensures Written(Date(28, 2, 2025), '-') == "28-02-2025"
  {
    WrittenIn2025(Date(28, 2, 2025), '-');
  }

  lemma Message2Text()
    ensures Message2 == "<Nihilum>" + " Will pop " + "@Onyxia Alliance" + " " + "23:00" + " CET "
                        + "tonight" + " " + "28-02-2025"
  {
    Message2Pieces();
  }

  lemma Pops3Pieces()
    ensures Clock(14, 0) == "14:00" && Clock(17, 1) == "17:01" && Clock(20, 2) == "20:02"
    ensures Dash(2) == "  - " && Dash(3) == "   - " && Dash(4) == "    - "
  {
    ClockDigits(14, 0);
    ClockDigits(17, 1);
    ClockDigits(20, 2);
  }

  lemma Message3Text()
    ensures Message3 ==
      "<Victory>" + " will pop " + "@RendBuff" + "   - " + "14:00" + "\n"
      + ("<Victory>" + " will pop " + "@RendBuff" + "  - " + "17:01" + "\n"
      + ("<Victory>" + " will pop " + "@RendBuff" + "  - " + "20:02" + "\n"
      + ("<Victory>" + " will pop " + "@Onyxia Horde" + "    - " + "20:02" + "\n")))
      + ("+- few mins " + "depending " + "on layer cd" + "\n")
  {
    Pops3Pieces();
  }

  lemma Message4Pieces()
    ensures DotClock(18, 45) == "18.45" && Written(Date(27, 2, 2025), '/') == "27/02/2025"
  {
    ClockDigits(18, 45);
    Message4Date();
  }

  lemma Message4Date()
    ensures Written(Date(27, 2, 2025), '/') == "27/02/2025"
  {
    WrittenIn2025(Date(27, 2, 2025), '/');
  }

  lemma Message4Text()
    ensures Message4 == "<Just Pull HC>\n" + "@Onyxia Alliance" + "   " + "27/02/2025" + " - " + "18.45" + " ST"
  {
    Message4Pieces();
  }

  lemma Message5Pieces()
    ensures Clock(20, 0) == "20:00" && Dash(4) == "    - "
  {
    ClockDigits(20, 0);
  }

  lemma Message5Text()
    ensures Message5 == "<Victory>" + " will pop " + "@RendBuff" + "    - " + "20:00" + "\n"
                        + "+- few mins " + "depending " + "on layer cd"
  {
    Message5Pieces();
    assert PopText(Pops5) == Line(Pops5[0]) + PopText([]);
  }
}
