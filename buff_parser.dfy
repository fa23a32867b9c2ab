/** `parse_message` (bot.py:48-102): from the text of a Discord message to
    the buff events it announces, each with its mention, local date and
    time, colour and guild; and the calendar entry made of each event
    (bot.py:119-125). */
module BuffParser {
  import opened Results
  import opened Text
  import opened Scanner
  import opened Patterns
  import opened WallClock

  /** VALID_MENTIONS */
  const ValidMentions: seq<string> := [Alliance, Horde, Rend]

  /** EVENT_COLORS: Google Calendar colour ids, blue for the Alliance and red for the Horde buffs. */
  const EventColors: map<string, string> := map[Alliance := "7", Horde := "11", Rend := "11"]

  /** `EVENT_COLORS.get(mention, "7")` */
  function ColorOf(mention: string): string {
    if mention in EventColors then EventColors[mention] else "7"
  }

  /** The zone label every event carries. */
  const EventTimezone: string := "CET"

  /** One entry of the returned list. `at` is the local wall-clock time the
      message gives; the source goes on to convert it to UTC. */
  datatype Event = Event(mention: string, at: WallTime, timezone: string, color: string, guild: string)

  /** The exceptions that escape `parse_message`: the `IndexError` of
      `mentions[-1]` on an empty list, and the `OverflowError` of `localize`
      on the first or the last day `datetime` can hold. */
  datatype ParseError = MentionIndexError | LocalizeOverflow

  /** What the message is cut into before the events are put together. */
  datatype Tokens = Tokens(guild: string, dates: seq<string>, times: seq<string>, mentions: seq<string>)

  // ------------------------------------------------------------ tokenising

  /** `DATE_REGEX.sub("", message)`: the message with its dates taken out. */
  function WithoutDates(message: string): string {
    Sub(message, DateMatchLen)
  }

  /** `MENTION_REGEX.findall(text)` */
  function Mentions(text: string): seq<string> {
    FindAll(text, MentionMatchLen)
  }

  /** `match[0].strip().replace(".", ":")` for one TIME_REGEX match. */
  function NormalizeTime(m: string): string {
    Replace(Strip(ClockGroup(m)), '.', ':')
  }

  /** The times of the text, one per TIME_REGEX match. */
  function Times(text: string): seq<string> {
    var found := FindAll(text, TimeMatchLen);
    seq(|found|, k requires 0 <= k < |found| => NormalizeTime(found[k]))
  }

  /** `date.lower() == "tonight"` */
  predicate IsTonightWord(t: string) {
    |t| == 7 && FoldedAt(t, 0, "tonight")
  }

  /** `date.strip().replace(".", "-").replace("/", "-")` */
  function NormalizeDate(t: string): string {
    Replace(Replace(Strip(t), '.', '-'), '/', '-')
  }

  /** The DATE_REGEX matches that are not "tonight", normalised, in order. */
  function KeptDates(raw: seq<string>): seq<string> {
    if raw == [] then []
    else (if raw[0] != "" && !IsTonightWord(raw[0]) then [NormalizeDate(raw[0])] else []) + KeptDates(raw[1..])
  }

  /** The date list: the kept dates, then today when "tonight" is still in
      the text; when that leaves nothing, today once per time. */
  function Dates(message: string, today: Date): seq<string>
    requires ValidDate(today)
  {
    var text := WithoutDates(message);
    var found := KeptDates(FindAll(message, DateMatchLen))
                 + (if ContainsFolded(text, "tonight") then [FormatDate(today)] else []);
    if found == [] then seq(|Times(text)|, _ => FormatDate(today)) else found
  }

  /** Every time has a date to go with it, and each date and time has the
      shape the `strptime` format expects. */
  predicate Pairable(tk: Tokens) {
    (tk.times != [] ==> tk.dates != [])
    && (forall k :: 0 <= k < |tk.dates| ==> DateText(tk.dates[k]))
    && (forall k :: 0 <= k < |tk.times| ==> TimeText(tk.times[k]))
  }

  function Tokenize(message: string, today: Date): (tk: Tokens)
    requires ValidDate(today)
    ensures Pairable(tk)
  {
    DatesAreShaped(message, today);
    TimeTokens(WithoutDates(message));
    Tokens(GuildName(message), Dates(message, today), Times(WithoutDates(message)), Mentions(WithoutDates(message)))
  }

  // ------------------------------------------------------------ assembling

  /** `xs[i] if i < len(xs) else xs[-1]` */
  function Pick<T>(xs: seq<T>, i: nat): T
    requires xs != []
  {
    if i < |xs| then xs[i] else xs[|xs| - 1]
  }

  /** The event of the `i`-th time, or `None` when `strptime` raises
      `ValueError` and the time is skipped. */
  function Candidate(tk: Tokens, i: nat): Option<Event>
    requires Pairable(tk) && i < |tk.times| && tk.mentions != []
  {
    var mention := Pick(tk.mentions, i);
    match Strptime(Pick(tk.dates, i), tk.times[i])
    case None => None
    case Some(at) => Some(Event(mention, at, EventTimezone, ColorOf(mention), tk.guild))
  }

  /** The outcome of every round of the loop over the times, in order. */
  function Candidates(tk: Tokens): (cs: seq<Option<Event>>)
    requires Pairable(tk) && (tk.times != [] ==> tk.mentions != [])
    ensures |cs| == |tk.times|
  {
    seq(|tk.times|, i requires 0 <= i < |tk.times| => Candidate(tk, i))
  }

  /** The values present in a list of options, in order. */
  function Present<T>(os: seq<Option<T>>): seq<T> {
    if os == [] then []
    else Present(os[..|os| - 1]) + (if os[|os| - 1].Some? then [os[|os| - 1].value] else [])
  }

  /** The positions of those values. */
  function PresentAt<T>(os: seq<Option<T>>): seq<nat> {
    if os == [] then []
    else PresentAt(os[..|os| - 1]) + (if os[|os| - 1].Some? then [|os| - 1] else [])
  }

  /** The first and the last day `datetime` can hold. */
  predicate OutermostDay(d: Date) {
    d == Date(1, 1, 1) || d == Date(31, 12, 9999)
  }

  /** `STOCKHOLM_TZ.localize(...)` reads the zone's rules a day before and a
      day after the point it is given. On an outermost day one of those lies
      outside `datetime`'s range: the addition raises `OverflowError`, which
      the `except ValueError` does not catch. */
  predicate LocalizeOverflows(at: WallTime) {
    OutermostDay(at.date)
  }

  /** A round that gets past `strptime` and then raises in `localize`. */
  predicate Overflows(c: Option<Event>) {
    c.Some? && LocalizeOverflows(c.value.at)
  }

  /** Some round of the loop raises in `localize`. */
  predicate AnyOverflow(cs: seq<Option<Event>>) {
    exists i :: 0 <= i < |cs| && Overflows(cs[i])
  }

  /** The loop over the times: it fails on its first round when there is no
      mention, and when some round's point cannot be localized; otherwise it
      returns the events of the rounds that were not skipped. */
  function Assemble(tk: Tokens): Result<seq<Event>, ParseError>
    requires Pairable(tk)
  {
    if tk.times != [] && tk.mentions == [] then Err(MentionIndexError)
    else if AnyOverflow(Candidates(tk)) then Err(LocalizeOverflow)
    else Ok(Present(Candidates(tk)))
  }

  /** `parse_message(message)`, with `today` standing for `datetime.today()`. */
  function Parse(message: string, today: Date): Result<seq<Event>, ParseError>
    requires ValidDate(today)
  {
    Assemble(Tokenize(message, today))
  }

  /** `parse_message`, step by step as the source does it. */
  method ParseMessage(message: string, today: Date) returns (r: Result<seq<Event>, ParseError>)
    requires ValidDate(today)
    ensures r == Parse(message, today)
  {
    var guild := GuildName(message);
    var rawDates := FindAll(message, DateMatchLen);
    var text := Sub(message, DateMatchLen);
    var mentions := Mentions(text);
    var times := Times(text);
    var dates := KeptDates(rawDates);
    if ContainsFolded(text, "tonight") {
      dates := dates + [FormatDate(today)];
    }
    if dates == [] {
      dates := seq(|times|, _ => FormatDate(today));
    }
    assert dates == Dates(message, today);
    var tk := Tokens(guild, dates, times, mentions);
    assert tk == Tokenize(message, today);
    r := AssembleEvents(tk);
  }

  /** The loop of `parse_message` over the times: each time is paired with
      the date and the mention at its index, or the last ones when the lists
      are shorter; a pair `strptime` rejects is skipped, and a point
      `localize` cannot handle ends the parse. */
  method AssembleEvents(tk: Tokens) returns (r: Result<seq<Event>, ParseError>)
    requires Pairable(tk)
    ensures r == Assemble(tk)
  {
    var events: seq<Event> := [];
    var i := 0;
    while i < |tk.times|
      invariant i <= |tk.times|
      invariant tk.mentions == [] ==> i == 0
      invariant i == 0 ==> events == []
      invariant tk.mentions != [] ==> events == Present(Candidates(tk)[..i])
      invariant tk.mentions != [] ==> !AnyOverflow(Candidates(tk)[..i])
    {
      var date := if i < |tk.dates| then tk.dates[i] else tk.dates[|tk.dates| - 1];
      var time := tk.times[i];
      var mention: string;
      if i < |tk.mentions| {
        mention := tk.mentions[i];
      } else if tk.mentions == [] {
        return Err(MentionIndexError);
      } else {
        mention := tk.mentions[|tk.mentions| - 1];
      }
      var at := Strptime(date, time);
      assert date == Pick(tk.dates, i) && mention == Pick(tk.mentions, i);
      RoundOutcome(tk, i, at);
      if at.Some? {
        if LocalizeOverflows(at.value) {
          assert Overflows(Candidates(tk)[i]);
          return Err(LocalizeOverflow);
        }
        events := events + [Event(mention, at.value, EventTimezone, ColorOf(mention), tk.guild)];
      }
      PresentStep(Candidates(tk), i);
      AnyOverflowStep(Candidates(tk), i);
      i := i + 1;
    }
    assert Candidates(tk)[..i] == Candidates(tk);
    return Ok(events);
  }

  // ------------------------------------------------------------- results

  /** The outcome of round `i` in terms of the `strptime` result. */
  lemma RoundOutcome(tk: Tokens, i: nat, at: Option<WallTime>)
    requires Pairable(tk) && i < |tk.times| && tk.mentions != []
    requires at == Strptime(Pick(tk.dates, i), tk.times[i])
    ensures var m := Pick(tk.mentions, i);
            Candidates(tk)[i] == if at.Some? then Some(Event(m, at.value, EventTimezone, ColorOf(m), tk.guild)) else None
  {
  }

  /** One more round of the loop: the next outcome is added when present. */
  lemma PresentStep<T>(os: seq<Option<T>>, i: nat)
    requires i < |os|
    ensures Present(os[..i + 1]) == Present(os[..i]) + (if os[i].Some? then [os[i].value] else [])
  {
    assert os[..i + 1][..i] == os[..i];
  }

  /** One more round of the loop: it raises when the rounds before did or it does. */
  lemma AnyOverflowStep(cs: seq<Option<Event>>, i: nat)
    requires i < |cs|
    ensures AnyOverflow(cs[..i + 1]) <==> AnyOverflow(cs[..i]) || Overflows(cs[i])
  {
    var p, q := cs[..i + 1], cs[..i];
    assert p[i] == cs[i];
    assert forall k :: 0 <= k < i ==> p[k] == q[k];
  }

  /** The present values are the `Some`s at the present positions. */
  lemma {:induction false} PresentPositions<T>(os: seq<Option<T>>)
    ensures |Present(os)| == |PresentAt(os)| <= |os|
    ensures forall j :: 0 <= j < |PresentAt(os)| ==> PresentAt(os)[j] < |os| && os[PresentAt(os)[j]] == Some(Present(os)[j])
  {
    if os != [] {
      var init := os[..|os| - 1];
      PresentPositions(init);
      var last := os[|os| - 1];
      if last.Some? {
        assert Present(os) == Present(init) + [last.value];
        assert PresentAt(os) == PresentAt(init) + [|os| - 1];
      } else {
        assert Present(os) == Present(init);
        assert PresentAt(os) == PresentAt(init);
      }
      forall j | 0 <= j < |PresentAt(init)| ensures os[PresentAt(init)[j]] == init[PresentAt(init)[j]] {
      }
    }
  }

  /** Every present value comes from an entry of the list. */
  lemma PresentSource<T>(os: seq<Option<T>>, x: T) returns (i: nat)
    requires x in Present(os)
    ensures i < |os| && os[i] == Some(x)
  {
    PresentPositions(os);
    var j :| 0 <= j < |Present(os)| && Present(os)[j] == x;
    i := PresentAt(os)[j];
  }

  /** The present positions increase and hold exactly the `Some`s. */
  lemma {:induction false} PresentAtIsOrdered<T>(os: seq<Option<T>>)
    ensures forall j, j' :: 0 <= j < j' < |PresentAt(os)| ==> PresentAt(os)[j] < PresentAt(os)[j']
    ensures forall i :: 0 <= i < |os| ==> (os[i].Some? <==> i in PresentAt(os))
  {
    if os != [] {
      var init := os[..|os| - 1];
      PresentAtIsOrdered(init);
      PresentPositions(init);
      assert forall i :: 0 <= i < |init| ==> init[i] == os[i];
    }
  }

  /** Nothing is missing exactly when every entry is a `Some`. */
  lemma {:induction false} PresentIsComplete<T>(os: seq<Option<T>>)
    ensures |Present(os)| == |os| <==> forall i :: 0 <= i < |os| ==> os[i].Some?
  {
    if os != [] {
      var init := os[..|os| - 1];
      PresentIsComplete(init);
      PresentPositions(init);
      assert forall i :: 0 <= i < |init| ==> init[i] == os[i];
    }
  }

  /** The calendar point the `i`-th time and its date name. */
  function PointOf(tk: Tokens, i: nat): WallTime
    requires Pairable(tk) && i < |tk.times|
  {
    var d, t := Pick(tk.dates, i), tk.times[i];
    WallTime(Date(DayOf(d), MonthOf(d), YearOf(d)), HourOf(t), MinuteOf(t))
  }

  /** The `i`-th time gives an event exactly when it and its date name a
      real calendar point, and the event carries the mention of its index
      (or the last one), that point, the zone label, the colour of the
      mention and the guild. */
  lemma CandidateIsStrptime(tk: Tokens, i: nat)
    requires Pairable(tk) && i < |tk.times| && tk.mentions != []
    ensures Candidate(tk, i).Some? <==> ValidWallTime(PointOf(tk, i))
    ensures Candidate(tk, i).Some? ==>
              var m := Pick(tk.mentions, i);
              Candidate(tk, i).value == Event(m, PointOf(tk, i), EventTimezone, ColorOf(m), tk.guild)
  {
    StrptimeAcceptsValid(Pick(tk.dates, i), tk.times[i]);
  }

  /** `parse_message` raises `IndexError` exactly when there are times but
      no mention, and otherwise `OverflowError` exactly when some time gets
      past `strptime` on an outermost day; with no time it returns no event.
      Otherwise the events follow the times: the `j`-th event is the outcome
      of the `j`-th time that was not skipped, in the order of the times,
      there is one event per time exactly when no time is skipped, and no
      event falls on an outermost day. */
  lemma ParseOutcome(message: string, today: Date)
    requires ValidDate(today)
    ensures var tk, r := Tokenize(message, today), Parse(message, today);
            (r == Err(MentionIndexError) <==> tk.times != [] && tk.mentions == [])
            && (r == Err(LocalizeOverflow) <==>
                  tk.mentions != [] && AnyOverflow(Candidates(tk)))
            && (tk.times == [] ==> r == Ok([]))
            && (r.Ok? ==>
                  var cs, at := Candidates(tk), PresentAt(Candidates(tk));
                  |r.value| == |at| <= |tk.times|
                  && (forall j :: 0 <= j < |at| ==> at[j] < |cs| && cs[at[j]] == Some(r.value[j]))
                  && (forall j, j' :: 0 <= j < j' < |at| ==> at[j] < at[j'])
                  && (forall i :: 0 <= i < |cs| ==> (cs[i].Some? <==> i in at))
                  && (|r.value| == |tk.times| <==> forall i :: 0 <= i < |cs| ==> cs[i].Some?)
                  && (forall j :: 0 <= j < |r.value| ==> !LocalizeOverflows(r.value[j].at)))
  {
    AssembleOutcome(Tokenize(message, today));
  }

  /** The same, for any tokens the loop is given. */
  lemma AssembleOutcome(tk: Tokens)
    requires Pairable(tk)
    ensures var r := Assemble(tk);
            (r == Err(MentionIndexError) <==> tk.times != [] && tk.mentions == [])
            && (r == Err(LocalizeOverflow) <==>
                  tk.mentions != [] && AnyOverflow(Candidates(tk)))
            && (tk.times == [] ==> r == Ok([]))
            && (r.Ok? ==>
                  var cs, at := Candidates(tk), PresentAt(Candidates(tk));
                  |r.value| == |at| <= |tk.times|
                  && (forall j :: 0 <= j < |at| ==> at[j] < |cs| && cs[at[j]] == Some(r.value[j]))
                  && (forall j, j' :: 0 <= j < j' < |at| ==> at[j] < at[j'])
                  && (forall i :: 0 <= i < |cs| ==> (cs[i].Some? <==> i in at))
                  && (|r.value| == |tk.times| <==> forall i :: 0 <= i < |cs| ==> cs[i].Some?)
                  && (forall j :: 0 <= j < |r.value| ==> !LocalizeOverflows(r.value[j].at)))
  {
    if !(tk.times != [] && tk.mentions == []) {
      PresentPositions(Candidates(tk));
      PresentAtIsOrdered(Candidates(tk));
      PresentIsComplete(Candidates(tk));
    }
  }

  /** The events made from tokens whose mentions are all valid are well formed. */
  lemma AssembledAreWellFormed(tk: Tokens)
    requires Pairable(tk) && (tk.times != [] ==> tk.mentions != [])
    requires forall m | m in tk.mentions :: m in ValidMentions
    ensures forall e | e in Present(Candidates(tk)) ::
              e.mention in ValidMentions && e.color == ColorOf(e.mention)
              && e.timezone == EventTimezone && e.guild == tk.guild && ValidWallTime(e.at)
  {
    var cs := Candidates(tk);
    forall e: Event | e in Present(cs)
      ensures e.mention in ValidMentions && e.color == ColorOf(e.mention)
      ensures e.timezone == EventTimezone && e.guild == tk.guild && ValidWallTime(e.at)
    {
      var i := PresentSource(cs, e);
      assert cs[i] == Candidate(tk, i);
      CandidateIsStrptime(tk, i);
      assert Pick(tk.mentions, i) in tk.mentions;
    }
  }

  /** The events the loop returns can all be localized. */
  lemma AssembledAreLocalizable(tk: Tokens)
    requires Pairable(tk) && Assemble(tk).Ok?
    ensures forall e | e in Assemble(tk).value :: !LocalizeOverflows(e.at)
  {
    var cs := Candidates(tk);
    forall e: Event | e in Present(cs) ensures !LocalizeOverflows(e.at) {
      var i := PresentSource(cs, e);
    }
  }

  /** Every event names one of VALID_MENTIONS, has that mention's colour
      (blue, "7", exactly for the Alliance, red, "11", otherwise), the "CET"
      label, the message's guild, and a real date with a valid time that
      `localize` can handle. */
  lemma EventsAreWellFormed(message: string, today: Date)
    requires ValidDate(today)
    ensures Parse(message, today).Ok? ==>
              forall e | e in Parse(message, today).value ::
                e.mention in ValidMentions && e.mention in EventColors && e.color == EventColors[e.mention]
                && (e.color == "7" <==> e.mention == Alliance) && (e.color == "7" || e.color == "11")
                && e.timezone == EventTimezone && e.guild == GuildName(message) && ValidWallTime(e.at)
                && !LocalizeOverflows(e.at)
  {
    var tk := Tokenize(message, today);
    MentionsAreValid(WithoutDates(message));
    if Parse(message, today).Ok? {
      AssembledAreWellFormed(tk);
      AssembledAreLocalizable(tk);
    }
  }

  /** Events made from dates that are all today's are all today. */
  lemma AssembledAreToday(tk: Tokens, today: Date)
    requires Pairable(tk) && (tk.times != [] ==> tk.mentions != [])
    requires ValidDate(today)
    requires forall k :: 0 <= k < |tk.dates| ==> tk.dates[k] == FormatDate(today)
    ensures forall e | e in Present(Candidates(tk)) :: e.at.date == today
  {
    var cs := Candidates(tk);
    FormatDateRoundTrip(today);
    forall e: Event | e in Present(cs) ensures e.at.date == today {
      var i := PresentSource(cs, e);
      assert cs[i] == Candidate(tk, i);
      assert Pick(tk.dates, i) == FormatDate(today);
      CandidateIsStrptime(tk, i);
    }
  }

  /** A message without a numeric date schedules every event today, whether
      it says "tonight" or nothing at all. */
  lemma NoDateMeansToday(message: string, today: Date)
    requires ValidDate(today)
    requires forall a: nat :: !NumericDateAt(message, a)
    ensures Parse(message, today).Ok? ==> forall e | e in Parse(message, today).value :: e.at.date == today
  {
    var raw := FindAll(message, DateMatchLen);
    DateTokens(message);
    TonightWordsAreDropped(raw);
    var tk := Tokenize(message, today);
    assert forall k :: 0 <= k < |tk.dates| ==> tk.dates[k] == FormatDate(today);
    if Parse(message, today).Ok? {
      AssembledAreToday(tk, today);
    }
  }

  // ------------------------------------------------------- calendar entry

  /** A `{"dateTime": …, "timeZone": …}` object. */
  datatype EventTime = EventTime(dateTime: WallTime, timeZone: string)

  /** The body sent to the Calendar API for one event. */
  datatype CalendarBody = CalendarBody(summary: string, start: EventTime, end: EventTime,
                                       colorId: string, description: string)

  function BodyOf(e: Event): CalendarBody {
    var when := EventTime(e.at, "UTC");
    CalendarBody(Remove(e.mention, '@'), when, when, e.color, "Buff by " + e.guild)
  }

  /** Deleting `c` from a text that has it only in front drops the front. */
  lemma RemoveLeading(s: string, c: char)
    requires s != [] && s[0] == c && c !in s[1..]
    ensures Remove(s, c) == s[1..]
  {
  }

  /** The calendar entry of an event with a valid mention and its colour:
      its title is the mention without the `@`, so one of three buff names,
      it starts and ends at the event's instant, and it is blue exactly for
      the Alliance buff. */
  lemma BodyOfEvent(e: Event)
    requires e.mention in ValidMentions && e.color == ColorOf(e.mention)
    ensures var b := BodyOf(e);
            |e.mention| > 0 && b.summary == e.mention[1..]
            && b.summary in ["Onyxia Alliance", "Onyxia Horde", "RendBuff"]
            && b.start == b.end && b.start.dateTime == e.at
            && (b.colorId == "7" <==> b.summary == "Onyxia Alliance")
  {
    assert e.mention == Alliance || e.mention == Horde || e.mention == Rend;
    MentionTitle(e.mention);
  }

  /** A valid mention without its `@` is the buff's name. */
  lemma MentionTitle(m: string)
    requires m == Alliance || m == Horde || m == Rend
    ensures |m| > 0 && Remove(m, '@') == m[1..]
    ensures m[1..] == if m == Alliance then "Onyxia Alliance" else if m == Horde then "Onyxia Horde" else "RendBuff"
  {
    if m == Alliance {
      AllianceTitle();
    } else if m == Horde {
      HordeTitle();
    } else {
      RendTitle();
    }
  }

  lemma AllianceTitle()
    ensures Remove(Alliance, '@') == Alliance[1..] == "Onyxia Alliance"
  {
    NoAtSign("Onyxia Alliance");
    TitleOf(Alliance, "Onyxia Alliance");
  }

  lemma HordeTitle()
    ensures Remove(Horde, '@') == Horde[1..] == "Onyxia Horde"
  {
    NoAtSign("Onyxia Horde");
    TitleOf(Horde, "Onyxia Horde");
  }

  lemma RendTitle()
    ensures Remove(Rend, '@') == Rend[1..] == "RendBuff"
  {
    NoAtSign("RendBuff");
    TitleOf(Rend, "RendBuff");
  }

  /** Deleting the `@` from `@` and a name gives the name. */
  lemma TitleOf(m: string, name: string)
    requires m == "@" + name && '@' !in name
    ensures |m| > 0 && Remove(m, '@') == m[1..] == name
  {
    assert m[1..] == name;
    RemoveLeading(m, '@');
  }

  /** A text of letters and spaces holds no `@`. */
  lemma NoAtSign(t: string)
    requires forall k :: 0 <= k < |t| ==> 'A' <= t[k] <= 'z' || t[k] == ' '
    ensures '@' !in t
  {
  }

  /** Every parsed event's calendar entry is titled with a buff name and
      described as the buff of the message's guild. */
  lemma BodiesOfEvents(message: string, today: Date)
    requires ValidDate(today)
    ensures Parse(message, today).Ok? ==>
              forall e | e in Parse(message, today).value ::
                BodyOf(e).summary in ["Onyxia Alliance", "Onyxia Horde", "RendBuff"]
                && BodyOf(e).description == "Buff by " + GuildName(message)
  {
    EventsAreWellFormed(message, today);
    if Parse(message, today).Ok? {
      forall e | e in Parse(message, today).value
        ensures BodyOf(e).summary in ["Onyxia Alliance", "Onyxia Horde", "RendBuff"]
      {
        BodyOfEvent(e);
      }
    }
  }

  // --------------------------------------------------------------- shapes

  /** What the first DATE_REGEX alternative matches: `DD?MM?YYYY`. */
  predicate NumericDateText(t: string) {
    |t| == 10 && IsDigit(t[0]) && IsDigit(t[1]) && IsDateSep(t[2]) && IsDigit(t[3]) && IsDigit(t[4])
    && IsDateSep(t[5]) && IsDigit(t[6]) && IsDigit(t[7]) && IsDigit(t[8]) && IsDigit(t[9])
  }

  /** Every DATE_REGEX match is a numeric date of the message or a spelling of "tonight". */
  lemma DateTokens(message: string)
    ensures forall t | t in FindAll(message, DateMatchLen) :: NumericDateText(t) || IsTonightWord(t)
    ensures forall t | t in FindAll(message, DateMatchLen) && NumericDateText(t) ::
              exists a: nat :: NumericDateAt(message, a) && t == message[a..a + 10]
  {
    var found := FindAll(message, DateMatchLen);
    forall j | 0 <= j < |found|
      ensures NumericDateText(found[j]) || IsTonightWord(found[j])
      ensures NumericDateText(found[j]) ==> exists a: nat :: NumericDateAt(message, a) && found[j] == message[a..a + 10]
    {
      var a := FoundAt(message, DateMatchLen, j);
      var t := found[j];
      if NumericDateAt(message, a) {
        assert t == message[a..a + 10];
      } else {
        assert t == message[a..a + 7];
        assert forall k :: 0 <= k < 7 ==> t[k] == message[a + k];
      }
    }
  }

  /** A numeric date is not "tonight", and normalising it turns both of its
      separators into `-` and keeps its digits. */
  lemma NormalizedDate(t: string)
    requires NumericDateText(t)
    ensures !IsTonightWord(t)
    ensures |NormalizeDate(t)| == 10
    ensures forall k :: 0 <= k < 10 && k != 2 && k != 5 ==> NormalizeDate(t)[k] == t[k]
    ensures DateText(NormalizeDate(t))
  {
    assert AsciiLower(t[0]) == t[0];
    StripUnpadded(t);
    var d1 := Replace(t, '.', '-');
    var d := Replace(d1, '/', '-');
    assert forall k :: 0 <= k < 10 ==> d[k] == if d1[k] == '/' then '-' else d1[k];
  }

  /** A numeric date is kept, and kept in the `strptime` shape. */
  lemma NumericDateIsKept(t: string)
    requires NumericDateText(t)
    ensures t != "" && !IsTonightWord(t) && DateText(NormalizeDate(t))
  {
    NormalizedDate(t);
  }

  /** Every text in `ds` has the `DD-MM-YYYY` shape. */
  predicate AllDateText(ds: seq<string>) {
    forall k :: 0 <= k < |ds| ==> DateText(ds[k])
  }

  lemma AllDateTextCons(d: string, ds: seq<string>)
    requires DateText(d) && AllDateText(ds)
    ensures AllDateText([d] + ds)
  {
    assert forall k :: 0 < k <= |ds| ==> ([d] + ds)[k] == ds[k - 1];
  }

  /** The kept dates are the numeric ones, normalised to the `strptime` shape. */
  lemma {:induction false} KeptDatesAreNumeric(raw: seq<string>)
    requires forall t | t in raw :: NumericDateText(t) || IsTonightWord(t)
    ensures AllDateText(KeptDates(raw))
  {
    if raw != [] {
      var rest := raw[1..];
      assert forall t | t in rest :: t in raw;
      KeptDatesAreNumeric(rest);
      var tail := KeptDates(rest);
      if NumericDateText(raw[0]) {
        var d := NormalizeDate(raw[0]);
        NumericDateIsKept(raw[0]);
        assert KeptDates(raw) == [d] + tail;
        AllDateTextCons(d, tail);
      } else {
        assert KeptDates(raw) == tail;
      }
    }
  }

  /** When every match is a "tonight" word, no date is kept. */
  lemma {:induction false} TonightWordsAreDropped(raw: seq<string>)
    requires forall t | t in raw :: IsTonightWord(t)
    ensures KeptDates(raw) == []
  {
    if raw != [] {
      assert forall t | t in raw[1..] :: t in raw;
      TonightWordsAreDropped(raw[1..]);
    }
  }

  /** Normalising clock text turns its separator into `:` and keeps its
      digits; the result has the `strptime` shape. */
  lemma NormalizedClock(c: string)
    requires ClockText(c)
    ensures var r := Replace(Strip(c), '.', ':');
            |r| == |c| && TimeText(r) && forall k :: 0 <= k < |c| && k != |c| - 3 ==> r[k] == c[k]
  {
    StripUnpadded(c);
  }

  /** Group 1 of a TIME_REGEX match at `a`, normalised, is `H:MM` or `HH:MM`:
      the clock digits with the separator turned into `:` and the zone dropped. */
  lemma NormalizedTime(s: string, a: nat)
    requires TimeMatchLen(s, a) > 0 && a + TimeMatchLen(s, a) <= |s|
    ensures var r := NormalizeTime(s[a..a + TimeMatchLen(s, a)]);
            |r| == ClockLen(s, a) && TimeText(r)
            && forall k :: 0 <= k < |r| && k != |r| - 3 ==> r[k] == s[a + k]
  {
    ClockGroupOfMatch(s, a);
    NormalizedClock(s[a..a + ClockLen(s, a)]);
  }

  /** The `j`-th TIME_REGEX match, normalised, has the `strptime` shape. */
  lemma TimeTokenShape(text: string, j: nat)
    requires j < |FindAll(text, TimeMatchLen)|
    ensures TimeText(NormalizeTime(FindAll(text, TimeMatchLen)[j]))
  {
    var a := FoundAt(text, TimeMatchLen, j);
    NormalizedShape(text, a, FindAll(text, TimeMatchLen)[j]);
  }

  lemma NormalizedShape(s: string, a: nat, t: string)
    requires TimeMatchLen(s, a) > 0 && a + TimeMatchLen(s, a) <= |s| && t == s[a..a + TimeMatchLen(s, a)]
    ensures TimeText(NormalizeTime(t))
  {
    NormalizedTime(s, a);
  }

  /** Every time of the text has the `strptime` shape. */
  lemma TimeTokens(text: string)
    ensures forall k :: 0 <= k < |Times(text)| ==> TimeText(Times(text)[k])
  {
    var found := FindAll(text, TimeMatchLen);
    forall k | 0 <= k < |Times(text)| ensures TimeText(Times(text)[k]) {
      TimeTokenShape(text, k);
    }
  }

  /** Every date has the `strptime` shape, and there is one whenever there is a time. */
  lemma DatesAreShaped(message: string, today: Date)
    requires ValidDate(today)
    ensures forall k :: 0 <= k < |Dates(message, today)| ==> DateText(Dates(message, today)[k])
    ensures Times(WithoutDates(message)) != [] ==> Dates(message, today) != []
  {
    DateTokens(message);
    KeptDatesAreNumeric(FindAll(message, DateMatchLen));
    var kept := KeptDates(FindAll(message, DateMatchLen));
    var found := kept + (if ContainsFolded(WithoutDates(message), "tonight") then [FormatDate(today)] else []);
    assert forall k :: 0 <= k < |kept| ==> found[k] == kept[k];
  }

  /** Every mention found is one of VALID_MENTIONS. */
  lemma MentionsAreValid(text: string)
    ensures forall m | m in Mentions(text) :: m in ValidMentions
  {
    FoundAreMatches(text, 0, MentionMatchLen);
  }
}

