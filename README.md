# World-buffs announcement parser, in Dafny

The Discord bot in `bot.py` reads messages that announce World of Warcraft
world buffs, such as the Onyxia head for the Alliance or the Horde, or Rend's
buff. It turns each message into a list of events and enters each event into
a Google Calendar.

This project models the part that decides what goes into the calendar:

- `parse_message` (bot.py:48-102);
- the constants and regular expressions it uses (bot.py:30-43);
- the calendar entry built from each event (bot.py:119-125);
- the five sample announcements in `temp.py` (87-106). `temp.py` holds a
  verbatim copy of `parse_message` at lines 31-85.

How a message is parsed:

- The guild label is the stripped text inside the first `<…>`, or
  `"Unknown"` when there is none.
- Every date match is collected and then erased from the text: a `DD?MM?YYYY`
  date with `-`, `/` or `.` as separators, or the word `tonight` in any case.
- Mentions and times are then found in what is left. The three mentions are
  `@Onyxia Alliance`, `@Onyxia Horde` and `@RendBuff`. A time is `H:MM` or
  `HH:MM` (with `:` or `.`), optionally followed by `CET` or `ST`.
- Dates are normalised to `DD-MM-YYYY`; `tonight` is dropped. If the word
  `tonight` still appears in the erased text, today's date is appended.
- If no date is left, today's date is used once per time.
- The `i`-th event pairs:
  - the `i`-th time;
  - the `i`-th date, or the last date when there are fewer;
  - the `i`-th mention, or the last mention when there are fewer.
- A date and time that do not name a real moment are skipped.
- A date and time on 01-01-0001 or 31-12-9999, the first and last days
  `datetime` holds, pass `strptime`, but `localize` (bot.py:89) then raises
  `OverflowError`. `except ValueError` does not catch it, so the whole
  message fails (here `Err(LocalizeOverflow)`).
- A message with times but no mention raises an `IndexError` (here
  `Err(MentionIndexError)`).

Modules:

- Results: `Option` and `Result`.
- Text: Python's whitespace, `strip`, `replace` and ASCII lower-casing.
- Scanner: the left-to-right, non-overlapping scan behind `re.findall` and
  `re.sub`, over any pattern given as "length of the match at a position".
- Patterns: the four regular expressions as such patterns, and the guild
  search.
- WallClock: calendar dates, `strftime("%d-%m-%Y")` and
  `strptime(…, "%d-%m-%Y %H:%M")`.
- BuffParser: `parse_message` itself and its calendar entry.
  - `Tokenize` and `Assemble` are the two halves of the specification
    function `Parse`.
  - `ParseMessage` and `AssembleEvents` are the imperative versions, with the
    source's loop. Each is proved equal to the specification function.
- DateRemoval: what erasing the date matches does to the text.
- Chunks: scan lemmas over known pieces of text, used by the samples.
- Samples: the sample messages. Each is stated as the exact list of events
  it yields, by way of lemmas over whole families of messages of the same
  shape.

`datetime.today()` is a parameter `today` (any valid date). An event keeps
the local wall-clock time the message gives; see "Left out".

Where a description of this bot and its code differ, the model follows the
code:

- Dates must have two-digit days and months and a four-digit year. Shorter
  forms and a missing year are not accepted.
- There are no bare `HHMM` times.
- A standalone `tonight` never adds today's date. It is erased with the
  other date matches before line 68 looks for it, so line 69 only fires for
  `tonight` inside a longer word (`DateRemoval.TonightLeftIsEmbedded`).
  Without explicit dates, today is still used through line 73
  (`BuffParser.NoDateMeansToday`).
- A message with times but no mention does not get skipped: it raises an
  `IndexError` (`BuffParser.ParseOutcome`).
- There is no message-id cache, deduplication or catch-up scan in this code.

## Model

| member | source | states |
|---|---|---|
| BuffParser.Parse | bot.py:48-102 | `parse_message` as a function: `Assemble` applied to what `Tokenize` cuts the message into |
| BuffParser.WithoutDates | bot.py:56 | `DATE_REGEX.sub("", message)`: the kept characters of the DATE_REGEX scan |
| BuffParser.Mentions | bot.py:59 | `MENTION_REGEX.findall` over the text without its dates |
| BuffParser.NormalizeTime | bot.py:62 | one TIME_REGEX match's group 1, stripped, with `.` replaced by `:` |
| BuffParser.Times | bot.py:62 | the normalised group 1 of every TIME_REGEX match, in order |
| BuffParser.NormalizeDate | bot.py:65 | a date match, stripped, with `.` and then `/` replaced by `-` |
| BuffParser.KeptDates | bot.py:65 | the non-empty date matches that do not lower-case to "tonight", normalised, in order |
| BuffParser.Dates | bot.py:64-73 | the kept dates, then today's date when "tonight" is still in the erased text; if that leaves none, today's date once per time |
| BuffParser.Candidate | bot.py:82-100 | round `i`: the `i`-th date and mention (or the last ones), and `None` when `strptime` rejects the pair, otherwise the event with that mention, point, "CET", colour and guild |
| BuffParser.LocalizeOverflows | bot.py:89-92 | `localize` raises `OverflowError`, which escapes the `except ValueError`, exactly for points on 01-01-0001 or 31-12-9999 |
| BuffParser.Assemble | bot.py:80-102 | the loop's result: `IndexError` when there are times and no mention, else `OverflowError` when some round's point cannot be localized, else the events of the rounds not skipped, in order |
| BuffParser.ColorOf | bot.py:98 | `EVENT_COLORS.get(mention, "7")` |
| BuffParser.BodyOf | bot.py:119-125 | the calendar request body: the mention without `@` as summary, "Buff by" and the guild as description, the event's time as start and end, and its colour |
| BuffParser.ParseMessage | bot.py:48-102 | the method, written as the source's steps and loop, returns exactly `Parse(message, today)`: `Tokenize` followed by `Assemble` |
| BuffParser.AssembleEvents | bot.py:80-102 | the `for i in range(len(times))` loop, which picks a date and a mention per time, skips what `strptime` rejects, stops with `OverflowError` on a point `localize` cannot handle and appends the rest, returns exactly `Assemble(tk)` |
| BuffParser.Tokenize | bot.py:51-73 | every time has a date to go with it (`dates` is never empty when `times` is not), every date has the `DD-MM-YYYY` shape and every time the `H:MM`/`HH:MM` shape that `strptime` expects |
| BuffParser.ParseOutcome | bot.py:80-102 | the parse fails with IndexError exactly when there are times and no mention, and otherwise with OverflowError exactly when some round gets past `strptime` on 01-01-0001 or 31-12-9999. No time gives no event. Otherwise the `j`-th event is the outcome of the `j`-th time that was not skipped, in the order of the times, there is one event per time exactly when no time is skipped, and no event falls on those two days |
| BuffParser.AssembleOutcome | bot.py:80-102 | the same statement for any tokens the loop is given |
| BuffParser.RoundOutcome | bot.py:82-100 | round `i` uses the `i`-th date or the last one and the `i`-th mention or the last one. It yields an event with that mention, the `strptime` result, "CET", the mention's colour and the guild when `strptime` succeeds, and nothing otherwise |
| BuffParser.CandidateIsStrptime | bot.py:82-100 | round `i` yields an event exactly when its date and time name a valid calendar point, and the event carries that point |
| BuffParser.PresentStep | bot.py:94-100 | one more round appends its event when there is one and nothing otherwise |
| BuffParser.AnyOverflowStep | bot.py:81-92 | after one more round the loop has raised `OverflowError` exactly when it had before or that round's point cannot be localized |
| BuffParser.PresentPositions | bot.py:81-100 | the `j`-th appended event is the outcome of a round, and there are at most as many events as rounds |
| BuffParser.PresentSource | bot.py:94-100 | every appended event is the outcome of some round |
| BuffParser.PresentAtIsOrdered | bot.py:81-100 | events are appended in the order of their rounds, and a round contributes exactly when it has an outcome |
| BuffParser.PresentIsComplete | bot.py:87-92 | all times give events exactly when no round is skipped |
| BuffParser.AssembledAreWellFormed | bot.py:94-100 | every event assembled from valid mentions has a valid mention, that mention's colour, "CET", the guild and a valid calendar point |
| BuffParser.EventsAreWellFormed | bot.py:94-100 | every parsed event names one of VALID_MENTIONS and has its EVENT_COLORS colour ("7", blue, exactly for the Alliance; "11" otherwise). It also has "CET", the message's guild label and a real date with a valid time, not on 01-01-0001 or 31-12-9999 |
| BuffParser.AssembledAreLocalizable | bot.py:89-100 | no event the loop returns falls on 01-01-0001 or 31-12-9999 |
| BuffParser.AssembledAreToday | bot.py:72-73 | when every date is today's, every event is today |
| BuffParser.NoDateMeansToday | bot.py:64-73 | a message without a numeric date schedules every event today, whether it says "tonight" or not |
| BuffParser.DateTokens | bot.py:41-55 | every DATE_REGEX match is either a spelling of "tonight" or a numeric date that occurs in the message at a matching position |
| BuffParser.NormalizedDate | bot.py:65 | normalising a numeric date keeps its digits, puts `-` at both separator positions, yields `DD-MM-YYYY`, and a numeric date is never "tonight" |
| BuffParser.NumericDateIsKept | bot.py:65 | a numeric date passes the filter of line 65 and normalises to the `strptime` shape |
| BuffParser.KeptDatesAreNumeric | bot.py:65 | every date kept from the matches has the `DD-MM-YYYY` shape |
| BuffParser.TonightWordsAreDropped | bot.py:65 | matches that are all "tonight" leave no date |
| BuffParser.NormalizedClock | bot.py:62 | normalising clock text keeps its length and digits and turns its separator into `:` |
| BuffParser.NormalizedTime | bot.py:62 | group 1 of a TIME_REGEX match, normalised, is the match's clock digits with `:` as separator; the zone is dropped |
| BuffParser.NormalizedShape | bot.py:62 | a normalised TIME_REGEX match has the `strptime` shape |
| BuffParser.TimeTokenShape | bot.py:62 | the `j`-th normalised time has the `strptime` shape |
| BuffParser.TimeTokens | bot.py:62 | every time of a text has the `strptime` shape |
| BuffParser.DatesAreShaped | bot.py:64-73 | every date in the list has the `DD-MM-YYYY` shape, and the list is non-empty whenever there is a time |
| BuffParser.MentionsAreValid | bot.py:59 | every MENTION_REGEX match is one of VALID_MENTIONS |
| BuffParser.Candidates | bot.py:81 | there is one round outcome per time |
| BuffParser.BodyOfEvent | bot.py:119-125 | a calendar entry for a valid event: its title is the mention without `@` (one of the three buff names), it starts and ends at the event's time, and it is blue ("7") exactly for the Alliance buff |
| BuffParser.BodiesOfEvents | bot.py:118-125 | every parsed event's calendar entry has a buff name as its title and "Buff by" plus the message's guild as its description |
| BuffParser.MentionTitle | bot.py:120 | removing `@` from a valid mention drops its first character and gives "Onyxia Alliance", "Onyxia Horde" or "RendBuff" |
| BuffParser.RemoveLeading | bot.py:120 | deleting a character that occurs only in front drops the front |
| BuffParser.TitleOf | bot.py:120 | `"@" + name` without `@` is `name` when `name` has none |
| BuffParser.AllianceTitle | bot.py:120 | "@Onyxia Alliance" without `@` is "Onyxia Alliance" |
| BuffParser.HordeTitle | bot.py:120 | "@Onyxia Horde" without `@` is "Onyxia Horde" |
| BuffParser.RendTitle | bot.py:120 | "@RendBuff" without `@` is "RendBuff" |
| BuffParser.NoAtSign | bot.py:120 | a text of letters and spaces has no `@` |
| Patterns.MentionMatchLen | bot.py:40 | MENTION_REGEX: the length of the first of the three mentions that starts at `i`, or 0 |
| Patterns.DateMatchLen | bot.py:41 | DATE_REGEX: 10 for a word-bounded `\d{2}[-/.]\d{2}[-/.]\d{4}` at `i`, otherwise 7 for a word-bounded `tonight` in any ASCII case, otherwise 0 |
| Patterns.ClockLen | bot.py:42 | the length of group 1, `\d{1,2}[:.]\d{2}`, at `i`, trying two hour digits before one, or 0 |
| Patterns.FirstFrom | bot.py:43 | `[^>]+>`: the result is the first `>` at or after `i`, and no earlier position from `i` holds one |
| Patterns.GuildSearch | bot.py:51 | `GUILD_REGEX.search`: the leftmost position where `<([^>]+)>` matches, with its closing `>`, or none when no position matches |
| Patterns.GuildName | bot.py:52 | "Unknown" when GUILD_REGEX matches nowhere |
| Patterns.GuildNameIsFirstMatch | bot.py:51-52 | when a match exists, the guild label is the stripped group of the leftmost match |
| Patterns.SpaceRun | bot.py:42 | `\s*` takes exactly the whitespace run that follows |
| Patterns.TailLen | bot.py:42 | `\s*(CET\|ST)?\b` takes at most the spaces and a three-letter zone, and stays inside the text |
| Patterns.TimeMatchLen | bot.py:42 | a TIME_REGEX match starts on a word boundary and contains its clock group |
| Patterns.ClockGroupOfMatch | bot.py:42 | group 1 of a match is its first `ClockLen` characters: one or two digits, `:` or `.`, two digits |
| Scanner.Segments | bot.py:55-62 | the regex engine's left-to-right, non-overlapping scan from a position: the whole match where one starts, otherwise one kept character, then the scan after that piece |
| Scanner.FindAll | bot.py:55-62 | `findall`: the texts of the scan's matched pieces, in order |
| Scanner.Sub | bot.py:56 | `sub(…, "")`: the scan's kept characters, in order |
| Scanner.Head | bot.py:55-62 | the piece the scan takes at `i` starts there, is non-empty and lies inside the text. It is a match exactly where the pattern matches, and otherwise the character at `i` |
| Scanner.SegmentsStep | bot.py:55-62 | the scan is its first piece followed by the scan resumed after that piece |
| Scanner.SegmentsTile | bot.py:55-62 | the scan tiles the text: consecutive pieces, each of which is what the regex engine takes at that position |
| Scanner.PlacedIsHead | bot.py:55-62 | a piece that fits its position is the one the scan takes there |
| Scanner.TilingIsUnique | bot.py:55-62 | the scan is the only such tiling |
| Scanner.FoundAreMatches | bot.py:55-62 | every string `findall` returns is a match of the pattern at some position of the text |
| Scanner.FoundAt | bot.py:55-62 | the `j`-th result of `findall` is the match at some position |
| Scanner.KeptCount | bot.py:56 | `sub(…, "")` keeps one character per kept position |
| Scanner.KeptChars | bot.py:56 | each kept character is the character of the text at its kept position, and no match starts there |
| Scanner.KeptIncrease | bot.py:56 | kept positions strictly increase |
| Scanner.KeptPositions | bot.py:56 | the three facts above together |
| Scanner.SkippedStartIsMatch | bot.py:56 | a position the scan does not keep is where a match starts |
| DateRemoval.DateMatchIsWordBounded | bot.py:41 | a DATE_REGEX match starts and ends with word characters, with a non-word character or the text's edge on either side |
| DateRemoval.FirstKeptAfterRemoval | bot.py:56 | the first character kept right after an erased date is not a word character |
| DateRemoval.LastKeptBeforeRemoval | bot.py:56 | the last character kept before an erased date is not a word character |
| DateRemoval.KeptJumps | bot.py:56 | wherever the kept text jumps over an erased date, both characters on either side of the jump are non-word characters |
| DateRemoval.RemovalLeavesRemnant | bot.py:56 | the text after `DATE_REGEX.sub` is its kept characters, at increasing positions, with non-word characters at every join |
| DateRemoval.StretchIsContiguous | bot.py:56 | a run of the erased text that is glued by word characters comes from one contiguous run of the message |
| DateRemoval.BoundaryBefore | bot.py:56 | a word boundary in the erased text in front of a word character is one in the message too |
| DateRemoval.BoundaryAfter | bot.py:56 | the same holds after a word character |
| DateRemoval.StretchText | bot.py:56 | such a run of the erased text is a slice of the message |
| DateRemoval.DateMatchIsLocal | bot.py:41 | a date match depends only on its own characters and the boundaries around it |
| DateRemoval.MatchComesFromMessage | bot.py:55-56 | any date match in the erased text was already a date match of the message |
| DateRemoval.RemainderHasNoDate | bot.py:56 | after `DATE_REGEX.sub` the text holds no date match at all, so no erased year or day can be read as a time |
| DateRemoval.TonightLeftIsEmbedded | bot.py:56-69 | a "tonight" that survives the removal is not a whole word (no word boundary on one side), so line 69 fires only for "tonight" inside a longer word |
| DateRemoval.ClockStretch | bot.py:56-62 | a clock in the erased text is a contiguous stretch of the message |
| DateRemoval.TimeComesFromOneStretch | bot.py:55-62 | the clock of every TIME_REGEX match found after the removal is a contiguous piece of the original message, not glued together across an erased date |
| WallClock.DaysInMonth | bot.py:88 | every month has 28 to 31 days |
| WallClock.Padded | bot.py:69 | zero-padding gives exactly `width` digits |
| WallClock.PaddedValue | bot.py:69 | reading back a zero-padded number gives the number |
| WallClock.DigitsValue | bot.py:88 | a digit string is read as a number below `10^length` |
| WallClock.FormatDate | bot.py:69 | `strftime("%d-%m-%Y")` gives the `DD-MM-YYYY` shape |
| WallClock.FormatDateRoundTrip | bot.py:69-88 | today's formatted date parses back to today |
| WallClock.Strptime | bot.py:88 | `strptime(f"{date} {time}", "%d-%m-%Y %H:%M")`: `None` (ValueError) when a field is out of its directive's range, the year is 0 or the day is past the month's end; otherwise the point |
| WallClock.StrptimeAcceptsValid | bot.py:87-92 | `strptime` succeeds exactly on a real calendar date with hour ≤ 23 and minute ≤ 59, and then gives those fields back |
| Text.AsciiLower | bot.py:68 | ASCII capitals become small letters and every other character is left alone |
| Text.LeadingSpace | bot.py:52 | counts exactly the whitespace the text starts with |
| Text.SpaceBefore | bot.py:52 | counts exactly the whitespace just before a position |
| Text.Strip | bot.py:52 | `str.strip()`: the text after its leading whitespace, up to trailing whitespace only, neither starting nor ending with whitespace |
| Text.StripUnpadded | bot.py:62 | a text that neither starts nor ends with whitespace is unchanged by `strip` |
| Text.Replace | bot.py:62 | `replace` of one character: same length, each occurrence replaced, every other character kept |
| Text.Remove | bot.py:120 | `replace("@", "")`: no `@` left, every other character kept as often as before, and a text without `@` is unchanged |
| Samples.Message1Text | temp.py:87-91 | the first sample is the text of `message` |
| Samples.Message1Events | temp.py:87-91 | it yields three Alliance events at 19:45 on 28-02, 01-03 and 02-03-2025, blue, credited to Mortal |
| Samples.DatedMessageEvents | temp.py:87-91 | any non-empty list of `:ony: :alliance:  - DD.MM.YYYY - HH:MM` lines between `<Mortal> ` and `@Onyxia Alliance` yields one Alliance event per line, at its date and time, in order, or OverflowError when one of the dates is 01-01-0001 or 31-12-9999 |
| Samples.DatedOutermost | temp.py:87-91 | the events of such lines fall on 01-01-0001 or 31-12-9999 exactly when one of the written days does |
| Samples.Message2Text | temp.py:93 | the second sample is the text of `message2` |
| Samples.Message2Events | temp.py:93 | it yields one Alliance event on 28-02-2025 at 23:00 for Nihilum; the word "tonight" adds nothing |
| Samples.TonightEvents | temp.py:93 | the same for any hour, minute and date in that sentence, with OverflowError on 01-01-0001 and 31-12-9999 |
| Samples.Message3Text | temp.py:95-100 | the third sample is the text of `message3` |
| Samples.Message3Events | temp.py:95-100 | it yields Rend buffs today at 14:00, 17:01 and 20:02, then a Horde Onyxia buff today at 20:02, all red and credited to Victory; OverflowError when today is 01-01-0001 or 31-12-9999 |
| Samples.PopMessageEvents | temp.py:95-100 | any non-empty list of `<Victory> will pop <mention> - HH:MM` lines, padded with any number of spaces and closed by a suitable tail, yields one event per line, today, in order, or OverflowError when today is 01-01-0001 or 31-12-9999 |
| Samples.PopOutermost | temp.py:95-100 | the events of such lines fall on 01-01-0001 or 31-12-9999 exactly when today does |
| Samples.Message4Text | temp.py:102-103 | the fourth sample is the text of `message4` |
| Samples.Message4Events | temp.py:102-103 | it yields one Alliance event on 27-02-2025 at 18:45 for Just Pull HC; the `.` clock and the `ST` zone are read correctly |
| Samples.ZonedEvents | temp.py:102-103 | the same for any hour, minute and date in that layout, with OverflowError on 01-01-0001 and 31-12-9999 |
| Samples.Message5Text | temp.py:105-106 | the fifth sample is the text of `message5` |
| Samples.Message5Events | temp.py:105-106 | it yields one Rend buff today at 20:00 for Victory, or OverflowError when today is 01-01-0001 or 31-12-9999 |
| Samples.GuildInFront | bot.py:51-52 | a message opening with `<name>` is credited to `name` when `name` has no `>` and no surrounding space |
| Samples.WrittenNormal | bot.py:65 | a written date with any of the three separators normalises to the formatted date |
| Samples.KeptTonight | bot.py:65 | "tonight" is dropped from the date matches and a written date is kept |
| Samples.DotClockNormal | bot.py:62 | `HH.MM ST` normalises to `HH:MM` |
| Samples.ZonedClockNormal | bot.py:62 | a clock followed by a zone normalises to the clock |
| Samples.TonightGone | bot.py:68 | no "tonight" is left in message 2 once its dates are erased |
| Samples.DatedScanDates | bot.py:55-56 | in the message-1 layout, DATE_REGEX finds the written dates, and erasing them leaves the undated lines |
| Samples.ZonedDates | bot.py:55-56 | in the message-4 layout, DATE_REGEX finds the one date, and erasing it leaves the rest |
| Samples.ZonedTimes | bot.py:62 | TIME_REGEX finds `HH.MM ST` in what is left |
| Samples.TonightTimes | bot.py:62 | TIME_REGEX finds `HH:MM CET` in message 2 |
| Samples.TonightMentions | bot.py:59 | and one Alliance mention |
| Samples.MentionColors | bot.py:34-38 | the Alliance colour is "7" and the Horde and Rend colours are "11" |
| Samples.TodayAt | bot.py:88 | today's formatted date with a valid time parses to today at that time |

## Left out

- Discord wiring is not modelled: the client, the `on_ready` and `on_message` handlers, the bot-author check and the replies (bot.py:24-28, 104-118, 126-133). They are I/O.
- The Google Calendar insert call and its error handling (bot.py:19-22, 127-133) are not modelled. Only the request body it is given is modelled.
- `load_dotenv`, environment variables and logging (bot.py:11-17, 49, 75-77, 91) are not modelled. Logging has no effect on the result.
- The pytz conversion is not modelled: `STOCKHOLM_TZ.localize(...).astimezone(pytz.utc).isoformat()` (bot.py:89, 96). Only its one failure is (`BuffParser.LocalizeOverflows`). The model's event keeps the local wall-clock date and time that `strptime` returns. Converting it to UTC needs the Europe/Stockholm daylight-saving rules, which this model does not include.
- BuffParser.Event: `at` is the local time, not the UTC ISO string the source stores. For the same reason, `BodyOf` gives the entry's start and end as that local time labelled "UTC".
- `datetime.datetime.today()` is the parameter `today`, assumed to be a valid date.
- WallClock.FormatDate: always writes a four-digit year. `strftime("%Y")` would not pad years below 1000, which cannot occur for today's date.
- WallClock.Strptime: models only the inputs that reach it, `DD-MM-YYYY` and `H:MM`/`HH:MM` (`BuffParser.Tokenize` proves these are the only shapes).
- `Patterns.Boundary`, `Text.IsWordChar`, `Text.IsDigit`: `\b`, `\w` and `\d` are the ASCII classes. In a `str` pattern Python also treats other Unicode letters and digits as word characters and digits.
- Text.AsciiLower: `re.IGNORECASE` and `str.lower()` are modelled for ASCII only. Under `re.IGNORECASE` Python also lets `İ` (U+0130) and `ı` (U+0131) match the `i` of `\btonight\b`, though `.lower()` of neither gives `i` (the Kelvin sign and `ſ` fold to `k` and `s`, which "tonight" does not have).
- Patterns.DateMatchLen: does not match "tonight" spelled with `İ` or `ı`, such as "TONİGHT" or "tonıght". Python's DATE_REGEX does. Line 65 keeps such a match as a date because its `.lower()` is not "tonight", and `strptime` then rejects it for every time. Since the date list is then not empty, line 73 adds no today either. So the source returns `[]` for a message whose only date is such a word, where the model gives events dated today.
- The `print` calls in `temp.py` (lines 108-112) and its copy of the setup code are not modelled.
- Message-id caching, deduplication and the catch-up scan are not modelled. They are not in this code.
