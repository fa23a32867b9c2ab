/** Local wall-clock dates and times: the `"%d-%m-%Y"` text the parser
    builds for today, and the strict `"%d-%m-%Y %H:%M"` parse that decides
    whether a date/time pair becomes an event (bot.py:69, 73, 88). */
module WallClock {
  import opened Results
  import opened Text

  datatype Date = Date(day: nat, month: nat, year: nat)

  /** A point on the local wall clock, before any time-zone conversion. */
  datatype WallTime = WallTime(date: Date, hour: nat, minute: nat)

  /** The Gregorian leap-year rule of Python's `datetime`. */
  predicate IsLeapYear(y: nat) {
    y % 4 == 0 && (y % 100 != 0 || y % 400 == 0)
  }

  function DaysInMonth(month: nat, year: nat): (n: nat)
    requires 1 <= month <= 12
    ensures 28 <= n <= 31
  {
    if month == 2 then (if IsLeapYear(year) then 29 else 28)
    else if month == 4 || month == 6 || month == 9 || month == 11 then 30
    else 31
  }

  /** A date Python's `datetime` accepts (years 1 to 9999). */
  predicate ValidDate(d: Date) {
    1 <= d.year <= 9999 && 1 <= d.month <= 12 && 1 <= d.day <= DaysInMonth(d.month, d.year)
  }

  predicate ValidWallTime(t: WallTime) {
    ValidDate(t.date) && t.hour <= 23 && t.minute <= 59
  }

  predicate AllDigits(s: string) {
    forall k :: 0 <= k < |s| ==> IsDigit(s[k])
  }

  function Pow10(n: nat): (p: nat)
    ensures p >= 1
  {
    if n == 0 then 1 else 10 * Pow10(n - 1)
  }

  /** The value of a run of decimal digits. */
  function DigitsValue(s: string): (v: nat)
    requires AllDigits(s)
    ensures v < Pow10(|s|)
  {
    if s == [] then 0 else 10 * DigitsValue(s[..|s| - 1]) + (s[|s| - 1] as int - '0' as int)
  }

  /** `n` written with exactly `width` decimal digits, zero-padded on the left. */
  function Padded(n: nat, width: nat): (s: string)
    requires n < Pow10(width)
    ensures |s| == width && AllDigits(s)
  {
    if width == 0 then [] else Padded(n / 10, width - 1) + [('0' as int + n % 10) as char]
  }

  /** Reading back a zero-padded number gives the number. */
  lemma {:induction false} PaddedValue(n: nat, width: nat)
    requires n < Pow10(width)
    ensures DigitsValue(Padded(n, width)) == n
  {
    if width > 0 {
      var s := Padded(n, width);
      PaddedValue(n / 10, width - 1);
      assert s[..|s| - 1] == Padded(n / 10, width - 1);
    }
  }

  /** The `DD-MM-YYYY` shape of every date string the parser builds. */
  predicate DateText(s: string) {
    |s| == 10 && s[2] == '-' && s[5] == '-'
    && forall k :: 0 <= k < 10 && k != 2 && k != 5 ==> IsDigit(s[k])
  }

  /** The `H:MM` or `HH:MM` shape of every time string the parser builds. */
  predicate TimeText(s: string) {
    (|s| == 4 || |s| == 5) && s[|s| - 3] == ':'
    && forall k :: 0 <= k < |s| && k != |s| - 3 ==> IsDigit(s[k])
  }

  function DayOf(s: string): nat requires DateText(s) { DigitsValue(s[0..2]) }
  function MonthOf(s: string): nat requires DateText(s) { DigitsValue(s[3..5]) }
  function YearOf(s: string): nat requires DateText(s) { DigitsValue(s[6..10]) }
  function HourOf(s: string): nat requires TimeText(s) { DigitsValue(s[..|s| - 3]) }
  function MinuteOf(s: string): nat requires TimeText(s) { DigitsValue(s[|s| - 2..]) }

  /** `strftime("%d-%m-%Y")` of a date. */
  function FormatDate(d: Date): (s: string)
    requires ValidDate(d)
    ensures DateText(s)
  {
    var s := Padded(d.day, 2) + "-" + Padded(d.month, 2) + "-" + Padded(d.year, 4);
    assert forall k :: 0 <= k < 2 ==> s[k] == Padded(d.day, 2)[k] && s[k + 3] == Padded(d.month, 2)[k];
    assert forall k :: 0 <= k < 4 ==> s[k + 6] == Padded(d.year, 4)[k];
    s
  }

  /** `datetime.strptime(date + " " + time, "%d-%m-%Y %H:%M")` on the shapes
      the parser produces. The format's directives first have to match:
      `%d` takes 01-31, `%m` 01-12, `%Y` any four digits, `%H` 0-23 and `%M`
      00-59 (a larger value leaves unconverted text behind); then building
      the `datetime` rejects year 0 and a day past the end of its month.
      Either failure is a `ValueError`, here `None`. */
  function Strptime(date: string, time: string): (r: Option<WallTime>)
    requires DateText(date) && TimeText(time)
  {
    var day, month, year := DayOf(date), MonthOf(date), YearOf(date);
    var hour, minute := HourOf(time), MinuteOf(time);
    if !(1 <= day <= 31 && 1 <= month <= 12 && hour <= 23 && minute <= 59) then None
    else if year < 1 || day > DaysInMonth(month, year) then None
    else Some(WallTime(Date(day, month, year), hour, minute))
  }

  /** The parse succeeds exactly on a real calendar date with hour at most 23
      and minute at most 59, and then gives those fields back. */
  lemma StrptimeAcceptsValid(date: string, time: string)
    requires DateText(date) && TimeText(time)
    ensures var t := WallTime(Date(DayOf(date), MonthOf(date), YearOf(date)), HourOf(time), MinuteOf(time));
            Strptime(date, time) == if ValidWallTime(t) then Some(t) else None
  {
    assert YearOf(date) < Pow10(4) == 10000;
  }

  /** Formatting a date and reading it back gives the same date, so the
      dates made for today parse back to today. */
  lemma FormatDateRoundTrip(d: Date)
    requires ValidDate(d)
    ensures DayOf(FormatDate(d)) == d.day && MonthOf(FormatDate(d)) == d.month && YearOf(FormatDate(d)) == d.year
  {
    var s := FormatDate(d);
    assert s[0..2] == Padded(d.day, 2);
    assert s[3..5] == Padded(d.month, 2);
    assert s[6..10] == Padded(d.year, 4);
    PaddedValue(d.day, 2);
    PaddedValue(d.month, 2);
    PaddedValue(d.year, 4);
  }
}
