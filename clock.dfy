/** The clock reading the responder prints, and the two `strftime` formats it
    uses: `%H:%M` for the time and `%A, %B %d, %Y` for the date. */
module Clock {

  /** The fields of `datetime.datetime.now()` that the two formats read.
      `weekday` counts from Monday = 0, as Python's `weekday()` does. */
  datatype Reading = Reading(year: int, month: int, day: int, weekday: int, hour: int, minute: int)

  /** A reading the clock can produce; years are those `%Y` prints with four digits. */
  predicate IsReading(t: Reading) {
    && 1000 <= t.year <= 9999
    && 1 <= t.month <= 12
    && 1 <= t.day <= 31
    && 0 <= t.weekday < 7
    && 0 <= t.hour < 24
    && 0 <= t.minute < 60
  }

  type Now = t: Reading | IsReading(t) witness Reading(2000, 1, 1, 5, 0, 0)

  const WeekdayNames: seq<string> :=
    ["Monday", "Tuesday", "Wednesday", "Thursday", "Friday", "Saturday", "Sunday"]

  const MonthNames: seq<string> :=
    ["January", "February", "March", "April", "May", "June",
     "July", "August", "September", "October", "November", "December"]

  function Digit(n: int): char
    requires 0 <= n < 10
  {
    ('0' as int + n) as char
  }

  predicate IsDigit(c: char) {
    '0' <= c <= '9'
  }

  /** The number a string of decimal digits spells. */
  function ReadNumber(s: string): int
    decreases |s|
  {
    if s == [] then 0 else 10 * ReadNumber(s[..|s| - 1]) + (s[|s| - 1] as int - '0' as int)
  }

  /** `n` with two digits, zero-padded: what `%H`, `%M` and `%d` print. */
  function TwoDigits(n: int): (r: string)
    requires 0 <= n < 100
    ensures |r| == 2 && IsDigit(r[0]) && IsDigit(r[1])
    ensures ReadNumber(r) == n
  {
    var r := [Digit(n / 10), Digit(n % 10)];
    assert r[..1][..0] == [];
    assert ReadNumber(r[..1]) == n / 10;
    r
  }

  /** `n` with four digits: what `%Y` prints for the years a clock reading has. */
  function FourDigits(n: int): (r: string)
    requires 1000 <= n < 10000
    ensures |r| == 4 && forall i | 0 <= i < 4 :: IsDigit(r[i])
    ensures ReadNumber(r) == n
  {
    var r := [Digit(n / 1000), Digit(n / 100 % 10), Digit(n / 10 % 10), Digit(n % 10)];
    assert r[..3][..2][..1][..0] == [];
    assert ReadNumber(r[..3][..2][..1]) == n / 1000;
    assert ReadNumber(r[..3][..2]) == n / 100 by {
      assert r[..3][..2][..1] == r[..1];
    }
    assert ReadNumber(r[..3]) == n / 10 by {
      assert r[..3][..2] == r[..2];
    }
    r
  }

  /** `now.strftime("%H:%M")`. */
  function TimeText(t: Now): (r: string) {
    TwoDigits(t.hour) + ":" + TwoDigits(t.minute)
  }

  /** `now.strftime("%A, %B %d, %Y")`. */
  function DateText(t: Now): string {
    WeekdayNames[t.weekday] + ", " + MonthNames[t.month - 1] + " " + TwoDigits(t.day) + ", " + FourDigits(t.year)
  }

  /** The time text is five characters, `HH:MM` with four digits, and reads back
      as the hour and minute. */
  lemma TimeTextReadsBack(t: Now)
    ensures var r := TimeText(t);
      && |r| == 5 && r[2] == ':'
      && IsDigit(r[0]) && IsDigit(r[1]) && IsDigit(r[3]) && IsDigit(r[4])
      && ReadNumber(r[..2]) == t.hour && ReadNumber(r[3..]) == t.minute
  {
    var r := TimeText(t);
    assert r[..2] == TwoDigits(t.hour);
    assert r[3..] == TwoDigits(t.minute);
  }

  /** The date text is the weekday's name, a comma, the month's name, and the
      two-digit day and the four-digit year, which read back as the reading's. */
  lemma DateTextReadsBack(t: Now)
    ensures var r := DateText(t);
      && |r| > 10
      && r[..|WeekdayNames[t.weekday]| + 2] == WeekdayNames[t.weekday] + ", "
      && r[|WeekdayNames[t.weekday]| + 2..|r| - 9] == MonthNames[t.month - 1]
      && r[|r| - 9] == ' '
      && r[|r| - 6..|r| - 4] == ", "
      && IsDigit(r[|r| - 8]) && IsDigit(r[|r| - 7])
      && (forall k | |r| - 4 <= k < |r| :: IsDigit(r[k]))
      && ReadNumber(r[|r| - 4..]) == t.year
      && ReadNumber(r[|r| - 8..|r| - 6]) == t.day
  {
    var w := WeekdayNames[t.weekday];
    var head := w + ", " + MonthNames[t.month - 1] + " ";
    var r := DateText(t);
    assert r == head + TwoDigits(t.day) + ", " + FourDigits(t.year);
    assert r[..|w| + 2] == w + ", ";
    assert r[|w| + 2..|r| - 9] == MonthNames[t.month - 1];
    assert r[|r| - 4..] == FourDigits(t.year);
    assert r[|r| - 8..|r| - 6] == TwoDigits(t.day);
  }
}
