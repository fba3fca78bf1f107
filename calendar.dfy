/**
 * Calendar days. The dashboard keys everything by the calendar-date part of
 * a timestamp: its first 10 characters, formatted `yyyy-MM-dd`. Here a day is
 * a number in a bounded calendar, and its key is a 10-character text that no
 * other day shares; a timestamp written for a day starts with that key.
 */
module Calendar {
  import opened Strings

  const KeyWidth: nat := 10
  const DayLimit: nat := 10_000_000_000

  /** Days that have a 10-character key. */
  predicate InCalendar(d: int)
  {
    0 <= d < DayLimit
  }

  type Day = d: int | 0 <= d < 10_000_000_000

  lemma DayLimitDigits()
    ensures DayLimit == Pow10(KeyWidth)
  {
    assert Pow10(2) == 100;
    assert Pow10(4) == 10_000;
    assert Pow10(6) == 1_000_000;
    assert Pow10(8) == 100_000_000;
    assert Pow10(10) == 10_000_000_000;
  }

  /** The calendar-date key of a day (the `yyyy-MM-dd` text of the source). */
  function DayKey(d: int): (k: string)
    requires InCalendar(d)
    ensures |k| == KeyWidth
  {
    PadDecimal(d, KeyWidth)
  }

  /** Different days have different keys. */
  lemma DayKeyInjective(a: int, b: int)
    requires InCalendar(a) && InCalendar(b)
    ensures DayKey(a) == DayKey(b) <==> a == b
  {
    DayLimitDigits();
    PadDecimalRoundTrip(a, KeyWidth);
    PadDecimalRoundTrip(b, KeyWidth);
  }

  /** `substring(0, 10)`: the first 10 characters, or the whole text when shorter. */
  function DatePart(s: string): (r: string)
    ensures |r| <= KeyWidth && |r| <= |s| && r == s[..|r|]
    ensures |s| >= KeyWidth ==> |r| == KeyWidth
    ensures |s| <= KeyWidth ==> r == s
  {
    if |s| <= KeyWidth then s else s[..KeyWidth]
  }

  /** `format(date, "yyyy-MM-dd'T'HH:mm")`: the day's key, `T`, then the time of day. */
  function Timestamp(d: int, clock: string): string
    requires InCalendar(d)
  {
    DayKey(d) + "T" + clock
  }

  /** The date part of a timestamp written for a day is that day's key. */
  lemma DatePartOfTimestamp(d: int, clock: string)
    requires InCalendar(d)
    ensures DatePart(Timestamp(d, clock)) == DayKey(d)
    ensures Timestamp(d, clock) != ""
  {
    assert Timestamp(d, clock)[..KeyWidth] == DayKey(d);
  }
}
