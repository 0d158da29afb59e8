/** What the text of a storage key says: the date of the Gregorian calendar and the time of the day, in
    digits. */
module Calendar {
  import opened Aggregator
  import opened Bars
  import opened Cells
  import opened Decimals
  import opened Intervals
  import opened Keys

  // --- the calendar ------------------------------------------------------------------------------

  /** Every fourth year but three centuries out of four. */
  predicate LeapYear(y: nat) {
    (y % 4 == 0 && y % 100 != 0) || y % 400 == 0
  }

  /** The length of month m of year y. */
  function Days(y: nat, m: nat): nat
    requires 1 <= m <= 12
  {
    if m == 2 && LeapYear(y) then 29 else [31, 28, 31, 30, 31, 30, 31, 31, 30, 31, 30, 31][m - 1]
  }

  /** The days before month m of year y. */
  function MonthsBefore(y: nat, m: nat): nat
    requires 1 <= m <= 12
  {
    [0, 31, 59, 90, 120, 151, 181, 212, 243, 273, 304, 334][m - 1] + if m > 2 && LeapYear(y) then 1 else 0
  }

  /** The days from the first of January of the year 1 to the first of January of year y. */
  function YearsBefore(y: nat): nat
    requires y >= 1
  {
    365 * (y - 1) + (y - 1) / 4 - (y - 1) / 100 + (y - 1) / 400
  }

  /** The number of a date, counted from 0 for the first of January of the year 1. */
  function DayNumber(y: nat, m: nat, d: nat): nat
    requires y >= 1 && 1 <= m <= 12 && d >= 1
  {
    YearsBefore(y) + MonthsBefore(y, m) + (d - 1)
  }

  // --- years -------------------------------------------------------------------------------------

  lemma QuotientStep(n: nat, k: nat)
    requires n >= 1 && k >= 1
    ensures n / k == (n - 1) / k + if n % k == 0 then 1 else 0
  {
    var q, r := (n - 1) / k, (n - 1) % k;
    assert n == q * k + (r + 1);
    if r + 1 == k {
      assert n == (q + 1) * k + 0;
      Division(n, q + 1, 0, k);
    } else {
      Division(n, q, r + 1, k);
    }
  }

  lemma Multiples(y: nat)
    ensures y % 400 == 0 ==> y % 100 == 0
    ensures y % 100 == 0 ==> y % 4 == 0
  {
    if y % 400 == 0 {
      Division(y, 4 * (y / 400), 0, 100);
    }
    if y % 100 == 0 {
      Division(y, 25 * (y / 100), 0, 4);
    }
  }

  lemma YearStep(y: nat)
    requires y >= 1
    ensures YearsBefore(y + 1) == YearsBefore(y) + YearDays(y)
  {
    QuotientStep(y, 4);
    QuotientStep(y, 100);
    QuotientStep(y, 400);
    Multiples(y);
    var fourth, century, quad := y / 4, y / 100, y / 400;
    assert YearsBefore(y + 1) == 365 * y + fourth - century + quad;
  }

  lemma {:induction false} YearsSnoc(x: nat, y: nat)
    requires x <= y
    ensures YearsSpan(x, y + 1) == YearsSpan(x, y) + YearDays(y)
    decreases y - x
  {
    hide YearDays;
    if x == y {
      assert YearsSpan(y + 1, y + 1) == 0;
    } else {
      YearsSnoc(x + 1, y);
    }
  }

  lemma {:induction false} YearsClosed(y: nat)
    requires y >= 1
    ensures YearsSpan(1, y) == YearsBefore(y)
  {
    hide YearDays;
    if y == 1 {
    } else {
      YearsClosed(y - 1);
      YearsSnoc(1, y - 1);
      hide YearsBefore, YearsSpan;
      YearStep(y - 1);
    }
  }

  lemma {:induction false} YearFound(x: nat, y: nat, r: nat)
    requires x <= y && r < YearDays(y)
    ensures YearOf(YearsSpan(x, y) + r, x) == (y, r)
    decreases y - x
  {
    if x == y {
    } else {
      YearFound(x + 1, y, r);
    }
  }

  // --- months ------------------------------------------------------------------------------------

  lemma MonthLength(y: nat, m: nat)
    requires 1 <= m <= 12
    ensures MonthDays(y, m) == Days(y, m)
  {
    Multiples(y);
  }

  lemma {:induction false} MonthsSnoc(y: nat, k: nat, m: nat)
    requires k <= m
    ensures MonthsSpan(y, k, m + 1) == MonthsSpan(y, k, m) + MonthDays(y, m)
    decreases m - k
  {
    hide MonthDays;
    if k == m {
      assert MonthsSpan(y, m + 1, m + 1) == 0;
    } else {
      MonthsSnoc(y, k + 1, m);
    }
  }

  lemma {:induction false} MonthsClosed(y: nat, m: nat)
    requires 1 <= m <= 12
    ensures MonthsSpan(y, 1, m) == MonthsBefore(y, m)
  {
    hide MonthDays, LeapYear;
    if m == 1 {
    } else {
      MonthsClosed(y, m - 1);
      MonthsSnoc(y, 1, m - 1);
      hide MonthsSpan;
      MonthLength(y, m - 1);
    }
  }

  lemma {:induction false} MonthFound(y: nat, k: nat, m: nat, r: nat)
    requires 1 <= k <= m <= 12 && r < MonthDays(y, m)
    ensures MonthOf(MonthsSpan(y, k, m) + r, y, k) == (m, r)
    decreases m - k
  {
    hide MonthDays;
    if k == m {
    } else {
      MonthFound(y, k + 1, m, r);
    }
  }

  lemma DayInYear(y: nat, m: nat, d: nat)
    requires 1 <= m <= 12 && 1 <= d <= Days(y, m)
    ensures MonthsBefore(y, m) + (d - 1) < YearDays(y)
  {
    Multiples(y);
  }

  /** The text of a day is the year, the month and the day of the date that has its number. */
  lemma DateOfDay(y: nat, m: nat, d: nat)
    requires y >= 1 && 1 <= m <= 12 && 1 <= d <= Days(y, m)
    ensures DateText(DayNumber(y, m, d)) == Padded(y, 4) + "-" + Padded(m, 2) + "-" + Padded(d, 2)
  {
    hide Days, YearsBefore, MonthsBefore, YearsSpan, MonthsSpan, YearDays, MonthDays, YearOf, MonthOf, Padded;
    var inYear := MonthsBefore(y, m) + (d - 1);
    YearsClosed(y);
    MonthsClosed(y, m);
    MonthLength(y, m);
    DayInYear(y, m, d);
    YearFound(1, y, inYear);
    MonthFound(y, 1, m, d - 1);
  }

  // --- digits ------------------------------------------------------------------------------------

  const DIGITS := "0123456789"

  /** Two digits. */
  function Two(n: nat): string
    requires n < 100
  {
    [DIGITS[n / 10], DIGITS[n % 10]]
  }

  /** Four digits. */
  function Four(n: nat): string
    requires n < 10_000
  {
    [DIGITS[n / 1000], DIGITS[n / 100 % 10], DIGITS[n / 10 % 10], DIGITS[n % 10]]
  }

  lemma DigitIs(n: nat)
    requires n < 10
    ensures Digit(n) == DIGITS[n]
  {
  }

  lemma {:induction false} PadSnoc(s: string, c: char, w: nat)
    requires AllDigits(s) && IsDigit(c)
    ensures Pad(s + [c], w + 1) == Pad(s, w) + [c]
    decreases if |s| < w then w - |s| else 0
  {
    if |s| < w {
      assert "0" + (s + [c]) == ("0" + s) + [c];
      PadSnoc("0" + s, c, w);
    }
  }

  lemma PadZero(s: string, w: nat)
    requires AllDigits(s) && |s| < w
    ensures Pad(s, w) == Pad("0" + s, w)
  {
  }

  lemma PaddedSnoc(n: nat, w: nat)
    requires w >= 1
    ensures Padded(n, w + 1) == Padded(n / 10, w) + [DIGITS[n % 10]]
  {
    hide Pad;
    DigitIs(n % 10);
    if n >= 10 {
      PadSnoc(Dec(n / 10), Digit(n % 10), w);
    } else {
      PadZero([Digit(n)], w + 1);
      PadSnoc("0", Digit(n), w);
    }
  }

  lemma OneDigit(n: nat)
    requires n < 10
    ensures Padded(n, 1) == [DIGITS[n]]
  {
  }

  lemma TwoDigits(n: nat)
    requires n < 100
    ensures Padded(n, 2) == Two(n)
  {
    hide Padded;
    PaddedSnoc(n, 1);
    OneDigit(n / 10);
  }

  lemma TwoIs(n: nat)
    requires n < 100
    ensures Two(n) == [DIGITS[n / 10], DIGITS[n % 10]]
  {
  }

  lemma FourDigits(n: nat)
    requires n < 10_000
    ensures Padded(n, 4) == Four(n)
  {
    hide Padded, Two;
    PaddedSnoc(n, 3);
    PaddedSnoc(n / 10, 2);
    TwoDigits(n / 10 / 10);
    TwoIs(n / 10 / 10);
    assert n / 10 / 10 == n / 100 && n / 100 / 10 == n / 1000;
  }

  lemma {:induction false} NoLeadingZero(n: nat)
    ensures n > 0 ==> Dec(n)[0] != '0'
  {
    if n >= 10 {
      NoLeadingZero(n / 10);
    }
  }

  lemma {:induction false} PadLonger(s: string, w: nat)
    requires AllDigits(s)
    ensures Pad(s, w) == s || |Pad(s, w)| == w
    decreases if |s| < w then w - |s| else 0
  {
    if |s| < w {
      PadLonger("0" + s, w);
    }
  }

  /** A numeral is as wide as asked for, or longer and then without a leading zero, and its value is the
      number; years after 9999 have more than four digits. */
  lemma PaddedValue(n: nat, w: nat)
    ensures AllDigits(Padded(n, w)) && Value(Padded(n, w)) == n && |Padded(n, w)| >= w
    ensures |Padded(n, w)| > w && n > 0 ==> Padded(n, w)[0] != '0'
  {
    ValueDec(n);
    ValuePad(Dec(n), w);
    NoLeadingZero(n);
    PadLonger(Dec(n), w);
  }

  // --- the text of a key -------------------------------------------------------------------------

  /** The instant of a date and a time of the day. */
  function Instant(y: nat, m: nat, d: nat, hour: nat, minute: nat, second: nat, nanos: nat): Time
    requires y >= 1 && 1 <= m <= 12 && d >= 1
  {
    (DayNumber(y, m, d) * 86_400 + hour * 3600 + minute * 60 + second) * 1_000_000_000 + nanos
  }

  lemma ClockIs(days: nat, hour: nat, minute: nat, second: nat, nanos: nat)
    requires hour < 24 && minute < 60 && second < 60 && nanos < 1_000_000_000
    ensures var t := (days * 86_400 + hour * 3600 + minute * 60 + second) * 1_000_000_000 + nanos;
      var inDay := t / SECOND % DAY;
      && t / SECOND / DAY == days && inDay / 3600 == hour && inDay % 3600 / 60 == minute && inDay % 60 == second
  {
    var inDay := hour * 3600 + minute * 60 + second;
    Division((days * 86_400 + inDay) * 1_000_000_000 + nanos, days * 86_400 + inDay, nanos, SECOND);
    Division(days * 86_400 + inDay, days, inDay, DAY);
    Division(inDay, hour, minute * 60 + second, 3600);
    Division(minute * 60 + second, minute, second, 60);
    Division(inDay, hour * 60 + minute, second, 60);
  }

  lemma DayBound(y: nat, m: nat, d: nat)
    requires 1 <= m <= 12 && d <= Days(y, m)
    ensures d < 100
  {
  }

  /** A key names the symbol, the interval and the date and time at which the window starts, to the
      second, in digits. */
  lemma KeyText(c: Cell, y: nat, m: nat, d: nat, hour: nat, minute: nat, second: nat, nanos: nat)
    requires 1 <= y <= 9999 && 1 <= m <= 12 && 1 <= d <= Days(y, m)
    requires hour < 24 && minute < 60 && second < 60 && nanos < 1_000_000_000
    ensures Key(c, Instant(y, m, d, hour, minute, second, nanos))
         == "ohlcv:" + c.symbol + ":" + c.interval + ":" + Four(y) + "-" + Two(m) + "-" + Two(d)
            + "T" + Two(hour) + ":" + Two(minute) + ":" + Two(second) + "Z"
  {
    hide Days, DayNumber, DateText, Padded, Two, Four;
    ClockIs(DayNumber(y, m, d), hour, minute, second, nanos);
    DateOfDay(y, m, d);
    DayBound(y, m, d);
    FourDigits(y);
    TwoDigits(m);
    TwoDigits(d);
    TwoDigits(hour);
    TwoDigits(minute);
    TwoDigits(second);
    KeyParts(c, Instant(y, m, d, hour, minute, second, nanos));
  }

  /** An applied save puts the fields of the bar under the key that spells out the start of its window,
      for twice the length of the interval, and changes nothing else. */
  lemma SavedText(store: map<string, Saved>, b: Bar, now: Time, y: nat, m: nat, d: nat, hour: nat, minute: nat,
                  second: nat, nanos: nat)
    requires Known(b.interval)
    requires 1 <= y <= 9999 && 1 <= m <= 12 && 1 <= d <= Days(y, m)
    requires hour < 24 && minute < 60 && second < 60 && nanos < 1_000_000_000
    requires b.start == Instant(y, m, d, hour, minute, second, nanos)
    ensures SaveIn(store, b, now, true)
         == store["ohlcv:" + b.symbol + ":" + b.interval + ":" + Four(y) + "-" + Two(m) + "-" + Two(d)
                  + "T" + Two(hour) + ":" + Two(minute) + ":" + Two(second) + "Z"
                  := Saved(PbBar(b.symbol, b.open, b.high, b.low, b.close, b.volume, b.start, b.end),
                           now + 2 * Dur(b.interval))]
  {
    hide Days, Instant, Key, Two, Four, Known, Dur;
    KeyText(Cell(b.interval, b.symbol), y, m, d, hour, minute, second, nanos);
  }

  lemma ExampleParts()
    ensures "ohlcv:" + "BTCUSDT" + ":" + "1m" + ":" + "2025" + "-" + "06" + "-" + "01"
            + "T" + "00" + ":" + "00" + ":" + "00" + "Z"
         == "ohlcv:BTCUSDT:1m:2025-06-01T00:00:00Z"
  {
    assert "ohlcv:" + "BTCUSDT" + ":" + "1m" + ":" == "ohlcv:BTCUSDT:1m:";
    assert "ohlcv:BTCUSDT:1m:" + "2025" + "-" + "06" + "-" + "01" == "ohlcv:BTCUSDT:1m:2025-06-01";
  }

  lemma ExampleInstant()
    ensures Instant(2025, 6, 1, 0, 0, 0, 0) == 739_402 * 86_400 * 1_000_000_000
  {
    assert YearsBefore(2025) == 739_251;
    assert MonthsBefore(2025, 6) == 151;
  }

  lemma ExampleDigits()
    ensures Four(2025) == "2025" && Two(6) == "06" && Two(1) == "01" && Two(0) == "00"
  {
  }

  /** The window of 2025-06-01 at midnight, day 739402. */
  lemma KeyExample()
    ensures Key(Cell("1m", "BTCUSDT"), 739_402 * 86_400 * 1_000_000_000)
         == "ohlcv:BTCUSDT:1m:2025-06-01T00:00:00Z"
  {
    hide Key, Two, Four, Instant;
    ExampleInstant();
    KeyText(Cell("1m", "BTCUSDT"), 2025, 6, 1, 0, 0, 0, 0);
    ExampleDigits();
    ExampleParts();
  }
}
