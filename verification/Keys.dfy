/** Storage keys: `ohlcv:<symbol>:<interval>:<start>`, the start in the format of section 5.6 of
    RFC 3339, in UTC, on the Gregorian calendar that section 5.6 refers to. */
module Keys {
  import opened Intervals
  import opened Bars
  import opened Decimals

  const DAY: nat := 86_400

  predicate IsLeap(y: nat) {
    y % 4 == 0 && (y % 100 != 0 || y % 400 == 0)
  }

  function YearDays(y: nat): nat {
    if IsLeap(y) then 366 else 365
  }

  function MonthDays(y: nat, m: nat): nat {
    if m == 2 then (if IsLeap(y) then 29 else 28)
    else if m in {4, 6, 9, 11} then 30
    else 31
  }

  /** Days from the first of January of year y to the first of January of year z. */
  function YearsSpan(y: nat, z: nat): nat
    requires y <= z
    decreases z - y
  {
    if y == z then 0 else YearDays(y) + YearsSpan(y + 1, z)
  }

  function MonthsSpan(y: nat, m: nat, k: nat): nat
    requires m <= k
    decreases k - m
  {
    if m == k then 0 else MonthDays(y, m) + MonthsSpan(y, m + 1, k)
  }

  /** The year of a day counted from the first of January of year y, and the day in that year. */
  function YearOf(day: nat, y: nat): (r: (nat, nat))
    ensures y <= r.0 && r.1 < YearDays(r.0)
    ensures day == YearsSpan(y, r.0) + r.1
  {
    if day < YearDays(y) then (y, day) else YearOf(day - YearDays(y), y + 1)
  }

  /** The month of a day counted from the first of month m, and the day in that month. */
  function MonthOf(day: nat, y: nat, m: nat): (r: (nat, nat))
    requires 1 <= m <= 12
    ensures m <= r.0 <= 12
    ensures day == MonthsSpan(y, m, r.0) + r.1
    decreases 12 - m
  {
    if day < MonthDays(y, m) || m == 12 then (m, day) else MonthOf(day - MonthDays(y, m), y, m + 1)
  }

  function DateText(day: nat): string {
    var (y, inYear) := YearOf(day, 1);
    var (m, inMonth) := MonthOf(inYear, y, 1);
    Padded(y, 4) + "-" + Padded(m, 2) + "-" + Padded(inMonth + 1, 2)
  }

  /** The text of the whole second that holds t. */
  function Rfc3339(t: Time): string {
    var secs := t / SECOND;
    var inDay := secs % DAY;
    DateText(secs / DAY) + "T" + Padded(inDay / 3600, 2)
    + ":" + Padded(inDay % 3600 / 60, 2)
    + ":" + (Padded(inDay % 60, 2) + "Z")
  }

  lemma DateInjective(d: nat, d': nat)
    requires DateText(d) == DateText(d')
    ensures d == d'
  {
    var (y, n) := YearOf(d, 1);
    var (m, k) := MonthOf(n, y, 1);
    var (y', n') := YearOf(d', 1);
    var (m', k') := MonthOf(n', y', 1);
    CutLast(Padded(y, 4) + "-" + Padded(m, 2), Padded(k + 1, 2),
            Padded(y', 4) + "-" + Padded(m', 2), Padded(k' + 1, 2), '-');
    CutLast(Padded(y, 4), Padded(m, 2), Padded(y', 4), Padded(m', 2), '-');
    PaddedInjective(k + 1, k' + 1, 2);
    PaddedInjective(m, m', 2);
    PaddedInjective(y, y', 4);
  }

  lemma ClockParts(s: nat)
    ensures s == 3600 * (s / 3600) + 60 * (s % 3600 / 60) + s % 60
  {
    var r := s % 3600;
    assert s == (60 * (s / 3600) + r / 60) * 60 + r % 60;
    Division(s, 60 * (s / 3600) + r / 60, r % 60, 60);
  }

  lemma ClockInjective(s: nat, s': nat)
    requires s / 3600 == s' / 3600 && s % 3600 / 60 == s' % 3600 / 60 && s % 60 == s' % 60
    ensures s == s'
  {
    ClockParts(s);
    ClockParts(s');
  }

  /** The hour, minute and second parts of a key's tail. */
  function Hours(t: Time): string {
    DateText(t / SECOND / DAY) + "T" + Padded(t / SECOND % DAY / 3600, 2)
  }

  function Minutes(t: Time): (s: string)
    ensures ':' !in s
  {
    Padded(t / SECOND % DAY % 3600 / 60, 2)
  }

  function Seconds(t: Time): (s: string)
    ensures ':' !in s
  {
    Padded(t / SECOND % DAY % 60, 2) + "Z"
  }

  lemma HoursHaveNoColon(t: Time)
    ensures ':' !in Hours(t)
  {
  }

  /** Equal parts, equal whole-second instants. */
  lemma PartsInjective(t: Time, t': Time)
    requires t % SECOND == 0 && t' % SECOND == 0
    requires Hours(t) == Hours(t') && Minutes(t) == Minutes(t') && Seconds(t) == Seconds(t')
    ensures t == t'
  {
    var s, s' := t / SECOND % DAY, t' / SECOND % DAY;
    CutLast(DateText(t / SECOND / DAY), Padded(s / 3600, 2),
            DateText(t' / SECOND / DAY), Padded(s' / 3600, 2), 'T');
    DateInjective(t / SECOND / DAY, t' / SECOND / DAY);
    PaddedInjective(s / 3600, s' / 3600, 2);
    PaddedInjective(s % 3600 / 60, s' % 3600 / 60, 2);
    CutEnd(Padded(s % 60, 2), Padded(s' % 60, 2));
    PaddedInjective(s % 60, s' % 60, 2);
    ClockInjective(s, s');
    assert t / SECOND == t' / SECOND;
  }

  lemma CutEnd(a: string, b: string)
    requires a + "Z" == b + "Z"
    ensures a == b
  {
    assert a == (a + "Z")[..|a + "Z"| - 1];
    assert b == (b + "Z")[..|b + "Z"| - 1];
  }

  function Key(c: Cell, start: Time): string {
    "ohlcv:" + c.symbol + ":" + c.interval + ":" + Rfc3339(start)
  }

  /** Two cells, or two windows of a cell, never share a key - even if a symbol contains colons. */
  lemma KeyInjective(c: Cell, t: Time, c': Cell, t': Time)
    requires Known(c.interval) && Known(c'.interval)
    requires t % SECOND == 0 && t' % SECOND == 0
    requires Key(c, t) == Key(c', t')
    ensures c == c' && t == t'
  {
    assert ':' !in c.interval && ':' !in c'.interval;
    hide Hours, Minutes, Seconds, Known;
    var a, a' := "ohlcv:" + c.symbol, "ohlcv:" + c'.symbol;
    var b, b' := a + ":" + c.interval, a' + ":" + c'.interval;
    var h, h' := b + ":" + Hours(t), b' + ":" + Hours(t');
    var m, m' := h + ":" + Minutes(t), h' + ":" + Minutes(t');
    KeyParts(c, t);
    KeyParts(c', t');
    hide Key;
    CutLast(m, Seconds(t), m', Seconds(t'), ':');
    CutLast(h, Minutes(t), h', Minutes(t'), ':');
    HoursHaveNoColon(t);
    HoursHaveNoColon(t');
    CutLast(b, Hours(t), b', Hours(t'), ':');
    CutLast(a, c.interval, a', c'.interval, ':');
    assert c.symbol == a[6..] && c'.symbol == a'[6..];
    PartsInjective(t, t');
  }

  lemma KeyParts(c: Cell, t: Time)
    ensures Key(c, t)
         == "ohlcv:" + c.symbol + ":" + c.interval + ":" + Hours(t) + ":" + Minutes(t) + ":" + Seconds(t)
  {
    hide DateText, Padded;
  }

  lemma AlignedSecond(t: Time, iv: string)
    requires Known(iv) && Aligned(t, Dur(iv))
    ensures t % SECOND == 0
  {
    DivisorTransitive(SECOND, Dur(iv), t);
  }

  /** Every instant of a bar's window leads to the key the bar was saved under. */
  lemma KeyAgreement(c: Cell, b: Bar, ts: Time)
    requires Known(c.interval) && BarOk(c, b) && b.start <= ts < b.end
    ensures Key(c, Align(ts, Dur(c.interval))) == Key(Cell(b.interval, b.symbol), b.start)
  {
    AlignWindow(ts, b.start, Dur(c.interval));
  }
}
