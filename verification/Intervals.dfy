/** The interval table and the floor alignment of instants.

    An instant is a whole number of nanoseconds since the zero time, 0001-01-01T00:00:00Z, which is
    both the origin of Go's `Truncate` and the least instant a protobuf timestamp may carry. */
module Intervals {
  import opened Wrappers

  type Time = nat

  const SECOND: nat := 1_000_000_000
  const MINUTE: nat := 60 * SECOND
  const HOUR: nat := 60 * MINUTE

  /** The durations, smallest first; an interval name outside the table is an error. */
  function Duration(iv: string): (r: Result<nat, string>)
    ensures r.Success? ==> r.value > 0 && ':' !in iv
  {
    if iv == "1m" then Success(MINUTE)
    else if iv == "5m" then Success(5 * MINUTE)
    else if iv == "15m" then Success(15 * MINUTE)
    else if iv == "1h" then Success(HOUR)
    else if iv == "4h" then Success(4 * HOUR)
    else if iv == "1d" then Success(24 * HOUR)
    else Failure("unknown Interval: " + iv)
  }

  /** The table: six names, one minute to one day. */
  lemma DurationTable(iv: string)
    ensures Duration(iv).Success? <==> iv in ["1m", "5m", "15m", "1h", "4h", "1d"]
    ensures Duration("1m") == Success(60 * SECOND) && Duration("5m") == Success(300 * SECOND)
    ensures Duration("15m") == Success(900 * SECOND) && Duration("1h") == Success(3600 * SECOND)
    ensures Duration("4h") == Success(14400 * SECOND) && Duration("1d") == Success(86400 * SECOND)
  {
    assert "1m"[0] == '1' && "5m"[0] == '5' && "15m"[1] == '5' && "1h"[1] == 'h' && "4h"[0] == '4' && "1d"[1] == 'd';
  }

  predicate Known(iv: string) {
    Duration(iv).Success?
  }

  function Dur(iv: string): (d: nat)
    requires Known(iv)
    ensures d > 0
  {
    Duration(iv).value
  }

  /** The start of the window of length d that holds t. */
  function Align(t: Time, d: nat): (w: Time)
    requires d > 0
  {
    t - t % d
  }

  function AlignToInterval(ts: Time, iv: string): (r: Result<Time, string>) {
    match Duration(iv)
    case Success(d) => Success(Align(ts, d))
    case Failure(e) => Failure("invalid interval " + iv + ": " + e)
  }

  predicate Aligned(t: Time, d: nat)
    requires d > 0
  {
    t % d == 0
  }

  lemma PositiveProduct(x: int, d: nat)
    requires x * d > 0
    ensures x > 0 && x * d >= d
  {
    assert x <= 0 ==> x * d <= 0;
    assert x * d == (x - 1) * d + d;
  }

  /** Quotient and remainder are determined by the division equation. */
  lemma Division(t: int, q: int, r: int, d: nat)
    requires d > 0 && t == q * d + r && 0 <= r < d
    ensures t / d == q && t % d == r
  {
    var q0, r0 := t / d, t % d;
    assert (q - q0) * d == r0 - r;
    if q0 < q {
      PositiveProduct(q - q0, d);
    } else if q < q0 {
      assert (q0 - q) * d == r - r0;
      PositiveProduct(q0 - q, d);
    }
  }

  lemma MultipleBelow(a: nat, b: nat, d: nat)
    requires d > 0 && a < b && a % d == 0 && b % d == 0
    ensures a + d <= b
  {
    assert (b / d - a / d) * d == b - a;
    PositiveProduct(b / d - a / d, d);
  }

  /** Align(t, d) is the one multiple of d in (t - d, t]. */
  lemma AlignWindow(t: Time, w: Time, d: nat)
    requires d > 0
    ensures Align(t, d) <= t < Align(t, d) + d
    ensures Aligned(Align(t, d), d)
    ensures Align(t, d) == w <==> Aligned(w, d) && w <= t < w + d
  {
    var q := t / d;
    assert t == q * d + t % d;
    assert Align(t, d) == q * d;
    Division(q * d, q, 0, d);
    if Aligned(w, d) && w <= t < w + d {
      if w < Align(t, d) {
        MultipleBelow(w, Align(t, d), d);
      } else if Align(t, d) < w {
        MultipleBelow(Align(t, d), w, d);
      }
    }
  }

  /** Alignment is monotone, hence floor alignment keeps the order of instants. */
  lemma AlignMonotone(t: Time, u: Time, d: nat)
    requires d > 0 && t <= u
    ensures Align(t, d) <= Align(u, d)
  {
    AlignWindow(t, 0, d);
    AlignWindow(u, 0, d);
    if Align(u, d) < Align(t, d) {
      MultipleBelow(Align(u, d), Align(t, d), d);
    }
  }

  /** The table is a chain of divisors. */
  lemma DurationsDivide(iv1: string, iv2: string)
    requires Known(iv1) && Known(iv2) && Dur(iv1) <= Dur(iv2)
    ensures Dur(iv2) % Dur(iv1) == 0
  {
  }

  lemma DivisorTransitive(a: nat, b: nat, c: nat)
    requires a > 0 && b > 0 && b % a == 0 && c % b == 0
    ensures c % a == 0
  {
    var p, q := b / a, c / b;
    assert c == q * b && b == p * a;
    assert q * b == (q * p) * a by {
      assert q * (p * a) == (q * p) * a;
    }
    Division((q * p) * a, q * p, 0, a);
  }

  /** Windows nest: aligning to a coarser interval may go through a finer one that divides it. */
  lemma WindowsNest(t: Time, d1: nat, d2: nat)
    requires d1 > 0 && d2 > 0 && d2 % d1 == 0
    ensures Align(Align(t, d1), d2) == Align(t, d2)
  {
    var w1, w2 := Align(t, d1), Align(t, d2);
    AlignWindow(t, w1, d1);
    AlignWindow(t, w2, d2);
    DivisorTransitive(d1, d2, w2);
    assert w2 <= w1 by {
      if w1 < w2 {
        MultipleBelow(w1, w2, d1);
      }
    }
    AlignWindow(w1, w2, d2);
  }

  /** Two instants in one fine window share every coarser window. */
  lemma FineWindowsAgree(t: Time, u: Time, d1: nat, d2: nat)
    requires d1 > 0 && d2 > 0 && d2 % d1 == 0
    requires Align(t, d1) == Align(u, d1)
    ensures Align(t, d2) == Align(u, d2)
  {
    WindowsNest(t, d1, d2);
    WindowsNest(u, d1, d2);
  }
}
