/** Decimal numerals, as `%d` prints them, and cutting a string at a separator. */
module Decimals {

  predicate IsDigit(c: char) {
    '0' <= c <= '9'
  }

  predicate AllDigits(s: string) {
    forall c :: c in s ==> IsDigit(c)
  }

  function Digit(n: nat): (c: char)
    requires n < 10
    ensures IsDigit(c)
  {
    ('0' as int + n) as char
  }

  function DigitValue(c: char): nat
    requires IsDigit(c)
  {
    c as int - '0' as int
  }

  /** The numeral of n, without leading zeros. */
  function Dec(n: nat): (s: string)
    ensures AllDigits(s) && |s| > 0
  {
    if n < 10 then [Digit(n)] else Dec(n / 10) + [Digit(n % 10)]
  }

  /** The number a string of digits denotes. */
  function Value(s: string): nat
    requires AllDigits(s)
  {
    if s == "" then 0 else 10 * Value(s[..|s| - 1]) + DigitValue(s[|s| - 1])
  }

  lemma {:induction false} ValueDec(n: nat)
    ensures Value(Dec(n)) == n
  {
    if n >= 10 {
      ValueDec(n / 10);
      assert Dec(n)[..|Dec(n)| - 1] == Dec(n / 10);
    } else {
      assert Dec(n)[..0] == "";
    }
  }

  /** Left-padding with zeros to width w. */
  function Pad(s: string, w: nat): (r: string)
    requires AllDigits(s)
    ensures AllDigits(r) && |r| >= w
    decreases if |s| < w then w - |s| else 0
  {
    if |s| < w then Pad("0" + s, w) else s
  }

  lemma {:induction false} ValueZero(s: string)
    requires AllDigits(s)
    ensures AllDigits("0" + s) && Value("0" + s) == Value(s)
  {
    if s == "" {
      assert ("0" + s)[..0] == "";
    } else {
      assert ("0" + s)[..|s|] == "0" + s[..|s| - 1];
      ValueZero(s[..|s| - 1]);
    }
  }

  lemma {:induction false} ValuePad(s: string, w: nat)
    requires AllDigits(s)
    ensures Value(Pad(s, w)) == Value(s)
    decreases if |s| < w then w - |s| else 0
  {
    if |s| < w {
      ValueZero(s);
      ValuePad("0" + s, w);
    }
  }

  function Padded(n: nat, w: nat): (r: string)
    ensures AllDigits(r)
  {
    Pad(Dec(n), w)
  }

  lemma PaddedInjective(m: nat, n: nat, w: nat)
    requires Padded(m, w) == Padded(n, w)
    ensures m == n
  {
    ValueDec(m);
    ValueDec(n);
    ValuePad(Dec(m), w);
    ValuePad(Dec(n), w);
  }

  /** A string is cut in only one way at the last occurrence of a separator. */
  lemma CutLast(a: string, b: string, a': string, b': string, sep: char)
    requires a + [sep] + b == a' + [sep] + b'
    requires sep !in b && sep !in b'
    ensures a == a' && b == b'
  {
    var s, s' := a + [sep] + b, a' + [sep] + b';
    assert s[|a|] == sep && s'[|a'|] == sep;
    assert forall k :: |a| < k < |s| ==> s[k] == b[k - |a| - 1];
    assert forall k :: |a'| < k < |s'| ==> s'[k] == b'[k - |a'| - 1];
    assert |a| == |a'|;
    assert a == s[..|a|] == s'[..|a'|] == a';
    assert b == s[|a| + 1..] == s'[|a'| + 1..] == b';
  }
}
