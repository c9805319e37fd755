/** The join code: `Math.floor(1000 + Math.random() * 9000).toString()`. */
module Pins {

  predicate IsDigit(c: char) {
    '0' <= c <= '9'
  }

  function DigitChar(d: int): (c: char)
    requires 0 <= d <= 9
    ensures IsDigit(c)
  {
    (('0' as int) + d) as char
  }

  function DigitValue(c: char): (d: int)
    requires IsDigit(c)
    ensures 0 <= d <= 9
  {
    (c as int) - ('0' as int)
  }

  /** A four-digit decimal numeral without a leading zero. */
  predicate IsPin(s: string) {
    |s| == 4 && s[0] != '0' && forall i :: 0 <= i < 4 ==> IsDigit(s[i])
  }

  /** The decimal text of an integer in [1000, 9999]. */
  function PinText(n: int): (s: string)
    requires 1000 <= n <= 9999
    ensures IsPin(s)
  {
    [DigitChar(n / 1000), DigitChar(n / 100 % 10), DigitChar(n / 10 % 10), DigitChar(n % 10)]
  }

  /** The number a PIN denotes. */
  function PinValue(s: string): (n: int)
    requires IsPin(s)
    ensures 1000 <= n <= 9999
  {
    1000 * DigitValue(s[0]) + 100 * DigitValue(s[1]) + 10 * DigitValue(s[2]) + DigitValue(s[3])
  }

  /** Reading back the text of a number gives that number. */
  lemma PinTextRoundTrip(n: int)
    requires 1000 <= n <= 9999
    ensures PinValue(PinText(n)) == n
  {
    var a, b, c, d := n / 1000, n / 100 % 10, n / 10 % 10, n % 10;
    assert n == 1000 * a + 100 * b + 10 * c + d by {
      assert n == 10 * (n / 10) + d;
      assert n / 10 == 10 * (n / 100) + c;
      assert n / 100 == 10 * a + b;
    }
  }

  /** Every PIN is the text of the number it denotes, so PINs are exactly the
      decimal texts of the integers in [1000, 9999]. */
  lemma PinValueRoundTrip(s: string)
    requires IsPin(s)
    ensures PinText(PinValue(s)) == s
  {
    var a, b, c, d := DigitValue(s[0]), DigitValue(s[1]), DigitValue(s[2]), DigitValue(s[3]);
    var n := PinValue(s);
    assert n / 1000 == a;
    assert n / 100 == 10 * a + b;
    assert n / 100 % 10 == b;
    assert n / 10 == 100 * a + 10 * b + c;
    assert n / 10 % 10 == c;
    assert n % 10 == d;
  }

  /** Distinct draws give distinct PINs. */
  lemma PinTextInjective(m: int, n: int)
    requires 1000 <= m <= 9999 && 1000 <= n <= 9999
    ensures PinText(m) == PinText(n) <==> m == n
  {
    PinTextRoundTrip(m);
    PinTextRoundTrip(n);
  }

  /** A fresh PIN: `Math.random()` is a nondeterministic draw in [1000, 9999]. */
  method ChoosePin() returns (pin: string)
    ensures IsPin(pin)
  {
    var n :| 1000 <= n <= 9999;
    pin := PinText(n);
  }
}
