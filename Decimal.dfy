/** Decimal digit strings: Swift's `"\(n)"` for a non-negative `Int`, the
    digit part of `Int(String)`, and the zero padding of `String(format: "%0Nd")`. */
module Decimal {

  predicate IsDigit(c: char) { '0' <= c <= '9' }

  predicate AllDigits(s: string) { forall i :: 0 <= i < |s| ==> IsDigit(s[i]) }

  function DigitChar(d: nat): (c: char)
    requires d < 10
    ensures IsDigit(c) && DigitValue(c) == d
  {
    ['0', '1', '2', '3', '4', '5', '6', '7', '8', '9'][d]
  }

  function DigitValue(c: char): nat
    requires IsDigit(c)
  {
    c as nat - '0' as nat
  }

  /** The shortest decimal spelling of `n`: `"0"` for zero, otherwise no
      leading zero. */
  function Digits(n: nat): (s: string)
    ensures |s| >= 1 && AllDigits(s)
    ensures n > 0 ==> s[0] != '0'
    ensures n < 10 ==> |s| == 1
  {
    if n < 10 then [DigitChar(n)] else Digits(n / 10) + [DigitChar(n % 10)]
  }

  /** The value of a string of decimal digits, read from the left. */
  function ParseDigits(s: string): nat
    requires AllDigits(s)
  {
    if s == [] then 0 else ParseDigits(s[..|s| - 1]) * 10 + DigitValue(s[|s| - 1])
  }

  /** Reading back the spelling of `n` gives `n`. */
  lemma {:induction false} ParseDigitsOfDigits(n: nat)
    ensures ParseDigits(Digits(n)) == n
  {
    if n >= 10 {
      var s := Digits(n);
      assert s[..|s| - 1] == Digits(n / 10);
      ParseDigitsOfDigits(n / 10);
    }
  }

  /** Digit strings of equal value and no leading zero are equal. */
  lemma DigitsInjective(a: nat, b: nat)
    requires Digits(a) == Digits(b)
    ensures a == b
  {
    ParseDigitsOfDigits(a);
    ParseDigitsOfDigits(b);
  }

  function Zeros(k: nat): (s: string)
    ensures |s| == k && AllDigits(s)
    ensures forall i :: 0 <= i < k ==> s[i] == '0'
  {
    seq(k, _ => '0')
  }

  /** Left-pads `ds` with zeros to at least `width` characters. */
  function ZeroPad(ds: string, width: nat): (s: string)
    requires AllDigits(ds)
    ensures AllDigits(s)
    ensures |s| == if |ds| >= width then |ds| else width
  {
    if |ds| >= width then ds else Zeros(width - |ds|) + ds
  }

  lemma {:induction false} ParseDigitsAppend(a: string, b: string)
    requires AllDigits(a) && AllDigits(b)
    ensures AllDigits(a + b)
    ensures ParseDigits(a + b) == ParseDigits(a) * Pow10(|b|) + ParseDigits(b)
  {
    if b == [] {
      assert a + b == a;
    } else {
      var init, ch := b[..|b| - 1], b[|b| - 1];
      assert b == init + [ch];
      assert a + b == (a + init) + [ch];
      ParseDigitsAppend(a, init);
      ParseSnoc(a + init, ch);
      ParseSnoc(init, ch);
      ShiftDigit(ParseDigits(a), Pow10(|init|), ParseDigits(init), DigitValue(ch));
    }
  }

  /** Appending one digit multiplies by ten and adds the digit. */
  lemma ParseSnoc(s: string, ch: char)
    requires AllDigits(s) && IsDigit(ch)
    ensures AllDigits(s + [ch]) && ParseDigits(s + [ch]) == ParseDigits(s) * 10 + DigitValue(ch)
  {
    var t := s + [ch];
    assert t[..|t| - 1] == s;
  }

  /** The arithmetic of appending one digit. */
  lemma ShiftDigit(pa: int, q: int, pb: int, d: int)
    ensures (pa * q + pb) * 10 + d == pa * (q * 10) + (pb * 10 + d)
  {
    MulAssoc(pa, q, 10);
  }

  lemma {:induction false} ParseZeros(k: nat)
    ensures ParseDigits(Zeros(k)) == 0
  {
    if k > 0 {
      assert Zeros(k)[..k - 1] == Zeros(k - 1);
      ParseZeros(k - 1);
    }
  }

  /** Leading zeros do not change the value. */
  lemma ParseZeroPad(ds: string, width: nat)
    requires AllDigits(ds)
    ensures ParseDigits(ZeroPad(ds, width)) == ParseDigits(ds)
  {
    if |ds| < width {
      var z := Zeros(width - |ds|);
      ParseDigitsAppend(z, ds);
      ParseZeros(width - |ds|);
      assert ParseDigits(z) * Pow10(|ds|) == 0;
    }
  }

  lemma MulAssoc(x: int, y: int, z: int)
    ensures (x * y) * z == x * (y * z)
  {
  }

  function Pow10(k: nat): (p: nat)
    ensures p >= 1
  {
    if k == 0 then 1 else 10 * Pow10(k - 1)
  }
}
