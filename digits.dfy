/** Decimal digit strings: the fixed-width numeric fields that `strptime` reads
    and `strftime` writes. */
module Digits {

  function Pow10(n: nat): (p: nat)
    ensures p >= 1
  {
    if n == 0 then 1 else 10 * Pow10(n - 1)
  }

  predicate IsDigit(c: char)
  {
    '0' <= c <= '9'
  }

  predicate AllDigits(s: string)
  {
    forall i :: 0 <= i < |s| ==> IsDigit(s[i])
  }

  function DigitChar(v: nat): (c: char)
    requires v < 10
    ensures IsDigit(c)
  {
    ('0' as int + v) as char
  }

  function DigitValue(c: char): (v: nat)
    requires IsDigit(c)
    ensures v < 10 && DigitChar(v) == c
  {
    c as int - '0' as int
  }

  /** The number that a string of ASCII digits denotes, most significant digit first. */
  function Value(s: string): (v: nat)
    requires AllDigits(s)
    ensures v < Pow10(|s|)
  {
    if s == [] then 0 else Value(s[..|s| - 1]) * 10 + DigitValue(s[|s| - 1])
  }

  /** The last `width` decimal digits of `n`, padded on the left with zeros
      (what `%Y`, `%m`, `%d`, `%H`, `%M` and `%I` write). */
  function Pad(n: nat, width: nat): (s: string)
    ensures |s| == width && AllDigits(s)
  {
    if width == 0 then [] else Pad(n / 10, width - 1) + [DigitChar(n % 10)]
  }

  /** `n` in decimal, with no leading zero. */
  function Decimal(n: nat): (s: string)
    ensures |s| >= 1 && AllDigits(s)
  {
    if n < 10 then [DigitChar(n)] else Decimal(n / 10) + [DigitChar(n % 10)]
  }

  /** Appending a digit multiplies by ten and adds it. */
  lemma LastDigit(w: nat, d: nat)
    requires d < 10
    ensures (w * 10 + d) / 10 == w && (w * 10 + d) % 10 == d
  {
  }

  /** Reading back a padded number gives the number. */
  lemma {:induction false} ValueOfPad(n: nat, width: nat)
    requires n < Pow10(width)
    ensures Value(Pad(n, width)) == n
  {
    if width > 0 {
      var s := Pad(n, width);
      assert s[..|s| - 1] == Pad(n / 10, width - 1);
      ValueOfPad(n / 10, width - 1);
    }
  }

  /** Padding the value of a digit string to its own width gives the string back. */
  lemma {:induction false} PadOfValue(s: string)
    requires AllDigits(s)
    ensures Pad(Value(s), |s|) == s
  {
    if s != [] {
      var init := s[..|s| - 1];
      PadOfValue(init);
      var w, d := Value(init), DigitValue(s[|s| - 1]);
      assert Value(s) == w * 10 + d;
      LastDigit(w, d);
      assert Pad(w * 10 + d, |s|) == Pad(w, |s| - 1) + [DigitChar(d)];
      assert s == init + [s[|s| - 1]];
    }
  }

  /** The unpadded form reads back as the number and, unless the number is
      zero, does not start with '0'. */
  lemma {:induction false} ValueOfDecimal(n: nat)
    ensures Value(Decimal(n)) == n
    ensures n > 0 ==> Decimal(n)[0] != '0'
  {
    if n >= 10 {
      var s := Decimal(n);
      assert s[..|s| - 1] == Decimal(n / 10);
      ValueOfDecimal(n / 10);
    }
  }

  /** Dropping the leading '0' of a two-digit field leaves the unpadded number. */
  lemma TwoDigitsWithoutLeadingZero(n: nat)
    requires 1 <= n < 100
    ensures Pad(n, 2)[0] == '0' <==> n < 10
    ensures Pad(n, 2) == (if n < 10 then "0" + Decimal(n) else Decimal(n))
  {
    assert Pad(n, 2) == [DigitChar(n / 10 % 10)] + [DigitChar(n % 10)];
    if n >= 10 {
      assert Decimal(n) == Decimal(n / 10) + [DigitChar(n % 10)];
      assert DigitValue(DigitChar(n / 10)) == n / 10;
    } else {
      assert DigitChar(0) == '0';
    }
  }

  /** The two-digit field of `s` at `i`, read digit by digit. */
  lemma TwoDigitField(s: string, i: nat)
    requires i + 2 <= |s| && IsDigit(s[i]) && IsDigit(s[i + 1])
    ensures AllDigits(s[i..i + 2])
    ensures Value(s[i..i + 2]) == 10 * DigitValue(s[i]) + DigitValue(s[i + 1])
  {
    assert s[i..i + 2] == [s[i], s[i + 1]];
    ValueOfTwo(s[i..i + 2]);
  }

  /** The four-digit field at the start of `s`, read digit by digit. */
  lemma FourDigitField(s: string)
    requires 4 <= |s| && IsDigit(s[0]) && IsDigit(s[1]) && IsDigit(s[2]) && IsDigit(s[3])
    ensures AllDigits(s[0..4])
    ensures Value(s[0..4]) == 1000 * DigitValue(s[0]) + 100 * DigitValue(s[1]) + 10 * DigitValue(s[2]) + DigitValue(s[3])
  {
    assert s[0..4] == [s[0], s[1], s[2], s[3]];
    ValueOfFour(s[0..4]);
  }

  /** A two-digit field, digit by digit. */
  lemma PadTwoDigits(n: nat)
    requires n < 100
    ensures Pad(n, 2) == [DigitChar(n / 10), DigitChar(n % 10)]
  {
    assert Pad(n / 10, 1) == [DigitChar(n / 10 % 10)];
  }

  /** The value of a two-digit field, digit by digit. */
  lemma ValueOfTwo(s: string)
    requires |s| == 2 && AllDigits(s)
    ensures Value(s) == 10 * DigitValue(s[0]) + DigitValue(s[1])
  {
    assert s[..1][..0] == [];
  }

  /** The value of a four-digit field, digit by digit. */
  lemma ValueOfFour(s: string)
    requires |s| == 4 && AllDigits(s)
    ensures Value(s) == 1000 * DigitValue(s[0]) + 100 * DigitValue(s[1]) + 10 * DigitValue(s[2]) + DigitValue(s[3])
  {
    assert s[..3][..2] == s[..2];
    ValueOfTwo(s[..2]);
  }
}
