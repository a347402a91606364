/** Decimal digits as the source's string formatting and date parsing use them:
    ASCII digits, zero-padded fields (`%Y`, `%m`, `%d`) and `str(n)` of a natural. */
module Digits {
  import Lex

  predicate IsDigit(c: char) {
    '0' <= c <= '9'
  }

  function DigitValue(c: char): (v: int)
    requires IsDigit(c)
    ensures 0 <= v <= 9
  {
    c as int - '0' as int
  }

  function DigitChar(v: int): (c: char)
    requires 0 <= v <= 9
    ensures IsDigit(c) && DigitValue(c) == v
  {
    (v + '0' as int) as char
  }

  lemma DigitRoundTrip(c: char)
    requires IsDigit(c)
    ensures DigitChar(DigitValue(c)) == c
  {
  }

  predicate AllDigits(s: string) {
    forall i :: 0 <= i < |s| ==> IsDigit(s[i])
  }

  /** The number a string of digits denotes, most significant digit first. */
  function Value(s: string): nat
    requires AllDigits(s)
  {
    if |s| == 0 then 0 else Value(s[..|s| - 1]) * 10 + DigitValue(s[|s| - 1])
  }

  function Pow10(n: nat): (p: nat)
    ensures p >= 1
  {
    if n == 0 then 1 else 10 * Pow10(n - 1)
  }

  /** The last `width` decimal digits of `x`, zero-padded on the left. */
  function Pad(x: nat, width: nat): (r: string)
    ensures |r| == width && AllDigits(r)
  {
    if width == 0 then [] else Pad(x / 10, width - 1) + [DigitChar(x % 10)]
  }

  /** Padding loses nothing of a number that fits the width. */
  lemma {:induction false} PadValue(x: nat, width: nat)
    requires x < Pow10(width)
    ensures Value(Pad(x, width)) == x
  {
    if width > 0 {
      PadValue(x / 10, width - 1);
      var r := Pad(x, width);
      assert r[..|r| - 1] == Pad(x / 10, width - 1);
    }
  }

  /** Zero-padded numbers of one width compare as strings as they compare as numbers. */
  lemma {:induction false} PadMonotone(x: nat, y: nat, width: nat)
    requires x < y < Pow10(width)
    ensures Lex.Less(Pad(x, width), Pad(y, width))
  {
    assert width > 0;
    if x / 10 < y / 10 {
      PadMonotone(x / 10, y / 10, width - 1);
      Lex.EqualLengthHead(Pad(x / 10, width - 1), Pad(y / 10, width - 1), [DigitChar(x % 10)], [DigitChar(y % 10)]);
    } else {
      assert [DigitChar(x % 10)][0] < [DigitChar(y % 10)][0];
      Lex.CommonPrefix(Pad(x / 10, width - 1), [DigitChar(x % 10)], [DigitChar(y % 10)]);
    }
  }

  /** `str(n)` for a natural number: no leading zero unless the number is zero. */
  function Decimal(n: nat): (r: string)
    ensures |r| >= 1 && AllDigits(r)
    ensures |r| > 1 ==> r[0] != '0'
  {
    if n < 10 then [DigitChar(n)] else Decimal(n / 10) + [DigitChar(n % 10)]
  }

  /** `str(n)` is read back as `n`. */
  lemma {:induction false} DecimalValue(n: nat)
    ensures Value(Decimal(n)) == n
  {
    if n >= 10 {
      DecimalValue(n / 10);
      var r := Decimal(n);
      assert r[..|r| - 1] == Decimal(n / 10);
    }
  }
}
