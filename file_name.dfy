// The output file name "mandelbrot_" + to_string(scheme) + ".bmp".
module FileName {
  const Prefix := "mandelbrot_"
  const Suffix := ".bmp"

  predicate IsDigit(ch: char)
  {
    '0' <= ch <= '9'
  }

  function DigitChar(d: nat): (ch: char)
    requires d < 10
    ensures IsDigit(ch) && ch as int - '0' as int == d
  {
    ('0' as int + d) as char
  }

  /** Decimal digits of n, most significant first, without leading zeros. */
  function NatToDecimal(n: nat): (s: string)
    ensures |s| >= 1
    ensures forall k :: 0 <= k < |s| ==> IsDigit(s[k])
    ensures s[0] == '0' ==> n == 0
  {
    if n < 10 then [DigitChar(n)] else NatToDecimal(n / 10) + [DigitChar(n % 10)]
  }

  /** std::to_string of an int: a minus sign before the digits of a negative number. */
  function IntToDecimal(n: int): string
  {
    if n < 0 then "-" + NatToDecimal(-n) else NatToDecimal(n)
  }

  /** The value of a string of decimal digits. */
  function DecimalValue(s: string): nat
    requires forall k :: 0 <= k < |s| ==> IsDigit(s[k])
  {
    if s == [] then 0
    else
      var last := s[|s| - 1];
      assert IsDigit(last);
      10 * DecimalValue(s[..|s| - 1]) + (last as int - '0' as int)
  }

  /** The value of an optionally signed decimal string. */
  function SignedDecimalValue(s: string): int
    requires s != []
    requires s[0] == '-' ==> forall k :: 1 <= k < |s| ==> IsDigit(s[k])
    requires s[0] != '-' ==> forall k :: 0 <= k < |s| ==> IsDigit(s[k])
  {
    if s[0] == '-' then -(DecimalValue(s[1..]) as int) else DecimalValue(s)
  }

  /** Reading the digits back gives the number. */
  lemma {:induction false} NatToDecimalValue(n: nat)
    ensures DecimalValue(NatToDecimal(n)) == n
  {
    if n >= 10 {
      var s := NatToDecimal(n);
      assert s[..|s| - 1] == NatToDecimal(n / 10);
      NatToDecimalValue(n / 10);
    }
  }

  /** to_string is undone by reading the string back, so it is injective. */
  lemma IntToDecimalValue(n: int)
    ensures IntToDecimal(n) != []
    ensures SignedDecimalValue(IntToDecimal(n)) == n
  {
    var s := IntToDecimal(n);
    if n < 0 {
      assert s[1..] == NatToDecimal(-n);
      NatToDecimalValue(-n);
    } else {
      NatToDecimalValue(n);
    }
  }

  /** The name of the file written under a colour scheme. */
  function Name(scheme: int): (s: string)
    ensures |s| > |Prefix| + |Suffix|
    ensures s[..|Prefix|] == Prefix && s[|s| - |Suffix|..] == Suffix
    ensures s[|Prefix|..|s| - |Suffix|] == IntToDecimal(scheme)
  {
    Prefix + IntToDecimal(scheme) + Suffix
  }

  /** Different schemes write to different files. */
  lemma NameInjective(a: int, b: int)
    requires Name(a) == Name(b)
    ensures a == b
  {
    IntToDecimalValue(a);
    IntToDecimalValue(b);
  }

  /** The names of the three schemes. */
  lemma SchemeNames()
    ensures Name(1) == "mandelbrot_1.bmp"
    ensures Name(2) == "mandelbrot_2.bmp"
    ensures Name(3) == "mandelbrot_3.bmp"
  {
  }
}
