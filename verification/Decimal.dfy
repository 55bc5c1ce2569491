/** Integers of any size in decimal, as math/big prints and reads them. */
module Decimal {
  import opened Options

  function DigitChar(d: nat): char
    requires d < 10
  {
    "0123456789"[d]
  }

  predicate IsDigit(c: char) {
    '0' <= c <= '9'
  }

  function DigitValue(c: char): (d: nat)
    requires IsDigit(c)
    ensures d < 10
  {
    c as int - '0' as int
  }

  function PrintNat(n: nat): (s: string)
    ensures s != []
  {
    if n < 10 then [DigitChar(n)] else PrintNat(n / 10) + [DigitChar(n % 10)]
  }

  /** `-` signed, no `+`, no leading zeros. */
  function Print(n: int): string {
    if n < 0 then "-" + PrintNat(-n) else PrintNat(n)
  }

  predicate AllDigits(s: string) {
    s != [] && forall i | 0 <= i < |s| :: IsDigit(s[i])
  }

  function ParseNat(s: string): nat
    requires AllDigits(s)
  {
    var last := DigitValue(s[|s| - 1]);
    if |s| == 1 then last else 10 * ParseNat(s[..|s| - 1]) + last
  }

  /** An optional sign, then decimal digits; leading zeros and a `+` are read. */
  function Parse(s: string): Option<int> {
    var signed := s != [] && (s[0] == '-' || s[0] == '+');
    var digits := if signed then s[1..] else s;
    if !AllDigits(digits) then None
    else if signed && s[0] == '-' then Some(-(ParseNat(digits) as int))
    else Some(ParseNat(digits))
  }

  lemma {:induction false} ParsePrintNat(n: nat)
    ensures AllDigits(PrintNat(n)) && ParseNat(PrintNat(n)) == n
  {
    if n >= 10 {
      ParsePrintNat(n / 10);
      var s := PrintNat(n);
      assert s[..|s| - 1] == PrintNat(n / 10);
      DigitRoundTrip(n % 10);
    } else {
      DigitRoundTrip(n);
    }
  }

  lemma {:induction false} DigitRoundTrip(d: nat)
    requires d < 10
    ensures IsDigit(DigitChar(d)) && DigitValue(DigitChar(d)) == d
  {
  }

  /** Printing loses no integer. */
  lemma {:induction false} ParsePrint(n: int)
    ensures Parse(Print(n)) == Some(n)
  {
    var digits := PrintNat(if n < 0 then -n else n);
    ParsePrintNat(if n < 0 then -n else n);
    if n < 0 {
      assert Print(n) == "-" + digits;
      ParseMinus(digits, -n);
    } else {
      assert Print(n) == digits;
      ParseDigits(digits, n);
    }
  }

  lemma {:induction false} ParseMinus(digits: string, n: nat)
    requires AllDigits(digits) && ParseNat(digits) == n
    ensures Parse("-" + digits).Some? && Parse("-" + digits).value == -(n as int)
  {
    assert ("-" + digits)[0] == '-' && ("-" + digits)[1..] == digits;
  }

  lemma {:induction false} ParseDigits(digits: string, n: nat)
    requires AllDigits(digits) && ParseNat(digits) == n
    ensures Parse(digits) == Some(n)
  {
    assert IsDigit(digits[0]);
  }
}
