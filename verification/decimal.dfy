/** Decimal numerals as the program reads and prints them. */
module Decimal {

  /** Code points of the digit zero in every decimal-digit block beyond ASCII;
      each block holds its ten digits in order. */
  const WIDE_ZEROS: seq<int> := [
    0x660, 0x6F0, 0x7C0, 0x966, 0x9E6, 0xA66, 0xAE6, 0xB66, 0xBE6, 0xC66, 0xCE6, 0xD66, 0xDE6,
    0xE50, 0xED0, 0xF20, 0x1040, 0x1090, 0x17E0, 0x1810, 0x1946, 0x19D0, 0x1A80, 0x1A90, 0x1B50,
    0x1BB0, 0x1C40, 0x1C50, 0xA620, 0xA8D0, 0xA900, 0xA9D0, 0xA9F0, 0xAA50, 0xABF0, 0xFF10,
    0x104A0, 0x10D30, 0x11066, 0x110F0, 0x11136, 0x111D0, 0x112F0, 0x11450, 0x114D0, 0x11650,
    0x116C0, 0x11730, 0x118E0, 0x11950, 0x11C50, 0x11D50, 0x11DA0, 0x16A60, 0x16AC0, 0x16B50,
    0x1D7CE, 0x1D7D8, 0x1D7E2, 0x1D7EC, 0x1D7F6, 0x1E140, 0x1E2F0, 0x1E950, 0x1FBF0
  ]

  /** The value of a decimal digit, or -1.  Both the digit class of a text pattern
      and integer parsing accept the digits of every script. */
  function DigitValue(c: char): (d: int)
    ensures -1 <= d <= 9
  {
    if '0' <= c <= '9' then c as int - '0' as int
    else if c as int < 0x80 then -1
    else WideDigit(c as int, WIDE_ZEROS)
  }

  function WideDigit(code: int, zeros: seq<int>): (d: int)
    ensures -1 <= d <= 9
  {
    if zeros == [] then -1
    else if zeros[0] <= code < zeros[0] + 10 then code - zeros[0]
    else WideDigit(code, zeros[1..])
  }

  predicate IsDigit(c: char) {
    DigitValue(c) >= 0
  }

  predicate AllDigits(s: string) {
    forall i :: 0 <= i < |s| ==> IsDigit(s[i])
  }

  /** The number a run of digits denotes. */
  function ValueOf(s: string): (v: nat)
    requires AllDigits(s)
  {
    if s == [] then 0 else 10 * ValueOf(s[..|s| - 1]) + DigitValue(s[|s| - 1])
  }

  function Print(n: nat): (s: string)
    ensures |s| > 0
    ensures forall i :: 0 <= i < |s| ==> '0' <= s[i] <= '9'
  {
    var last := [('0' as int + n % 10) as char];
    if n < 10 then last else Print(n / 10) + last
  }

  /** Reading back a printed number gives the number. */
  lemma {:induction false} PrintedValue(n: nat)
    ensures AllDigits(Print(n)) && ValueOf(Print(n)) == n
  {
    var s := Print(n);
    if n < 10 {
      assert s[..0] == [];
    } else {
      PrintedValue(n / 10);
      assert s[..|s| - 1] == Print(n / 10);
    }
  }
}
