/** Identifiers in hexadecimal. */
module Hexadecimal {
  import opened Base

  function Power16(n: nat): (p: nat)
    ensures p >= 1
  {
    if n == 0 then 1 else 16 * Power16(n - 1)
  }

  /** A 128-bit identifier. */
  predicate IsUuid(n: nat) {
    n < Power16(32)
  }

  function HexDigit(d: nat): (c: char)
    requires d < 16
    ensures '0' <= c <= '9' || 'a' <= c <= 'f'
  {
    if d < 10 then ('0' as int + d) as char else ('a' as int + d - 10) as char
  }

  function HexDigitValue(c: char): (d: int)
    ensures -1 <= d < 16
  {
    if '0' <= c <= '9' then c as int - '0' as int
    else if 'a' <= c <= 'f' then c as int - 'a' as int + 10
    else if 'A' <= c <= 'F' then c as int - 'A' as int + 10
    else -1
  }

  function Hex(n: nat, width: nat): (s: string)
    ensures |s| == width
    ensures forall i :: 0 <= i < |s| ==> '0' <= s[i] <= '9' || 'a' <= s[i] <= 'f'
  {
    if width == 0 then "" else Hex(n / 16, width - 1) + [HexDigit(n % 16)]
  }

  function HexValue(s: string): Option<nat> {
    if s == "" then Some(0)
    else
      var front, d := HexValue(s[..|s| - 1]), HexDigitValue(s[|s| - 1]);
      if front.None? || d < 0 then None else Some(16 * front.value + d)
  }

  lemma {:induction false} HexRoundTrip(n: nat, width: nat)
    requires n < Power16(width)
    ensures HexValue(Hex(n, width)) == Some(n)
  {
    if width > 0 {
      HexRoundTrip(n / 16, width - 1);
      assert Hex(n, width)[..width - 1] == Hex(n / 16, width - 1);
    }
  }

  /** An identifier as the program prints it: 32 digits in five groups. */
  function UuidText(n: nat): string {
    var h := Hex(n, 32);
    h[..8] + "-" + h[8..12] + "-" + h[12..16] + "-" + h[16..20] + "-" + h[20..]
  }

  function Digits(text: string): string
    requires |text| == 36
  {
    text[..8] + text[9..13] + text[14..18] + text[19..23] + text[24..]
  }

  lemma DigitsOfUuidText(n: nat)
    ensures |UuidText(n)| == 36 && Digits(UuidText(n)) == Hex(n, 32)
  {
    var h, text := Hex(n, 32), UuidText(n);
    assert text[9..13] == h[8..12] && text[14..18] == h[12..16] && text[19..23] == h[16..20] && text[24..] == h[20..];
  }

  /** No two identifiers print alike. */
  lemma UuidTextIsInjective(m: nat, n: nat)
    requires IsUuid(m) && IsUuid(n) && UuidText(m) == UuidText(n)
    ensures m == n
  {
    DigitsOfUuidText(m);
    DigitsOfUuidText(n);
    HexRoundTrip(m, 32);
    HexRoundTrip(n, 32);
  }
}
