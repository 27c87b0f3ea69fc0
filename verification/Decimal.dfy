/** Decimal numbers as the messages carry them: printed by the formats "%d" and
    "%hu", read back by strtol and stored in an int or in a port. */
module Decimal {
  import opened Words

  predicate IsDigit(c: char) {
    '0' <= c <= '9'
  }

  function DigitOf(n: nat): (c: char)
    requires n < 10
    ensures IsDigit(c)
  {
    '0' + (n as char)
  }

  function ValueOf(c: char): (n: nat)
    requires IsDigit(c)
    ensures n < 10
  {
    (c - '0') as nat
  }

  function Digits(n: nat): (s: string)
    ensures s != [] && forall i | 0 <= i < |s| :: IsDigit(s[i])
  {
    if n < 10 then [DigitOf(n)] else Digits(n / 10) + [DigitOf(n % 10)]
  }

  function Print(n: int): string {
    if n < 0 then "-" + Digits(-n) else Digits(n)
  }

  // ----- strtol -------------------------------------------------------------

  const LONG_MAX := 0x7fff_ffff_ffff_ffff
  const LONG_MIN := -0x8000_0000_0000_0000

  /** The value of the leading digits. */
  function Leading(s: string, value: nat): nat {
    if s == "" || !IsDigit(s[0]) then value else Leading(s[1..], 10 * value + ValueOf(s[0]))
  }

  predicate IsSpace(c: char) {
    c in {' ', '\t', '\n', '\r', 11 as char, 12 as char}
  }

  function Clamp(x: int): int {
    if x > LONG_MAX then LONG_MAX else if x < LONG_MIN then LONG_MIN else x
  }

  function Strtol(s: string): int {
    if s != "" && IsSpace(s[0]) then Strtol(s[1..])
    else if s != "" && s[0] == '-' then (var v: int := Leading(s[1..], 0); Clamp(-v))
    else if s != "" && s[0] == '+' then Clamp(Leading(s[1..], 0))
    else Clamp(Leading(s, 0))
  }

  type uint16 = x: int | 0 <= x < 0x1_0000

  function ToInt(s: string): int32 {
    Wrap(Strtol(s))
  }

  function ToPort(s: string): uint16 {
    Strtol(s) % 0x1_0000
  }

  // ----- round trips --------------------------------------------------------

  lemma {:induction false} LeadingSnoc(s: string, c: char, value: nat)
    requires IsDigit(c) && forall i | 0 <= i < |s| :: IsDigit(s[i])
    ensures Leading(s + [c], value) == 10 * Leading(s, value) + ValueOf(c)
    decreases |s|
  {
    if s == "" {
      assert (s + [c])[1..] == "";
    } else {
      assert (s + [c])[1..] == s[1..] + [c];
      LeadingSnoc(s[1..], c, 10 * value + ValueOf(s[0]));
    }
  }

  lemma {:induction false} DigitsReadBack(n: nat)
    ensures Leading(Digits(n), 0) == n
  {
    if n < 10 {
      assert Digits(n)[1..] == "";
    } else {
      DigitsReadBack(n / 10);
      LeadingSnoc(Digits(n / 10), DigitOf(n % 10), 0);
    }
  }

  lemma PrintReadBack(n: int)
    ensures Strtol(Print(n)) == Clamp(n)
  {
    if n < 0 {
      DigitsReadBack(-n);
      assert Print(n)[1..] == Digits(-n);
    } else {
      DigitsReadBack(n);
      assert IsDigit(Digits(n)[0]);
    }
  }

  /** Every 32-bit integer survives printing and reading. */
  lemma IntRoundTrip(n: int32)
    ensures ToInt(Print(n)) == n
  {
    PrintReadBack(n);
  }

  lemma PortRoundTrip(n: uint16)
    ensures ToPort(Print(n)) == n
  {
    PrintReadBack(n);
  }
}
