/**
 * Decimal rendering of integers, standing for the `sprintf(buf, "%d", x)` calls that
 * record factory defaults as strings, together with the parser that reads them back.
 */
module Decimal {
  import opened Wrappers

  predicate IsDigit(c: char) {
    '0' <= c <= '9'
  }

  predicate AllDigits(s: string) {
    forall i :: 0 <= i < |s| ==> IsDigit(s[i])
  }

  function DigitChar(d: nat): (c: char)
    requires d < 10
    ensures IsDigit(c)
  {
    ('0' as int + d) as char
  }

  function DigitValue(c: char): (d: nat)
    requires IsDigit(c)
    ensures d < 10
  {
    c as int - '0' as int
  }

  /** The shortest decimal spelling of n: no leading zeros, at least one digit. */
  function Digits(n: nat): (s: string)
    ensures 1 <= |s|
    ensures AllDigits(s)
    ensures 1 < |s| ==> s[0] != '0'
    decreases n
  {
    if n < 10 then [DigitChar(n)] else Digits(n / 10) + [DigitChar(n % 10)]
  }

  predicate IsInt32(x: int) {
    -0x8000_0000 <= x < 0x8000_0000
  }

  /**
   * `(int) x` for a 64-bit x, as the cast before each `%d` does: the low 32 bits read
   * as a two's-complement number.
   */
  function Int32Of(x: int): (y: int)
    ensures IsInt32(y)
    ensures (y - x) % 0x1_0000_0000 == 0
    ensures IsInt32(x) ==> y == x
  {
    var m := x % 0x1_0000_0000;
    if m < 0x8000_0000 then m else m - 0x1_0000_0000
  }

  /** What `%d` prints for x: a minus sign for negative values, then the digits. */
  function FormatInt(x: int): (s: string)
    ensures 1 <= |s|
    ensures x >= 0 <==> AllDigits(s)
  {
    if x < 0 then
      var s := "-" + Digits(-x);
      assert !IsDigit(s[0]);
      s
    else Digits(x)
  }

  function ParseDigits(s: string): nat
    requires AllDigits(s)
    decreases |s|
  {
    if |s| == 0 then 0 else ParseDigits(s[..|s| - 1]) * 10 + DigitValue(s[|s| - 1])
  }

  /** Reads back an optionally negative decimal; anything else is None. */
  function ParseInt(s: string): Option<int> {
    if 0 < |s| && AllDigits(s) then Some(ParseDigits(s))
    else if 1 < |s| && s[0] == '-' && AllDigits(s[1..]) then Some(0 - ParseDigits(s[1..]) as int)
    else None
  }

  lemma {:induction false} ParseDigitsOfDigits(n: nat)
    ensures ParseDigits(Digits(n)) == n
    decreases n
  {
    if n >= 10 {
      var s := Digits(n);
      assert s[..|s| - 1] == Digits(n / 10);
      ParseDigitsOfDigits(n / 10);
    }
  }

  /** The rendering loses nothing: parsing what `%d` prints gives the number back. */
  lemma FormatIntRoundTrip(x: int)
    ensures ParseInt(FormatInt(x)) == Some(x)
  {
    if x < 0 {
      var s := FormatInt(x);
      assert !IsDigit(s[0]);
      assert s[1..] == Digits(-x);
      ParseDigitsOfDigits(-x);
    } else {
      ParseDigitsOfDigits(x);
    }
  }
}
