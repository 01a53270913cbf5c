/** String formatting used by the messages of the core: `%d` of a `Long` and `UUID.toString()`. */
module Format {

  /** The ASCII digit for `d`. */
  function DigitChar(d: nat): (c: char)
    requires d < 10
    ensures '0' <= c <= '9'
    ensures (c as int) - ('0' as int) == d
  {
    (('0' as int) + d) as char
  }

  /** Decimal digits of a natural number, most significant first, without leading zeros. */
  function NatDecimal(n: nat): (s: string)
    ensures 1 <= |s|
    ensures forall i :: 0 <= i < |s| ==> '0' <= s[i] <= '9'
    ensures |s| > 1 ==> s[0] != '0'
    decreases n
  {
    if n < 10 then [DigitChar(n)] else NatDecimal(n / 10) + [DigitChar(n % 10)]
  }

  /** The value of a string of decimal digits, most significant first. */
  function DigitsValue(s: string): nat
    requires forall i :: 0 <= i < |s| ==> '0' <= s[i] <= '9'
    decreases |s|
  {
    if s == [] then 0
    else DigitsValue(s[..|s| - 1]) * 10 + ((s[|s| - 1] as int) - ('0' as int))
  }

  /** Reading the digits back gives the number: the decimal text is faithful. */
  lemma {:induction false} NatDecimalRoundTrip(n: nat)
    ensures DigitsValue(NatDecimal(n)) == n
    decreases n
  {
    if n >= 10 {
      LastDigitSplits(n);
      NatDecimalRoundTrip(n / 10);
    }
  }

  /** The text of a number of two or more digits is the text of its tenth, then its last digit. */
  lemma LastDigitSplits(n: nat)
    requires n >= 10
    ensures var s := NatDecimal(n);
            && s[..|s| - 1] == NatDecimal(n / 10)
            && s[|s| - 1] == DigitChar(n % 10)
  {
    var s := NatDecimal(n);
    assert s == NatDecimal(n / 10) + [DigitChar(n % 10)];
  }

  /** `String.format("%d", n)`: a leading minus sign for negative values. */
  function Decimal(n: int): (s: string)
    ensures 1 <= |s|
    ensures n < 0 <==> s[0] == '-'
  {
    if n < 0 then "-" + NatDecimal(-n) else NatDecimal(n)
  }

  /** The value of an optionally minus-signed string of decimal digits. */
  function SignedValue(s: string): int
    requires |s| >= 1
    requires forall i :: 1 <= i < |s| ==> '0' <= s[i] <= '9'
    requires s[0] == '-' || '0' <= s[0] <= '9'
  {
    if s[0] == '-' then 0 - DigitsValue(s[1..]) else DigitsValue(s)
  }

  /** Reading `%d` back gives the number, negative values included. */
  lemma DecimalRoundTrip(n: int)
    ensures SignedValue(Decimal(n)) == n
  {
    if n < 0 {
      var digits := NatDecimal(-n);
      NatDecimalRoundTrip(-n);
      assert ("-" + digits)[1..] == digits;
    } else {
      NatDecimalRoundTrip(n);
    }
  }

  function HexChar(d: nat): char
    requires d < 16
  {
    "0123456789abcdef"[d]
  }

  /** The `width` least significant hexadecimal digits of `n`, most significant first, zero-padded. */
  function HexDigits(n: nat, width: nat): (s: string)
    ensures |s| == width
    ensures forall i :: 0 <= i < |s| ==> s[i] in "0123456789abcdef"
  {
    if width == 0 then [] else HexDigits(n / 16, width - 1) + [HexChar(n % 16)]
  }

  /** `UUID.toString()`: 32 lower-case hex digits grouped 8-4-4-4-12. */
  function UuidText(value: nat): (s: string)
    ensures |s| == 36
    ensures s[8] == s[13] == s[18] == s[23] == '-'
  {
    var d := HexDigits(value, 32);
    d[..8] + "-" + d[8..12] + "-" + d[12..16] + "-" + d[16..20] + "-" + d[20..]
  }
}
