/** Decimal text of Java ints: Integer.toString (what `key + "\n"` writes) and
    Integer.valueOf / Integer.parseInt in radix 10 (what reads a split line back). */
module Decimal {
  import opened Wrappers
  import opened Bytes

  /** The NumberFormatException that Integer.valueOf throws, with its input. */
  datatype NumberFormatError = NumberFormatError(input: string)

  predicate IsDigit(c: char)
  {
    '0' <= c <= '9'
  }

  predicate AllDigits(s: string)
  {
    forall i :: 0 <= i < |s| ==> IsDigit(s[i])
  }

  function DigitChar(d: nat): (c: char)
    requires d < 10
    ensures IsDigit(c) && c as int - '0' as int == d
  {
    ('0' as int + d) as char
  }

  /** The value of a string of decimal digits (leading zeros allowed). */
  function DigitsValue(s: string): nat
    requires AllDigits(s)
  {
    if s == [] then 0 else DigitsValue(s[..|s| - 1]) * 10 + (s[|s| - 1] as int - '0' as int)
  }

  /** The decimal digits of n, without leading zeros ("0" for zero). */
  function NatToString(n: nat): (s: string)
    ensures |s| > 0 && IsDigit(s[0])
  {
    if n < 10 then [DigitChar(n)] else NatToString(n / 10) + [DigitChar(n % 10)]
  }

  /** The digits of n are decimal digits worth n, with no leading zero unless n is 0. */
  lemma {:induction false} NatToStringMeaning(n: nat)
    ensures AllDigits(NatToString(n))
    ensures DigitsValue(NatToString(n)) == n
    ensures NatToString(n)[0] == '0' ==> NatToString(n) == "0"
  {
    if n >= 10 {
      NatToStringMeaning(n / 10);
      var s := NatToString(n);
      assert s[..|s| - 1] == NatToString(n / 10);
    }
  }

  /** Integer.toString(x): an optional minus sign, then the digits of |x|. */
  function IntToString(x: int): (s: string)
    ensures |s| > 0
    ensures x < 0 <==> s[0] == '-'
  {
    if x < 0 then "-" + NatToString(-x) else NatToString(x)
  }

  /** The text after an optional leading sign. */
  function Unsigned(s: string): string
  {
    if |s| > 0 && (s[0] == '-' || s[0] == '+') then s[1..] else s
  }

  /** The value of an optionally signed string of decimal digits. */
  function SignedValue(s: string): int
    requires AllDigits(Unsigned(s))
  {
    if |s| > 0 && s[0] == '-' then -(DigitsValue(Unsigned(s)) as int) else DigitsValue(Unsigned(s))
  }

  /** Integer.valueOf(s): an optional sign, then one or more digits, whose value
      must fit in an int; anything else is a NumberFormatException. */
  function ParseInt(s: string): (r: Result<Int32, NumberFormatError>)
    ensures s == [] ==> r.Err?
    ensures r.Ok? ==> |s| > 0 && (IsDigit(s[0]) || s[0] == '-' || s[0] == '+') && AllDigits(s[1..])
    ensures r.Ok? && r.value < 0 ==> s[0] == '-'
    ensures r.Err? ==> r.error.input == s
    ensures r.Ok? <==> |Unsigned(s)| > 0 && AllDigits(Unsigned(s))
                       && -0x8000_0000 <= SignedValue(s) < 0x8000_0000
    ensures r.Ok? ==> r.value == SignedValue(s)
  {
    if s == [] then Err(NumberFormatError(s))
    else
      var digits := if s[0] == '-' || s[0] == '+' then s[1..] else s;
      if digits == [] || !AllDigits(digits) then Err(NumberFormatError(s))
      else
        var v: int := if s[0] == '-' then -(DigitsValue(digits) as int) else DigitsValue(digits);
        if -0x8000_0000 <= v < 0x8000_0000 then Ok(v) else Err(NumberFormatError(s))
  }

  /** Every int printed by Integer.toString is parsed back to itself. */
  lemma ParseIntToString(x: Int32)
    ensures ParseInt(IntToString(x)) == Ok(x)
  {
    var s := IntToString(x);
    NatToStringMeaning(if x < 0 then -(x as int) else x as int);
    if x < 0 {
      assert s[1..] == NatToString(-(x as int));
    } else {
      assert IsDigit(s[0]);
    }
  }

  /** Integer.toString never yields the same text for two different ints. */
  lemma IntToStringInjective(x: Int32, y: Int32)
    requires IntToString(x) == IntToString(y)
    ensures x == y
  {
    ParseIntToString(x);
    ParseIntToString(y);
  }
}
