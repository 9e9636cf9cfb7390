/**
 * Decimal text of 32-bit integers as the JVM renders and parses it:
 * `String.format("%d", n)` / `Integer.toString` and `Integer.valueOf(String)`.
 */
module Text {
  import opened Wrappers

  const INT_MIN: int := -0x8000_0000
  const INT_MAX: int := 0x7FFF_FFFF

  predicate IsDigit(c: char) {
    '0' <= c <= '9'
  }

  predicate AllDigits(s: string) {
    forall i :: 0 <= i < |s| ==> IsDigit(s[i])
  }

  function DigitChar(d: nat): (c: char)
    requires d < 10
    ensures IsDigit(c)
  {
    (d + '0' as int) as char
  }

  function DigitValue(c: char): (d: nat)
    requires IsDigit(c)
    ensures d < 10
  {
    c as int - '0' as int
  }

  /** The decimal digits of `n`, most significant first, without leading zeros. */
  function NatToString(n: nat): (s: string)
    ensures |s| > 0 && AllDigits(s)
    decreases n
  {
    if n < 10 then [DigitChar(n)] else NatToString(n / 10) + [DigitChar(n % 10)]
  }

  /** `%d` formatting: a minus sign for negative values, then the digits of the magnitude. */
  function IntToString(i: int): string {
    if i < 0 then "-" + NatToString(-i) else NatToString(i)
  }

  /** The value of a string of decimal digits (the empty string has value 0). */
  function DigitsValue(s: string): nat
    requires AllDigits(s)
    decreases |s|
  {
    if s == [] then 0 else DigitsValue(s[..|s| - 1]) * 10 + DigitValue(s[|s| - 1])
  }

  /**
   * `Integer.valueOf(s)` in radix 10: an optional `-` or `+`, then at least one
   * digit, and a value that fits in 32 bits; anything else is a
   * NumberFormatException, here `None`.
   */
  function ParseInt(s: string): (r: Option<int>)
    ensures r.Some? ==> INT_MIN <= r.value <= INT_MAX
    ensures r.Some? ==> |s| > 0 && (IsDigit(s[0]) || s[0] == '-' || s[0] == '+')
    ensures r.Some? ==>
              && |Unsigned(s)| > 0 && AllDigits(Unsigned(s))
              && r.value == (if s[0] == '-' then -1 else 1) * DigitsValue(Unsigned(s))
    ensures |Unsigned(s)| > 0 && AllDigits(Unsigned(s)) ==>
              (r.Some? <==> DigitsValue(Unsigned(s)) <= (if s[0] == '-' then -INT_MIN else INT_MAX))
  {
    var digits := Unsigned(s);
    if |digits| == 0 || !AllDigits(digits) then None
    else
      var m: int := DigitsValue(digits);
      var v := if s[0] == '-' then -m else m;
      if INT_MIN <= v <= INT_MAX then Some(v) else None
  }

  /** The text after an optional leading `-` or `+`. */
  function Unsigned(s: string): (d: string)
    ensures d == s || (|s| > 0 && (s[0] == '-' || s[0] == '+') && d == s[1..])
  {
    if |s| > 0 && (s[0] == '-' || s[0] == '+') then s[1..] else s
  }

  lemma {:induction false} NatToStringValue(n: nat)
    ensures DigitsValue(NatToString(n)) == n
    decreases n
  {
    if n >= 10 {
      var s := NatToString(n);
      NatToStringValue(n / 10);
      assert s[..|s| - 1] == NatToString(n / 10);
    }
  }

  /** Parsing what `%d` printed gives the number back, for every 32-bit value. */
  lemma ParseIntToString(i: int)
    requires INT_MIN <= i <= INT_MAX
    ensures ParseInt(IntToString(i)) == Some(i)
  {
    var s := IntToString(i);
    if i < 0 {
      NatToStringValue(-i);
      assert s[1..] == NatToString(-i);
    } else {
      NatToStringValue(i);
      assert IsDigit(s[0]);
    }
  }

  /** `%d` output never contains a colon, so it is one field of a `host:port` string. */
  lemma IntToStringHasNoColon(i: int)
    ensures ':' !in IntToString(i)
  {
    var s := IntToString(i);
    if i < 0 {
      assert forall k :: 1 <= k < |s| ==> s[k] == NatToString(-i)[k - 1];
    }
  }
}
