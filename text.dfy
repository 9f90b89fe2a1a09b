/**
 * The two string conversions the core relies on: `string.ToLower`, used to
 * match the sort field and the sort order, and the decimal rendering of an
 * `int` that string interpolation (`$"api/tarefa/{id}"`) performs.
 */
module Text {

  /** `char.ToLower` restricted to ASCII: only `A`..`Z` change. */
  function LowerChar(c: char): (r: char)
    ensures 'A' <= c <= 'Z' ==> r as int == c as int + 32
    ensures !('A' <= c <= 'Z') ==> r == c
  {
    if 'A' <= c <= 'Z' then (c as int + 32) as char else c
  }

  /** `string.ToLower` on ASCII text. */
  function ToLower(s: string): (r: string)
    ensures |r| == |s|
    ensures forall i :: 0 <= i < |s| ==> r[i] == LowerChar(s[i])
  {
    if s == [] then [] else [LowerChar(s[0])] + ToLower(s[1..])
  }

  function DigitChar(d: nat): (c: char)
    requires d < 10
    ensures '0' <= c <= '9' && c as int - '0' as int == d
  {
    ('0' as int + d) as char
  }

  /** The decimal digits of `n`, most significant first, without leading zeros. */
  function NatToString(n: nat): (r: string)
    ensures 1 <= |r|
    ensures forall i :: 0 <= i < |r| ==> '0' <= r[i] <= '9'
    ensures |r| > 1 ==> r[0] != '0'
    decreases n
  {
    if n < 10 then [DigitChar(n)] else NatToString(n / 10) + [DigitChar(n % 10)]
  }

  /** `int.ToString()` in the invariant culture: a minus sign, then the digits of the magnitude. */
  function IntToString(n: int): (r: string)
    ensures 1 <= |r|
    ensures n < 0 <==> r[0] == '-'
  {
    if n < 0 then "-" + NatToString(-n) else NatToString(n)
  }

  /** The value of a string of decimal digits; the reading that route binding gives `{id}`. */
  function DigitsValue(s: string): nat
    requires forall i :: 0 <= i < |s| ==> '0' <= s[i] <= '9'
  {
    if s == [] then 0
    else 10 * DigitsValue(s[..|s| - 1]) + (s[|s| - 1] as int - '0' as int)
  }

  function ParseInt(s: string): Parsed
    requires 1 <= |s|
  {
    if s[0] == '-' then
      if 2 <= |s| && forall i :: 1 <= i < |s| ==> '0' <= s[i] <= '9'
      then Value(-(DigitsValue(s[1..]) as int)) else Invalid
    else if forall i :: 0 <= i < |s| ==> '0' <= s[i] <= '9'
    then Value(DigitsValue(s)) else Invalid
  }

  datatype Parsed = Invalid | Value(n: int)

  lemma {:induction false} NatToStringRoundTrip(n: nat)
    ensures DigitsValue(NatToString(n)) == n
    decreases n
  {
    var s := NatToString(n);
    if n >= 10 {
      NatToStringRoundTrip(n / 10);
      assert s[..|s| - 1] == NatToString(n / 10);
    }
  }

  lemma NegativeRoundTrip(m: nat)
    requires m > 0
    ensures ParseInt("-" + NatToString(m)) == Value(-(m as int))
  {
    var d := NatToString(m);
    var s := "-" + d;
    assert s[1..] == d;
    forall i | 1 <= i < |s| ensures '0' <= s[i] <= '9' {
      assert s[i] == d[i - 1];
    }
    NatToStringRoundTrip(m);
  }

  lemma NonNegativeRoundTrip(n: nat)
    ensures ParseInt(NatToString(n)) == Value(n)
  {
    NatToStringRoundTrip(n);
  }

  /** Reading back the decimal rendering of an id gives the id. */
  lemma IntToStringRoundTrip(n: int)
    ensures ParseInt(IntToString(n)) == Value(n)
  {
    if n < 0 {
      NegativeRoundTrip(-n);
    } else {
      NonNegativeRoundTrip(n);
    }
  }

  /** Distinct ids render as distinct strings. */
  lemma IntToStringInjective(m: int, n: int)
    requires IntToString(m) == IntToString(n)
    ensures m == n
  {
    IntToStringRoundTrip(m);
    IntToStringRoundTrip(n);
  }
}
