/**
 * Decimal integer text as Go's `strconv` reads it: `Atoi` (signed, 64-bit
 * `int`) and `ParseUint(s, 10, 32)`, together with the decimal rendering
 * they invert.
 */
module Decimal {
  import opened Wrappers

  const Int64Min: int := -0x8000_0000_0000_0000
  const Int64Max: int := 0x7FFF_FFFF_FFFF_FFFF
  const Uint32Max: int := 0xFFFF_FFFF

  predicate IsDigit(c: char) {
    '0' <= c <= '9'
  }

  predicate AllDigits(s: string) {
    forall k :: 0 <= k < |s| ==> IsDigit(s[k])
  }

  function DigitChar(d: nat): (c: char)
    requires d < 10
    ensures IsDigit(c) && c as int - '0' as int == d
  {
    ('0' as int + d) as char
  }

  /** The value of a string of decimal digits, most significant first. */
  function DigitsValue(s: string): nat
    requires AllDigits(s)
    decreases |s|
  {
    if |s| == 0 then 0 else 10 * DigitsValue(s[..|s| - 1]) + (s[|s| - 1] as int - '0' as int)
  }

  /** Shortest decimal rendering of a natural number (Go's `strconv.Itoa` for n >= 0). */
  function Show(n: nat): (s: string)
    ensures |s| >= 1 && AllDigits(s)
    ensures |s| > 1 ==> s[0] != '0'
  {
    if n < 10 then [DigitChar(n)] else Show(n / 10) + [DigitChar(n % 10)]
  }

  /** Reading back a rendering gives the number. */
  lemma {:induction false} ShowValue(n: nat)
    ensures DigitsValue(Show(n)) == n
  {
    if n >= 10 {
      var s := Show(n);
      assert s[..|s| - 1] == Show(n / 10);
      ShowValue(n / 10);
    }
  }

  /** The sign-free part of a numeral: one leading '+' or '-' is skipped. */
  function Unsigned(s: string): string
  {
    if |s| > 0 && (s[0] == '+' || s[0] == '-') then s[1..] else s
  }

  /** Go's `strconv.Atoi` on a 64-bit platform: an optional sign, at least one digit, in range. */
  function Atoi(s: string): (r: Option<int>)
    ensures r.Some? ==> |Unsigned(s)| > 0 && AllDigits(Unsigned(s))
    ensures r.Some? ==> Int64Min <= r.value <= Int64Max
    ensures |Unsigned(s)| == 0 || !AllDigits(Unsigned(s)) ==> r.None?
    ensures r.Some? <==>
      && |Unsigned(s)| > 0 && AllDigits(Unsigned(s))
      && DigitsValue(Unsigned(s)) <= (if s[0] == '-' then -Int64Min else Int64Max)
    ensures r.Some? ==> r.value == if s[0] == '-' then -(DigitsValue(Unsigned(s)) as int) else DigitsValue(Unsigned(s))
  {
    var digits := Unsigned(s);
    if |digits| == 0 || !AllDigits(digits) then None
    else
      var magnitude: int := DigitsValue(digits);
      var v := if s[0] == '-' then -magnitude else magnitude;
      if Int64Min <= v <= Int64Max then Some(v) else None
  }

  /** `Atoi` reads back every in-range rendering, with or without a sign. */
  lemma AtoiShow(n: nat)
    requires n <= Int64Max
    ensures Atoi(Show(n)) == Some(n)
    ensures Atoi("+" + Show(n)) == Some(n)
    ensures Atoi("-" + Show(n)) == Some(-(n as int))
  {
    ShowValue(n);
    assert Unsigned("+" + Show(n)) == Show(n);
    assert Unsigned("-" + Show(n)) == Show(n);
  }

  /** A leading zero does not change the value of a digit string. */
  lemma {:induction false} LeadingZeroValue(s: string)
    requires AllDigits(s)
    ensures AllDigits("0" + s) && DigitsValue("0" + s) == DigitsValue(s)
  {
    var t := "0" + s;
    assert AllDigits(t) by {
      forall k | 0 <= k < |t|
        ensures IsDigit(t[k])
      {
        if k > 0 {
          assert t[k] == s[k - 1];
        }
      }
    }
    if |s| > 0 {
      assert t[..|t| - 1] == "0" + s[..|s| - 1];
      LeadingZeroValue(s[..|s| - 1]);
    }
  }

  /** `Atoi` accepts leading zeros: `"007"` reads as 7, and `"-0"` as 0. */
  lemma AtoiLeadingZero(n: nat)
    requires n <= Int64Max
    ensures Atoi("0" + Show(n)) == Some(n)
    ensures Atoi("-0" + Show(n)) == Some(-(n as int))
  {
    ShowValue(n);
    LeadingZeroValue(Show(n));
    assert Unsigned("0" + Show(n)) == "0" + Show(n);
    assert Unsigned("-0" + Show(n)) == "0" + Show(n);
  }

  /** Go's `strconv.ParseUint(s, 10, 32)`: digits only, no sign, below 2^32. */
  function ParseUint32(s: string): (r: Option<nat>)
    ensures r.Some? ==> |s| > 0 && AllDigits(s) && r.value <= Uint32Max
    ensures r.Some? <==> |s| > 0 && AllDigits(s) && DigitsValue(s) <= Uint32Max
  {
    if |s| == 0 || !AllDigits(s) then None
    else if DigitsValue(s) <= Uint32Max then Some(DigitsValue(s)) else None
  }

  /** `ParseUint32` reads back every 32-bit rendering. */
  lemma ParseUint32Show(n: nat)
    requires n <= Uint32Max
    ensures ParseUint32(Show(n)) == Some(n)
  {
    ShowValue(n);
  }
}
