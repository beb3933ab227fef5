/**
 Decimal rendering of natural numbers, as JavaScript's template literals do it
 (`${n}` for a non-negative integral number), the two-character zero padding
 the countdown display applies on top of it, and the parser that reads such a
 field back.
 */
module Decimal {
  import opened Optional

  predicate IsDigit(c: char) {
    '0' <= c <= '9'
  }

  predicate AllDigits(s: string) {
    forall i :: 0 <= i < |s| ==> IsDigit(s[i])
  }

  /** A decimal numeral with no superfluous leading zero: the only one of its value. */
  predicate Canonical(s: string) {
    && |s| >= 1
    && AllDigits(s)
    && (s[0] == '0' ==> |s| == 1)
  }

  function DigitValue(c: char): (d: nat)
    requires IsDigit(c)
    ensures d < 10
  {
    (c as int) - ('0' as int)
  }

  function DigitChar(d: nat): (c: char)
    requires d < 10
    ensures IsDigit(c) && DigitValue(c) == d
  {
    "0123456789"[d]
  }

  lemma DigitCharOfValue(c: char)
    requires IsDigit(c)
    ensures DigitChar(DigitValue(c)) == c
  {
  }

  /** The decimal form of `n`: what `${n}` produces for a non-negative integer. */
  function Show(n: nat): (s: string)
    ensures Canonical(s)
    ensures s[0] == '0' <==> n == 0
    ensures |s| == 1 <==> n < 10
    ensures |s| <= 2 <==> n < 100
    decreases n
  {
    if n < 10 then [DigitChar(n)] else Show(n / 10) + [DigitChar(n % 10)]
  }

  /** The number a string of digits denotes, most significant digit first. */
  function Value(s: string): nat
    requires AllDigits(s)
    decreases |s|
  {
    if s == [] then 0 else 10 * Value(s[..|s| - 1]) + DigitValue(s[|s| - 1])
  }

  /** Reads a non-empty string of digits, leading zeros allowed; anything else is refused. */
  function Parse(s: string): (r: Option<nat>)
    ensures r.Some? <==> |s| >= 1 && AllDigits(s)
  {
    if |s| >= 1 && AllDigits(s) then Some(Value(s)) else None
  }

  /** The countdown's field formatting: `n < 10 ? `0${n}` : `${n}``. */
  function Pad(n: nat): (s: string)
    ensures Parse(s) == Some(n)
    ensures |s| >= 2
    ensures |s| == 2 <==> n < 100
    ensures s[0] == '0' <==> n < 10
    ensures n < 10 ==> s[1..] == Show(n)
    ensures n >= 10 ==> Canonical(s)
  {
    ValueOfShow(n);
    if n < 10 then
      LeadingZero(Show(n));
      "0" + Show(n)
    else
      Show(n)
  }

  /** Reading back a rendered number gives the number. */
  lemma {:induction false} ValueOfShow(n: nat)
    ensures Value(Show(n)) == n
    decreases n
  {
    if n >= 10 {
      var s := Show(n);
      assert s[..|s| - 1] == Show(n / 10);
      ValueOfShow(n / 10);
    }
  }

  /** A leading zero does not change the value of a numeral. */
  lemma {:induction false} LeadingZero(s: string)
    requires AllDigits(s)
    ensures AllDigits("0" + s) && Value("0" + s) == Value(s)
    decreases |s|
  {
    var z := "0" + s;
    if s != [] {
      assert z[..|z| - 1] == "0" + s[..|s| - 1];
      LeadingZero(s[..|s| - 1]);
    }
  }

  /** A numeral that does not start with '0' denotes a positive number. */
  lemma {:induction false} ValuePositive(s: string)
    requires |s| >= 1 && AllDigits(s) && s[0] != '0'
    ensures Value(s) >= 1
    decreases |s|
  {
    if |s| > 1 {
      ValuePositive(s[..|s| - 1]);
    }
  }

  /** The other half of the round trip: a canonical numeral is the rendering of its value. */
  lemma {:induction false} ShowOfValue(s: string)
    requires Canonical(s)
    ensures Show(Value(s)) == s
    decreases |s|
  {
    var last := s[|s| - 1];
    DigitCharOfValue(last);
    if |s| > 1 {
      var p := s[..|s| - 1];
      ValuePositive(p);
      ShowOfValue(p);
      var v := Value(s);
      assert v / 10 == Value(p) && v % 10 == DigitValue(last);
      assert s == p + [last];
    }
  }

  /** Rendering is one-to-one, and Show and Parse are inverse on canonical numerals. */
  lemma ShowParseInverse(n: nat, s: string)
    ensures Parse(Show(n)) == Some(n)
    ensures Canonical(s) ==> (Parse(s) == Some(n) <==> Show(n) == s)
  {
    ValueOfShow(n);
    if Canonical(s) {
      ShowOfValue(s);
    }
  }
}
