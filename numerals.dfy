/** Decimal text of integers in both directions: `fmt::format("{}", v)` used by
    the code generator (ast.h:60-65) and `std::stoi` used by the number parser
    (compiler.hpp:34). */
module Numerals {

  predicate IsDigit(c: char)
  {
    '0' <= c <= '9'
  }

  function DigitChar(d: nat): (c: char)
    requires d < 10
    ensures IsDigit(c) && c as int - '0' as int == d
  {
    ['0', '1', '2', '3', '4', '5', '6', '7', '8', '9'][d]
  }

  /** Decimal digits of a natural number, without leading zeros. */
  function NatToString(n: nat): (s: string)
    ensures s != [] && forall i :: 0 <= i < |s| ==> IsDigit(s[i])
    ensures |s| > 1 ==> s[0] != '0'
  {
    if n < 10 then [DigitChar(n)] else NatToString(n / 10) + [DigitChar(n % 10)]
  }

  /** `fmt::format("{}", v)` for an `int`: a minus sign before negative values. */
  function IntToString(v: int): (s: string)
    ensures s != []
    ensures v >= 0 ==> s == NatToString(v)
    ensures v < 0 ==> s == "-" + NatToString(-v)
    ensures v >= 0 ==> (forall i :: 0 <= i < |s| ==> IsDigit(s[i])) && DecimalValue(s) == v
    ensures v < 0 ==> |s| > 1 && s[0] == '-' && (forall i :: 1 <= i < |s| ==> IsDigit(s[i]))
                      && DecimalValue(s[1..]) == -v
  {
    if v < 0 then
      DecimalValueOfNatToString(-v);
      assert ("-" + NatToString(-v))[1..] == NatToString(-v);
      "-" + NatToString(-v)
    else
      DecimalValueOfNatToString(v);
      NatToString(v)
  }

  /** `std::stoi` on a run of decimal digits (leading zeros allowed), read as a
      mathematical integer. */
  function DecimalValue(s: string): (n: nat)
    requires forall i :: 0 <= i < |s| ==> IsDigit(s[i])
  {
    if s == [] then 0
    else
      assert IsDigit(s[|s| - 1]);
      DecimalValue(s[..|s| - 1]) * 10 + (s[|s| - 1] as int - '0' as int)
  }

  /** Printing a number and reading the text back gives the number. */
  lemma {:induction false} DecimalValueOfNatToString(n: nat)
    ensures DecimalValue(NatToString(n)) == n
  {
    if n >= 10 {
      var s := NatToString(n);
      assert s[..|s| - 1] == NatToString(n / 10);
      DecimalValueOfNatToString(n / 10);
    }
  }

  /** Leading zeros do not change the value `std::stoi` reads. */
  lemma {:induction false} DecimalValueLeadingZero(s: string)
    requires forall i :: 0 <= i < |s| ==> IsDigit(s[i])
    ensures DecimalValue("0" + s) == DecimalValue(s)
  {
    if s != [] {
      assert ("0" + s)[..|"0" + s| - 1] == "0" + s[..|s| - 1];
      DecimalValueLeadingZero(s[..|s| - 1]);
    }
  }
}
