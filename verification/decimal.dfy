/**
 Decimal rendering of an unsigned integer as Rust's `{}` formatting prints
 it (no sign, no leading zeros), with its inverse.
 */
module Decimal {

  predicate IsDigit(c: char) {
    '0' <= c <= '9'
  }

  predicate AllDigits(s: string) {
    forall i :: 0 <= i < |s| ==> IsDigit(s[i])
  }

  /** Non-empty, digits only, and no leading zero unless the number is zero. */
  predicate IsCanonical(s: string) {
    |s| > 0 && AllDigits(s) && (s[0] == '0' ==> |s| == 1)
  }

  function DigitChar(d: nat): (c: char)
    requires d < 10
    ensures IsDigit(c)
  {
    ('0' as int + d) as char
  }

  function DigitValue(c: char): (d: nat)
    requires IsDigit(c)
    ensures d < 10 && DigitChar(d) == c
  {
    c as int - '0' as int
  }

  /** The decimal text of `n`. */
  function FromNat(n: nat): (s: string)
    ensures IsCanonical(s)
    ensures s == "0" <==> n == 0
    decreases n
  {
    if n < 10 then [DigitChar(n)] else FromNat(n / 10) + [DigitChar(n % 10)]
  }

  /** The number a string of digits denotes. */
  function ToNat(s: string): nat
    requires AllDigits(s)
    decreases |s|
  {
    if |s| == 0 then 0 else ToNat(s[..|s| - 1]) * 10 + DigitValue(s[|s| - 1])
  }

  /** Parsing the decimal text of `n` gives `n` back. */
  lemma {:induction false} ToNatFromNat(n: nat)
    ensures ToNat(FromNat(n)) == n
    decreases n
  {
    var s := FromNat(n);
    if n >= 10 {
      assert s[..|s| - 1] == FromNat(n / 10);
      ToNatFromNat(n / 10);
    }
  }

  /** Rendering the value of a canonical digit string gives the string back. */
  lemma {:induction false} FromNatToNat(s: string)
    requires IsCanonical(s)
    ensures FromNat(ToNat(s)) == s
    decreases |s|
  {
    if |s| == 1 {
      assert s[..0] == [];
      assert FromNat(ToNat(s)) == [s[0]];
    } else {
      var p := s[..|s| - 1];
      var c := s[|s| - 1];
      assert p[0] == s[0];
      assert IsCanonical(p);
      FromNatToNat(p);
      var n := ToNat(s);
      assert n == ToNat(p) * 10 + DigitValue(c);
      assert n / 10 == ToNat(p) && n % 10 == DigitValue(c);
      assert s == p + [c];
    }
  }
}
