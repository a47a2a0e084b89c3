/** Hexadecimal digits: their values, fixed-width lowercase rendering (as in UUID text)
    and minimal unsigned rendering (as in Java's `Integer.toHexString`). */
module Hex {

  predicate IsHexDigit(c: char) {
    '0' <= c <= '9' || 'a' <= c <= 'f' || 'A' <= c <= 'F'
  }

  predicate IsLowerHexDigit(c: char) {
    '0' <= c <= '9' || 'a' <= c <= 'f'
  }

  predicate AllHex(s: string) {
    forall i | 0 <= i < |s| :: IsHexDigit(s[i])
  }

  predicate AllLowerHex(s: string) {
    forall i | 0 <= i < |s| :: IsLowerHexDigit(s[i])
  }

  function DigitValue(c: char): (d: nat)
    requires IsHexDigit(c)
    ensures d < 16
  {
    if '0' <= c <= '9' then c as int - '0' as int
    else if 'a' <= c <= 'f' then c as int - 'a' as int + 10
    else c as int - 'A' as int + 10
  }

  function HexChar(d: nat): (c: char)
    requires d < 16
    ensures IsLowerHexDigit(c) && IsHexDigit(c) && DigitValue(c) == d
  {
    if d < 10 then ('0' as int + d) as char else ('a' as int + d - 10) as char
  }

  /** The lowercase form of a hex digit. */
  function LowerHexDigit(c: char): (l: char)
    requires IsHexDigit(c)
    ensures IsLowerHexDigit(l) && DigitValue(l) == DigitValue(c)
  {
    HexChar(DigitValue(c))
  }

  function Lower(s: string): (r: string)
    requires AllHex(s)
    ensures |r| == |s| && AllLowerHex(r)
    ensures forall i | 0 <= i < |s| :: r[i] == LowerHexDigit(s[i])
  {
    if s == [] then [] else
      var r := Lower(s[..|s| - 1]) + [LowerHexDigit(s[|s| - 1])];
      assert forall i | 0 <= i < |s| - 1 :: r[i] == Lower(s[..|s| - 1])[i];
      r
  }

  function Pow16(n: nat): (p: nat)
    ensures p > 0
  {
    if n == 0 then 1 else 16 * Pow16(n - 1)
  }

  /** The number a string of hex digits denotes, most significant digit first. */
  function HexValue(s: string): (v: nat)
    requires AllHex(s)
    ensures v < Pow16(|s|)
  {
    if s == [] then 0 else HexValue(s[..|s| - 1]) * 16 + DigitValue(s[|s| - 1])
  }

  /** `v` written with exactly `n` lowercase hex digits, zero-padded on the left. */
  function HexDigits(v: nat, n: nat): (s: string)
    requires v < Pow16(n)
    ensures |s| == n && AllLowerHex(s) && AllHex(s)
  {
    if n == 0 then "" else HexDigits(v / 16, n - 1) + [HexChar(v % 16)]
  }

  /** The rendering denotes the value it renders. */
  lemma {:induction false} HexDigitsValue(v: nat, n: nat)
    requires v < Pow16(n)
    ensures HexValue(HexDigits(v, n)) == v
  {
    if n > 0 {
      var s := HexDigits(v, n);
      assert s[..|s| - 1] == HexDigits(v / 16, n - 1);
      HexDigitsValue(v / 16, n - 1);
    }
  }

  /** `u` in lowercase hex without leading zeros ("0" for zero). */
  function UnsignedHex(u: nat): (s: string)
    ensures |s| >= 1 && AllLowerHex(s) && AllHex(s)
    ensures HexValue(s) == u
    ensures s[0] == '0' ==> s == "0"
  {
    if u < 16 then [HexChar(u)] else
      var s := UnsignedHex(u / 16) + [HexChar(u % 16)];
      assert s[..|s| - 1] == UnsignedHex(u / 16);
      s
  }

  /** Rendering the value of a hex string at its own width gives the string back, lowercased. */
  lemma {:induction false} HexDigitsOfValue(s: string)
    requires AllHex(s)
    ensures HexDigits(HexValue(s), |s|) == Lower(s)
    decreases |s|
  {
    if s != [] {
      var p := s[..|s| - 1];
      var c := s[|s| - 1];
      var v := HexValue(s);
      assert v == HexValue(p) * 16 + DigitValue(c);
      LastDigit(HexValue(p), DigitValue(c));
      assert HexDigits(v, |s|) == HexDigits(HexValue(p), |p|) + [HexChar(DigitValue(c))];
      HexDigitsOfValue(p);
    }
  }

  /** Dividing by 16 takes off the last digit. */
  lemma LastDigit(a: nat, d: nat)
    requires d < 16
    ensures (a * 16 + d) / 16 == a && (a * 16 + d) % 16 == d
  {
  }
}
