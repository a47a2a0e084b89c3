/** The parts of `java.lang` whose exact behaviour the mod depends on: 32- and 64-bit
    integers with wrap-around, truncating division, `String.isBlank`, `String.trim`,
    `Integer.parseInt`, `Integer.toHexString` and `String.hashCode`. */
module JavaLang {
  import opened Numerals
  import opened Wrappers
  import Hex

  const INT_MIN: int := -0x8000_0000
  const INT_MAX: int := 0x7fff_ffff
  const LONG_MIN: int := -0x8000_0000_0000_0000
  const LONG_MAX: int := 0x7fff_ffff_ffff_ffff

  type Int32 = x: int | INT_MIN <= x <= INT_MAX
  type Long = x: int | LONG_MIN <= x <= LONG_MAX
  /** Values of `System.currentTimeMillis()`: a non-negative `long`. */
  type Millis = x: int | 0 <= x <= LONG_MAX

  /** Two's-complement wrap of an exact result into `int`. */
  function Wrap32(x: int): (r: Int32)
    ensures (r - x) % 0x1_0000_0000 == 0
    ensures INT_MIN <= x <= INT_MAX ==> r == x
  {
    (x + 0x8000_0000) % 0x1_0000_0000 - 0x8000_0000
  }

  /** Two's-complement wrap of an exact result into `long`. */
  function WrapLong(x: int): (r: Long)
    ensures (r - x) % 0x1_0000_0000_0000_0000 == 0
    ensures LONG_MIN <= x <= LONG_MAX ==> r == x
  {
    (x + 0x8000_0000_0000_0000) % 0x1_0000_0000_0000_0000 - 0x8000_0000_0000_0000
  }

  /** Java `/` on a positive divisor: the quotient is truncated toward zero. */
  function JDiv(a: int, d: int): int
    requires d > 0
  {
    if a >= 0 then a / d else -((-a) / d)
  }

  /** Java `%` on a positive divisor: the remainder takes the sign of the dividend. */
  function JMod(a: int, d: int): (r: int)
    requires d > 0
    ensures JDiv(a, d) * d + r == a
    ensures a >= 0 ==> 0 <= r < d
    ensures a < 0 ==> -d < r <= 0
  {
    if a >= 0 then a % d else -((-a) % d)
  }

  /** `Character.isWhitespace(int)`: the Unicode space, line and paragraph separators other
      than the three no-break spaces, plus the ASCII controls U+0009..U+000D and U+001C..U+001F. */
  predicate IsJavaWhitespace(c: char) {
    var v := c as int;
    (0x09 <= v <= 0x0D) || (0x1C <= v <= 0x20) || v == 0x1680 || (0x2000 <= v <= 0x2006)
    || (0x2008 <= v <= 0x200A) || v == 0x2028 || v == 0x2029 || v == 0x205F || v == 0x3000
  }

  /** The regular-expression class `\s`: [ \t\n\x0B\f\r]. */
  predicate IsRegexSpace(c: char) {
    c == ' ' || c == '\t' || c == '\n' || c as int == 0x0B || c as int == 0x0C || c == '\r'
  }

  /** `String.isBlank()`: empty or white space only. */
  predicate IsBlank(s: string) {
    forall i | 0 <= i < |s| :: IsJavaWhitespace(s[i])
  }

  /** The leading characters at or below U+0020 removed, and only those. */
  function TrimStart(s: string): (r: string)
    ensures |r| <= |s| && r == s[|s| - |r|..]
    ensures forall i | 0 <= i < |s| - |r| :: s[i] <= ' '
    ensures r != [] ==> r[0] > ' '
  {
    if s != [] && s[0] <= ' ' then TrimStart(s[1..]) else s
  }

  /** The trailing characters at or below U+0020 removed, and only those. */
  function TrimEnd(s: string): (r: string)
    ensures |r| <= |s| && r == s[..|r|]
    ensures forall i | |r| <= i < |s| :: s[i] <= ' '
    ensures r != [] ==> r[|r| - 1] > ' '
  {
    if s != [] && s[|s| - 1] <= ' ' then TrimEnd(s[..|s| - 1]) else s
  }

  /** `String.trim()`: drops every leading and trailing character at or below U+0020. */
  function Trim(s: string): string {
    TrimEnd(TrimStart(s))
  }

  /** `Integer.parseInt(s)`: an optional sign then one or more decimal digits, whose value
      must fit in an `int`; `None` stands for the `NumberFormatException`. */
  function ParseInt(s: string): (r: Option<Int32>)
    ensures r.Some? <==> |s| >= 1 && Unsigned(s) != [] && AllDigits(Unsigned(s)) &&
                         INT_MIN <= SignedValue(s) <= INT_MAX
    ensures r.Some? ==> r.value == SignedValue(s)
  {
    if s == [] then None
    else
      var digits := if s[0] == '-' || s[0] == '+' then s[1..] else s;
      if digits == [] || !AllDigits(digits) then None
      else
        var v: int := if s[0] == '-' then -(DigitsValue(digits) as int) else DigitsValue(digits);
        if INT_MIN <= v <= INT_MAX then Some(v) else None
  }

  /** The text after an optional leading sign. */
  function Unsigned(s: string): (d: string)
    ensures |d| <= |s| && d == s[|s| - |d|..]
    ensures s != [] && (s[0] == '-' || s[0] == '+') ==> |d| == |s| - 1
    ensures s == [] || (s[0] != '-' && s[0] != '+') ==> d == s
  {
    if s != [] && (s[0] == '-' || s[0] == '+') then s[1..] else s
  }

  /** The value of a signed decimal numeral: the digits' value, negated after a '-'. */
  function SignedValue(s: string): int
    requires s != [] && AllDigits(Unsigned(s))
  {
    if s[0] == '-' then -(DigitsValue(Unsigned(s)) as int) else DigitsValue(Unsigned(s))
  }

  /** A run of digits without a sign is read as its value when that fits an `int`. */
  lemma ParseIntDigits(d: string)
    requires d != [] && AllDigits(d)
    ensures ParseInt(d) == if DigitsValue(d) <= INT_MAX then Some(DigitsValue(d)) else None
  {
    assert IsDigit(d[0]);
  }

  /** `Integer.toString(v)` is read back unchanged by `Integer.parseInt`. */
  lemma ParseIntToString(v: Int32)
    ensures ParseInt(IntToString(v)) == Some(v)
  {
    var s := IntToString(v);
    if v >= 0 {
      assert IsDigit(s[0]);
    }
  }

  /** `Integer.toHexString(i)`: the unsigned two's-complement value in lowercase hex. */
  function ToHexString(i: Int32): (s: string)
    ensures 1 <= |s| && Hex.AllLowerHex(s) && Hex.AllHex(s)
    ensures Hex.HexValue(s) == Unsigned32(i)
  {
    Hex.UnsignedHex(Unsigned32(i))
  }

  function Unsigned32(i: Int32): (u: nat)
    ensures u < 0x1_0000_0000
    ensures u % 0x1_0000_0000 == i % 0x1_0000_0000
  {
    if i < 0 then i + 0x1_0000_0000 else i
  }

  /** Distinct `int` values have distinct `toHexString` renderings. */
  lemma ToHexStringInjective(a: Int32, b: Int32)
    ensures ToHexString(a) == ToHexString(b) <==> a == b
  {
    if ToHexString(a) == ToHexString(b) {
      assert Unsigned32(a) == Unsigned32(b);
    }
  }

  /** The UTF-16 code units Java stores for one Unicode scalar value. */
  function Utf16Units(c: char): (u: seq<int>)
    ensures 1 <= |u| <= 2
    ensures forall k | 0 <= k < |u| :: 0 <= u[k] < 0x1_0000
    ensures c as int < 0x1_0000 ==> u == [c as int]
    ensures c as int >= 0x1_0000 ==>
      |u| == 2 && 0xD800 <= u[0] < 0xDC00 && 0xDC00 <= u[1] < 0xE000 &&
      (u[0] - 0xD800) * 0x400 + (u[1] - 0xDC00) + 0x1_0000 == c as int
  {
    var v := c as int;
    if v < 0x1_0000 then [v]
    else [0xD800 + (v - 0x1_0000) / 0x400, 0xDC00 + (v - 0x1_0000) % 0x400]
  }

  function Utf16(s: string): seq<int> {
    if s == [] then [] else Utf16(s[..|s| - 1]) + Utf16Units(s[|s| - 1])
  }

  /** `h = 31 * h + unit` over the code units, wrapping at 32 bits after each step. */
  function HashUnits(units: seq<int>): Int32 {
    if units == [] then 0
    else Wrap32(31 * HashUnits(units[..|units| - 1]) + units[|units| - 1])
  }

  /** `String.hashCode()`. */
  function HashCode(s: string): Int32 {
    HashUnits(Utf16(s))
  }
}
