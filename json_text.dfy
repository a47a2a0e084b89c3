/** A small reader for the JSON texts the mod and the bot exchange: the body of a string
    literal (after its opening quote), as section 7 of RFC 8259 defines it, and an integer
    literal. It is the reference against which the hand-built payloads and replies are
    checked. */
module JsonText {
  import opened Wrappers
  import opened Numerals
  import Hex

  /** The character a one-letter escape `\c` stands for, if `c` is one of the eight
      characters section 7 of RFC 8259 allows after a backslash besides `u`. */
  function Unescape(c: char): (r: Option<char>)
    ensures c == '"' || c == '\\' || c == '/' ==> r == Some(c)
    ensures r.Some? <==> c in "\"\\/bfnrt"
  {
    match c
    case '"' => Some('"')
    case '\\' => Some('\\')
    case '/' => Some('/')
    case 'b' => Some(8 as char)
    case 'f' => Some(12 as char)
    case 'n' => Some('\n')
    case 'r' => Some('\r')
    case 't' => Some('\t')
    case _ => None
  }

  /** `c` in front of the value read, if there is one. */
  function Prepend(c: char, r: Option<(string, string)>): Option<(string, string)> {
    match r
    case None => None
    case Some((v, rest)) => Some(([c] + v, rest))
  }

  /** Reads the body of a JSON string literal (section 7 of RFC 8259) up to its closing quote,
      giving the value read and what follows the quote. A raw control character (below
      U+0020), an unknown escape or a missing closing quote make the text invalid. A `\u`
      escape gives the character with that code, except for the surrogate halves, which are
      not read. */
  function ReadString(t: string): (r: Option<(string, string)>)
    ensures r.Some? ==> |r.value.1| < |t|
    ensures t != [] && t[0] < ' ' ==> r.None?
    decreases |t|
  {
    if t == [] then None
    else if t[0] == '"' then Some(([], t[1..]))
    else if t[0] < ' ' then None
    else if t[0] == '\\' then
      if |t| < 2 then None
      else if t[1] == 'u' then
        if |t| < 6 || !Hex.AllHex(t[2..6]) then None
        else
          var v := Hex.HexValue(t[2..6]);
          assert Hex.Pow16(4) == 0x1_0000;
          if 0xD800 <= v < 0xE000 then None else Prepend(v as char, ReadString(t[6..]))
      else match Unescape(t[1])
        case None => None
        case Some(c) => Prepend(c, ReadString(t[2..]))
    else Prepend(t[0], ReadString(t[1..]))
  }

  /** The length of the run of ASCII digits at the front of `t`. */
  function DigitRun(t: string): (n: nat)
    ensures n <= |t| && AllDigits(t[..n])
    ensures n < |t| ==> !IsDigit(t[n])
  {
    if t != [] && IsDigit(t[0]) then
      var n := 1 + DigitRun(t[1..]);
      assert t[..n] == [t[0]] + t[1..][..n - 1];
      n
    else 0
  }

  /** Reads an optional '-' and one or more digits, giving the value and the rest. */
  function ReadInt(t: string): Option<(int, string)>
  {
    if t != [] && t[0] == '-' then
      var n := DigitRun(t[1..]);
      if n == 0 then None else Some((-(DigitsValue(t[1..][..n]) as int), t[1..][n..]))
    else
      var n := DigitRun(t);
      if n == 0 then None else Some((DigitsValue(t[..n]) as int, t[n..]))
  }

  lemma {:induction false} DigitRunAppend(d: string, rest: string)
    requires AllDigits(d)
    requires rest == [] || !IsDigit(rest[0])
    ensures DigitRun(d + rest) == |d|
    decreases |d|
  {
    if d == [] {
      assert d + rest == rest;
    } else {
      assert (d + rest)[1..] == d[1..] + rest;
      DigitRunAppend(d[1..], rest);
    }
  }

  /** `Integer.toString`/`Long.toString`/`str(int)` text is read back as the same number. */
  lemma ReadIntToString(v: int, rest: string)
    requires rest == [] || !IsDigit(rest[0])
    ensures ReadInt(IntToString(v) + rest) == Some((v, rest))
  {
    var s := IntToString(v);
    if v < 0 {
      var d := NatToString(-v);
      assert s + rest == "-" + (d + rest);
      assert (s + rest)[1..] == d + rest;
      DigitRunAppend(d, rest);
      assert (d + rest)[..|d|] == d;
      assert (d + rest)[|d|..] == rest;
    } else {
      DigitRunAppend(s, rest);
      assert (s + rest)[..|s|] == s;
      assert (s + rest)[|s|..] == rest;
    }
  }
}
