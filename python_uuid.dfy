/** Python's `uuid.UUID(hex)` constructor, which the bot uses both to validate a UUID path
    segment and to normalise a Mojang id. It removes every "urn:" and then every "uuid:",
    strips braces from both ends, removes every '-', demands exactly 32 characters left,
    reads them with `int(_, 16)` and demands a value in [0, 2^128). A failure at any step is
    the `ValueError` the callers catch; here it is `None`. */
module PyUuid {
  import opened Wrappers
  import opened Strings
  import opened Hex
  import opened Uuids

  /** The characters `int()` treats as white space around a numeral. */
  predicate IsPySpace(c: char) {
    var v := c as int;
    (0x09 <= v <= 0x0D) || (0x1C <= v <= 0x20) || v == 0x85 || v == 0xA0 || v == 0x1680
    || (0x2000 <= v <= 0x200A) || v == 0x2028 || v == 0x2029 || v == 0x202F || v == 0x205F
    || v == 0x3000
  }

  predicate IsBrace(c: char) {
    c == '{' || c == '}'
  }

  predicate IsHyphen(c: char) {
    c == '-'
  }

  predicate IsDigitOrUnderscore(c: char) {
    IsHexDigit(c) || c == '_'
  }

  /** The digits that may follow the sign and prefix of a base-16 `int()` literal: at least
      one hex digit, single underscores only between digits. */
  predicate IsDigitRun(w: string) {
    |w| > 0 && w[0] != '_' && w[|w| - 1] != '_' &&
    (forall i | 0 <= i < |w| :: IsDigitOrUnderscore(w[i])) &&
    (forall i | 0 <= i < |w| - 1 :: !(w[i] == '_' && w[i + 1] == '_'))
  }

  function DropUnderscores(w: string): (r: string)
    requires forall i | 0 <= i < |w| :: IsDigitOrUnderscore(w[i])
    ensures AllHex(r)
    ensures AllHex(w) ==> r == w
  {
    if w == [] then []
    else if w[0] == '_' then DropUnderscores(w[1..])
    else
      var rest := DropUnderscores(w[1..]);
      assert IsDigitOrUnderscore(w[0]);
      assert forall i | 1 <= i <= |rest| :: ([w[0]] + rest)[i] == rest[i - 1];
      [w[0]] + rest
  }

  /** `int(s, 16)`: surrounding white space, an optional sign, an optional "0x"/"0X" prefix
      (which may be followed by one underscore), then a digit run. */
  function PyHexInt(s: string): (r: Option<int>)
  {
    var t := Strip(s, IsPySpace);
    var body := if t != [] && (t[0] == '+' || t[0] == '-') then t[1..] else t;
    var w := if |body| >= 2 && body[0] == '0' && (body[1] == 'x' || body[1] == 'X')
             then (if |body| >= 3 && body[2] == '_' then body[3..] else body[2..])
             else body;
    if !IsDigitRun(w) then None
    else
      var n: int := HexValue(DropUnderscores(w));
      Some(if t != [] && t[0] == '-' then -n else n)
  }

  /** The range check on the parsed integer. */
  function InUuidRange(n: Option<int>): (r: Option<Uuid>)
    ensures r.Some? <==> n.Some? && 0 <= n.value < UUID_BOUND
    ensures r.Some? ==> r.value == n.value
  {
    if n.Some? && 0 <= n.value < UUID_BOUND then Some(n.value) else None
  }

  /** What remains of the text once the prefixes, braces and hyphens are removed. */
  function Cleaned(s: string): string {
    Without(Strip(ReplaceAll(ReplaceAll(s, "urn:", ""), "uuid:", ""), IsBrace), IsHyphen)
  }

  /** `uuid.UUID(hex=s).int`, or `None` for the `ValueError`. */
  function UuidFromHex(s: string): Option<Uuid>
  {
    var b := Cleaned(s);
    if |b| != 32 then None else InUuidRange(PyHexInt(b))
  }

  predicate IsAsciiAlphanumeric(c: char) {
    '0' <= c <= '9' || 'a' <= c <= 'z' || 'A' <= c <= 'Z'
  }

  /** Letters and digits have no prefix, brace or hyphen to remove. */
  lemma {:induction false} AlnumCleaned(s: string)
    requires s != [] && forall i | 0 <= i < |s| :: IsAsciiAlphanumeric(s[i])
    ensures Cleaned(s) == s
  {
    ReplaceAllAbsent(s, "urn:", "", 3);
    ReplaceAllAbsent(s, "uuid:", "", 4);
    StripNoop(s, IsBrace);
    WithoutNoop(s, IsHyphen);
  }

  lemma HexIsAlnum(s: string)
    requires AllHex(s)
    ensures forall i | 0 <= i < |s| :: IsAsciiAlphanumeric(s[i])
  {
  }

  /** `int(h, 16)` on plain hex digits is their value. */
  lemma PyHexIntOfDigits(h: string)
    requires h != [] && AllHex(h)
    ensures PyHexInt(h) == Some(HexValue(h) as int)
  {
    StripNoop(h, IsPySpace);
    assert IsDigitRun(h);
  }

  lemma {:induction false} WithoutHyphens(h: string)
    requires AllHex(h)
    ensures Without(h, IsHyphen) == h
  {
    WithoutNoop(h, IsHyphen);
  }

  /** Removing the hyphens from one more "-" and group of digits. */
  lemma {:induction false} WithoutHyphenGroup(acc: string, g: string)
    requires AllHex(g)
    ensures Without(acc + "-" + g, IsHyphen) == Without(acc, IsHyphen) + g
  {
    WithoutHyphens(g);
    assert Without("-", IsHyphen) == "";
    WithoutAppend(acc, "-", IsHyphen);
    WithoutAppend(acc + "-", g, IsHyphen);
  }

  /** Removing the hyphens of the 8-4-4-4-12 grouping gives the digits back. */
  lemma {:induction false} DehyphenateHyphenate(h: string)
    requires |h| == 32 && AllHex(h)
    ensures Without(Hyphenate(h), IsHyphen) == h
  {
    var a, b, c, d, e := h[..8], h[8..12], h[12..16], h[16..20], h[20..];
    var s1 := a + "-" + b;
    var s2 := s1 + "-" + c;
    var s3 := s2 + "-" + d;
    var s4 := s3 + "-" + e;
    assert s4 == Hyphenate(h);
    WithoutHyphens(a);
    WithoutHyphenGroup(a, b);
    WithoutHyphenGroup(s1, c);
    WithoutHyphenGroup(s2, d);
    WithoutHyphenGroup(s3, e);
    assert a + b == h[..12];
    assert h[..12] + c == h[..16];
    assert h[..16] + d == h[..20];
    assert h[..20] + e == h;
  }

  /** Any 32 hex digits, in either case, are accepted and read as their value. */
  lemma HexIdAccepted(s: string)
    requires |s| == 32 && AllHex(s)
    ensures UuidFromHex(s) == Some(HexValue(s))
  {
    Pow16ThirtyTwo();
    HexIsAlnum(s);
    AlnumCleaned(s);
    PyHexIntOfDigits(s);
  }

  /** The canonical text of a UUID is accepted and denotes that UUID, so `str(uuid.UUID(x))`
      gives back `x` for every canonical `x`. */
  lemma CanonicalAccepted(v: Uuid)
    ensures UuidFromHex(Canonical(v)) == Some(v)
  {
    CanonicalCleaned(v);
    PyHexIntOfDigits(Digits32(v));
  }

  /** Cleaning canonical text leaves its 32 digits. */
  lemma CanonicalCleaned(v: Uuid)
    ensures Cleaned(Canonical(v)) == Digits32(v)
  {
    var s := Canonical(v);
    assert forall i | 0 <= i < |s| :: s[i] != ':';
    ReplaceAllAbsent(s, "urn:", "", 3);
    ReplaceAllAbsent(s, "uuid:", "", 4);
    StripNoop(s, IsBrace);
    DehyphenateHyphenate(Digits32(v));
  }

  /** The text of a UUID identifies it: distinct UUIDs have distinct canonical texts. */
  lemma CanonicalInjective(v: Uuid, w: Uuid)
    requires Canonical(v) == Canonical(w)
    ensures v == w
  {
    CanonicalAccepted(v);
    CanonicalAccepted(w);
  }

  /** 32 letters and digits, not starting with a "0x" prefix, are rejected as soon as one of
      them is not a hex digit. */
  lemma NonHexRejected(s: string, k: nat)
    requires |s| == 32 && forall i | 0 <= i < 32 :: IsAsciiAlphanumeric(s[i])
    requires !(s[0] == '0' && (s[1] == 'x' || s[1] == 'X'))
    requires k < 32 && !IsHexDigit(s[k])
    ensures UuidFromHex(s) == None
  {
    AlnumCleaned(s);
    NonHexNotInt(s, k);
  }

  lemma NonHexNotInt(s: string, k: nat)
    requires |s| == 32 && forall i | 0 <= i < 32 :: IsAsciiAlphanumeric(s[i])
    requires !(s[0] == '0' && (s[1] == 'x' || s[1] == 'X'))
    requires k < 32 && !IsHexDigit(s[k])
    ensures PyHexInt(s) == None
  {
    StripNoop(s, IsPySpace);
    assert !IsDigitOrUnderscore(s[k]);
  }

  /** Because `int(_, 16)` accepts a "0x" prefix, "0x" followed by 30 hex digits is accepted
      too, as the UUID whose top byte is zero. */
  lemma ZeroXPrefixAccepted(h: string)
    requires |h| == 30 && AllHex(h)
    ensures UuidFromHex("0x" + h) == Some(HexValue(h))
  {
    var s := "0x" + h;
    HexIsAlnum(h);
    assert forall i | 0 <= i < |s| :: IsAsciiAlphanumeric(s[i]);
    AlnumCleaned(s);
    ZeroXInt(h);
    Pow16ThirtyTwo();
    Uuids.Pow16Add(30, 2);
  }

  lemma ZeroXInt(h: string)
    requires |h| == 30 && AllHex(h)
    ensures PyHexInt("0x" + h) == Some(HexValue(h) as int)
  {
    var s := "0x" + h;
    StripNoop(s, IsPySpace);
    assert Strip(s, IsPySpace) == s;
    assert s[0] == '0' && s[1] == 'x' && s[2] == h[0] && s[2] != '_';
    assert s[2..] == h;
    assert IsDigitRun(h);
  }
}
