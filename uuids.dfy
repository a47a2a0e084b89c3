/** 128-bit UUID values and their canonical text, the 8-4-4-4-12 grouping of 32 lowercase
    hex digits defined in section 4 of RFC 9562. Java's `UUID.toString()` and Python's
    `str(uuid.UUID)` both produce exactly this text. */
module Uuids {
  import opened Hex

  const UUID_BOUND: nat := 0x1_0000_0000_0000_0000_0000_0000_0000_0000

  type Uuid = v: nat | v < UUID_BOUND

  lemma {:induction false} Pow16Add(a: nat, b: nat)
    ensures Pow16(a + b) == Pow16(a) * Pow16(b)
    decreases a
  {
    if a > 0 {
      Pow16Add(a - 1, b);
    }
  }

  lemma Pow16ThirtyTwo()
    ensures Pow16(32) == UUID_BOUND
  {
    assert Pow16(2) == 0x100;
    Pow16Add(2, 2);
    assert Pow16(4) == 0x1_0000;
    Pow16Add(4, 4);
    assert Pow16(8) == 0x1_0000_0000;
    Pow16Add(8, 8);
    assert Pow16(16) == 0x1_0000_0000_0000_0000;
    Pow16Add(16, 16);
  }

  predicate IsHyphenPosition(i: int) {
    i == 8 || i == 13 || i == 18 || i == 23
  }

  /** Canonical UUID text: hyphens at 8, 13, 18 and 23, lowercase hex digits elsewhere. */
  predicate IsCanonical(s: string) {
    |s| == 36 &&
    forall i | 0 <= i < 36 :: if IsHyphenPosition(i) then s[i] == '-' else IsLowerHexDigit(s[i])
  }

  /** Splits 32 hex digits into the groups of 8, 4, 4, 4 and 12. */
  function Hyphenate(h: string): (s: string)
    requires |h| == 32
    ensures |s| == 36
    ensures forall i | 0 <= i < 36 :: IsHyphenPosition(i) ==> s[i] == '-'
    ensures forall i | 0 <= i < 8 :: s[i] == h[i]
    ensures forall i | 9 <= i < 13 :: s[i] == h[i - 1]
    ensures forall i | 14 <= i < 18 :: s[i] == h[i - 2]
    ensures forall i | 19 <= i < 23 :: s[i] == h[i - 3]
    ensures forall i | 24 <= i < 36 :: s[i] == h[i - 4]
  {
    h[..8] + "-" + h[8..12] + "-" + h[12..16] + "-" + h[16..20] + "-" + h[20..]
  }

  /** The 32 hex digits of a UUID, most significant first. */
  function Digits32(v: Uuid): (s: string)
    ensures |s| == 32 && AllLowerHex(s) && AllHex(s) && HexValue(s) == v
  {
    Pow16ThirtyTwo();
    HexDigitsValue(v, 32);
    HexDigits(v, 32)
  }

  /** `UUID.toString()` / `str(uuid.UUID)`. */
  function Canonical(v: Uuid): (s: string)
    ensures IsCanonical(s)
  {
    Hyphenate(Digits32(v))
  }
}
