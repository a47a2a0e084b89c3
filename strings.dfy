/** Library string operations that both the Java mod and the Python bot rely on:
    prefix and substring tests, replace-all, character filtering and counting. */
module Strings {

  predicate StartsWith(s: string, prefix: string) {
    |prefix| <= |s| && s[..|prefix|] == prefix
  }

  predicate EndsWith(s: string, suffix: string) {
    |suffix| <= |s| && s[|s| - |suffix|..] == suffix
  }

  /** `pat` occurs in `s` starting at index `i`. */
  predicate OccursAt(s: string, pat: string, i: int) {
    0 <= i && i + |pat| <= |s| && s[i..i + |pat|] == pat
  }

  /** Java `String.contains` and Python `in` on strings. */
  predicate Contains(s: string, pat: string) {
    exists i | 0 <= i <= |s| - |pat| :: OccursAt(s, pat, i)
  }

  /** Java `String.replace(CharSequence, CharSequence)` and Python `str.replace`:
      every non-overlapping occurrence of `pat`, scanned from the left, becomes `rep`. */
  function ReplaceAll(s: string, pat: string, rep: string): (r: string)
    requires |pat| > 0
    decreases |s|
  {
    if |s| < |pat| then s
    else if s[..|pat|] == pat then rep + ReplaceAll(s[|pat|..], pat, rep)
    else [s[0]] + ReplaceAll(s[1..], pat, rep)
  }

  /** `r` is `s` with some characters satisfying `p` cut from its start and some from its end,
      and everything between kept in order. */
  ghost predicate TrimmedOf(r: string, s: string, p: char -> bool) {
    exists i, j | 0 <= i <= j <= |s| ::
      r == s[i..j] && (forall k | 0 <= k < i :: p(s[k])) && (forall k | j <= k < |s| :: p(s[k]))
  }

  /** Python `str.strip(chars)`: the characters satisfying `p` removed from both ends. */
  function Strip(s: string, p: char -> bool): (r: string)
    ensures |r| <= |s|
    ensures TrimmedOf(r, s, p)
    ensures r != [] ==> !p(r[0]) && !p(r[|r| - 1])
    ensures s != [] && (p(s[0]) || p(s[|s| - 1])) ==> |r| < |s|
    decreases |s|
  {
    if s != [] && p(s[0]) then
      var r := Strip(s[1..], p);
      TrimmedDropFirst(r, s, p);
      r
    else if s != [] && p(s[|s| - 1]) then
      var r := Strip(s[..|s| - 1], p);
      TrimmedDropLast(r, s, p);
      r
    else
      assert s[0..|s|] == s;
      s
  }

  /** Cutting one more `p` character from the front keeps `r` a trimming of `s`. */
  lemma TrimmedDropFirst(r: string, s: string, p: char -> bool)
    requires s != [] && p(s[0]) && TrimmedOf(r, s[1..], p)
    ensures TrimmedOf(r, s, p)
  {
    var i, j :| 0 <= i <= j <= |s[1..]| && r == s[1..][i..j] &&
      (forall k | 0 <= k < i :: p(s[1..][k])) && (forall k | j <= k < |s[1..]| :: p(s[1..][k]));
    assert r == s[i + 1..j + 1];
    assert forall k | 0 <= k < i + 1 :: p(s[k]) by {
      forall k | 0 <= k < i + 1 ensures p(s[k]) {
        if k > 0 { assert s[k] == s[1..][k - 1]; }
      }
    }
    assert forall k | j + 1 <= k < |s| :: p(s[k]) by {
      forall k | j + 1 <= k < |s| ensures p(s[k]) { assert s[k] == s[1..][k - 1]; }
    }
  }

  /** Cutting one more `p` character from the end keeps `r` a trimming of `s`. */
  lemma TrimmedDropLast(r: string, s: string, p: char -> bool)
    requires s != [] && p(s[|s| - 1]) && TrimmedOf(r, s[..|s| - 1], p)
    ensures TrimmedOf(r, s, p)
  {
    var t := s[..|s| - 1];
    var i, j :| 0 <= i <= j <= |t| && r == t[i..j] &&
      (forall k | 0 <= k < i :: p(t[k])) && (forall k | j <= k < |t| :: p(t[k]));
    assert r == s[i..j];
    assert forall k | 0 <= k < i :: p(s[k]) by {
      forall k | 0 <= k < i ensures p(s[k]) { assert s[k] == t[k]; }
    }
    assert forall k | j <= k < |s| :: p(s[k]) by {
      forall k | j <= k < |s| ensures p(s[k]) {
        if k < |t| { assert s[k] == t[k]; }
      }
    }
  }

  /** Nothing is stripped when neither end satisfies `p`. */
  lemma StripNoop(s: string, p: char -> bool)
    requires s != [] && !p(s[0]) && !p(s[|s| - 1])
    ensures Strip(s, p) == s
  {
  }

  /** Every character of `s` for which `drop` holds is removed, the rest keep their order. */
  function Without(s: string, drop: char -> bool): (r: string)
    ensures |r| <= |s|
    ensures forall i | 0 <= i < |r| :: !drop(r[i])
  {
    if s == [] then [] else (if drop(s[0]) then [] else [s[0]]) + Without(s[1..], drop)
  }

  function Count(s: string, c: char): nat {
    if s == [] then 0 else (if s[0] == c then 1 else 0) + Count(s[1..], c)
  }

  /** A pattern one of whose characters never occurs in `s` is never replaced. */
  lemma {:induction false} ReplaceAllAbsent(s: string, pat: string, rep: string, k: nat)
    requires |pat| > 0 && k < |pat|
    requires forall i | 0 <= i < |s| :: s[i] != pat[k]
    ensures ReplaceAll(s, pat, rep) == s
    decreases |s|
  {
    if |s| >= |pat| {
      assert s[..|pat|][k] == s[k];
      ReplaceAllAbsent(s[1..], pat, rep, k);
    }
  }

  /** Replacing a one-character pattern maps each character independently. */
  lemma {:induction false} ReplaceCharAppend(s: string, c: char, rep: string, t: string)
    ensures ReplaceAll(s + t, [c], rep) == ReplaceAll(s, [c], rep) + ReplaceAll(t, [c], rep)
    decreases |s|
  {
    if s == [] {
      assert s + t == t;
    } else {
      assert (s + t)[1..] == s[1..] + t;
      assert (s + t)[..1] == s[..1];
      ReplaceCharAppend(s[1..], c, rep, t);
    }
  }

  lemma {:induction false} WithoutAppend(s: string, t: string, drop: char -> bool)
    ensures Without(s + t, drop) == Without(s, drop) + Without(t, drop)
    decreases |s|
  {
    if s == [] {
      assert s + t == t;
    } else {
      assert (s + t)[1..] == s[1..] + t;
      WithoutAppend(s[1..], t, drop);
    }
  }

  lemma {:induction false} WithoutNoop(s: string, drop: char -> bool)
    requires forall i | 0 <= i < |s| :: !drop(s[i])
    ensures Without(s, drop) == s
    decreases |s|
  {
    if s != [] {
      WithoutNoop(s[1..], drop);
    }
  }

  lemma {:induction false} CountAppend(s: string, t: string, c: char)
    ensures Count(s + t, c) == Count(s, c) + Count(t, c)
    decreases |s|
  {
    if s == [] {
      assert s + t == t;
    } else {
      assert (s + t)[1..] == s[1..] + t;
      CountAppend(s[1..], t, c);
    }
  }

  lemma OccursAtAppend(a: string, b: string, pat: string, i: int)
    requires OccursAt(a, pat, i)
    ensures OccursAt(a + b, pat, i)
  {
    assert (a + b)[i..i + |pat|] == a[i..i + |pat|];
  }

  lemma {:induction false} CountAbsent(s: string, c: char)
    requires forall i | 0 <= i < |s| :: s[i] != c
    ensures Count(s, c) == 0
    decreases |s|
  {
    if s != [] {
      CountAbsent(s[1..], c);
    }
  }

  /** A string holds at least as many of each character as any pattern occurring in it. */
  lemma OccursCount(s: string, pat: string, i: int, c: char)
    requires OccursAt(s, pat, i)
    ensures Count(s, c) >= Count(pat, c)
  {
    assert s == s[..i] + pat + s[i + |pat|..];
    CountAppend(s[..i] + pat, s[i + |pat|..], c);
    CountAppend(s[..i], pat, c);
  }
}
