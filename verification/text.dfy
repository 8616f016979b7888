/** String operations the application relies on: lower-casing, substring
    search, whitespace stripping and decimal rendering of integers. */
module Text {
  import opened Wrappers
  import opened Seqs

  // ---------------------------------------------------------------- case

  /** ASCII upper-case letters map to lower case; every other character is kept. */
  function LowerChar(c: char): char {
    if 'A' <= c <= 'Z' then (c as int + 32) as char else c
  }

  /** `str.lower()` restricted to ASCII letters. */
  function Lower(s: string): (r: string)
    ensures |r| == |s|
    ensures forall i :: 0 <= i < |s| ==> r[i] == LowerChar(s[i])
  {
    if s == [] then [] else [LowerChar(s[0])] + Lower(s[1..])
  }

  // ----------------------------------------------------------- substring

  /** `needle` occurs somewhere in `hay` (the meaning of Python's `needle in hay`). */
  predicate IsInfix(needle: string, hay: string) {
    exists i :: 0 <= i <= |hay| && needle <= hay[i..]
  }

  /** A character of `needle` that never appears in `hay` rules out a match. */
  lemma MissingCharNoMatch(hay: string, needle: string, c: char)
    requires c in needle && c !in hay
    ensures !Contains(hay, needle)
  {
    ContainsIffInfix(hay, needle);
  }

  /** `hay` begins with `needle`, compared character by character. */
  function StartsWith(hay: string, needle: string): bool {
    needle == [] || (hay != [] && hay[0] == needle[0] && StartsWith(hay[1..], needle[1..]))
  }

  lemma {:induction false} StartsWithIffPrefix(hay: string, needle: string)
    ensures StartsWith(hay, needle) <==> needle <= hay
  {
    if needle != [] && hay != [] {
      StartsWithIffPrefix(hay[1..], needle[1..]);
      if hay[0] == needle[0] && needle[1..] <= hay[1..] {
        assert needle == [needle[0]] + needle[1..];
      }
    }
  }

  /** Left-to-right search: `needle` begins `hay` or one of its suffixes. */
  function Contains(hay: string, needle: string): bool
    decreases |hay|
  {
    if StartsWith(hay, needle) then true
    else if hay == [] then false
    else Contains(hay[1..], needle)
  }

  /** The search finds `needle` exactly when it occurs in `hay`. */
  lemma {:induction false} ContainsIffInfix(hay: string, needle: string)
    ensures Contains(hay, needle) <==> IsInfix(needle, hay)
    decreases |hay|
  {
    StartsWithIffPrefix(hay, needle);
    if needle <= hay {
      assert hay[0..] == hay;
    } else if hay != [] {
      ContainsIffInfix(hay[1..], needle);
      if IsInfix(needle, hay) {
        var i :| 0 <= i <= |hay| && needle <= hay[i..];
        assert i != 0 by { assert hay[0..] == hay; }
        assert hay[1..][i - 1..] == hay[i..];
      }
      if IsInfix(needle, hay[1..]) {
        var i :| 0 <= i <= |hay[1..]| && needle <= hay[1..][i..];
        assert hay[1..][i..] == hay[i + 1..];
      }
    } else {
      assert forall i :: 0 <= i <= |hay| ==> hay[i..] == [];
    }
  }

  // --------------------------------------------------------- whitespace

  /** Python's `str.isspace()` for a single character: the ASCII separators
      and the Unicode space characters. */
  predicate IsSpace(c: char) {
    var n := c as int;
    (9 <= n <= 13) || (28 <= n <= 32) || n == 0x85 || n == 0xA0 || n == 0x1680
    || (0x2000 <= n <= 0x200A) || n == 0x2028 || n == 0x2029 || n == 0x202F
    || n == 0x205F || n == 0x3000
  }

  /** Every character is whitespace (also true of the empty string). */
  predicate IsBlank(s: string) {
    forall i :: 0 <= i < |s| ==> IsSpace(s[i])
  }

  /** Removes leading whitespace. */
  function StripLeft(s: string): (r: string)
    ensures |r| <= |s| && r == s[|s| - |r|..]
    ensures IsBlank(s[..|s| - |r|])
    ensures r != [] ==> !IsSpace(r[0])
  {
    var r := TrimLeft(s, IsSpace);
    assert forall i :: 0 <= i < |s| - |r| ==> s[..|s| - |r|][i] == s[i];
    r
  }

  /** Removes trailing whitespace. */
  function StripRight(s: string): (r: string)
    ensures |r| <= |s| && r == s[..|r|]
    ensures IsBlank(s[|r|..])
    ensures r != [] ==> !IsSpace(r[|r| - 1])
  {
    var r := TrimRight(s, IsSpace);
    assert forall i :: 0 <= i < |s| - |r| ==> s[|r|..][i] == s[|r| + i];
    r
  }

  /** `str.strip()`: the infix of `s` left after removing whitespace at both ends. */
  function Strip(s: string): (r: string)
    ensures exists i, j :: 0 <= i <= j <= |s| && r == s[i..j] && IsBlank(s[..i]) && IsBlank(s[j..])
    ensures r != [] ==> !IsSpace(r[0]) && !IsSpace(r[|r| - 1])
  {
    var t := StripLeft(s);
    var r := StripRight(t);
    StripBounds(s, t, r);
    r
  }

  lemma StripBounds(s: string, t: string, r: string)
    requires |t| <= |s| && t == s[|s| - |t|..] && IsBlank(s[..|s| - |t|])
    requires t != [] ==> !IsSpace(t[0])
    requires |r| <= |t| && r == t[..|r|] && IsBlank(t[|r|..])
    requires r != [] ==> !IsSpace(r[|r| - 1])
    ensures exists i, j :: 0 <= i <= j <= |s| && r == s[i..j] && IsBlank(s[..i]) && IsBlank(s[j..])
    ensures r != [] ==> !IsSpace(r[0]) && !IsSpace(r[|r| - 1])
  {
    var i := |s| - |t|;
    InfixOfSuffix(s, t, r);
    assert IsBlank(s[i + |r|..]);
    if r != [] {
      assert r[0] == t[0];
    }
  }

  /** A prefix `r` of a suffix `t` of `s` sits at `|s| - |t|`. */
  lemma InfixOfSuffix(s: string, t: string, r: string)
    requires |t| <= |s| && t == s[|s| - |t|..] && |r| <= |t| && r == t[..|r|]
    ensures r == s[|s| - |t|..|s| - |t| + |r|]
    ensures s[|s| - |t| + |r|..] == t[|r|..]
  {
  }

  /** Stripping leaves nothing exactly when the text is entirely whitespace. */
  lemma StripEmptyIffBlank(s: string)
    ensures Strip(s) == [] <==> IsBlank(s)
  {
    var t := StripLeft(s);
    if Strip(s) == [] {
      assert IsBlank(t[0..]);
      assert s == s[..|s| - |t|] + t;
    }
  }

  /** Stripping twice strips nothing more. */
  lemma StripIdempotent(s: string)
    ensures Strip(Strip(s)) == Strip(s)
  {
    var r := Strip(s);
    if r != [] {
      assert StripLeft(r) == r;
      assert StripRight(r) == r;
    }
  }

  /** Python truthiness of an optional form value followed by `.strip()`:
      `text and text.strip()`. */
  predicate HasContent(text: Option<string>) {
    text.Some? && text.value != [] && Strip(text.value) != []
  }

  // ------------------------------------------------------- int rendering

  /** The decimal digit for `d`. */
  function DigitChar(d: nat): char
    requires d < 10
  {
    ('0' as int + d) as char
  }

  predicate IsDigit(c: char) { '0' <= c <= '9' }

  /** Decimal digits of `n`, most significant first, no leading zeros. */
  function NatToString(n: nat): (r: string)
    ensures |r| > 0
    ensures forall i :: 0 <= i < |r| ==> IsDigit(r[i])
  {
    if n < 10 then [DigitChar(n)] else NatToString(n / 10) + [DigitChar(n % 10)]
  }

  /** Python's `str(n)` for an integer. */
  function IntToString(n: int): (r: string)
    ensures |r| > 0
    ensures forall i :: 0 <= i < |r| ==> IsDigit(r[i]) || r[i] == '-'
  {
    if n < 0 then "-" + NatToString(-n) else NatToString(n)
  }

  /** Reads a string of decimal digits. */
  function ParseNat(s: string): nat
    requires forall i :: 0 <= i < |s| ==> IsDigit(s[i])
  {
    if s == [] then 0
    else
      assert IsDigit(s[|s| - 1]);
      ParseNat(s[..|s| - 1]) * 10 + (s[|s| - 1] as int - '0' as int)
  }

  /** A decimal integer: an optional leading minus, then digits only. */
  lemma IntShape(n: int)
    ensures IsDigit(IntToString(n)[0]) || IntToString(n)[0] == '-'
    ensures forall i :: 0 < i < |IntToString(n)| ==> IsDigit(IntToString(n)[i])
  {
    if n < 0 {
      assert IntToString(n) == "-" + NatToString(-n);
    }
  }

  /** Reads an optionally negative decimal integer. */
  function ParseInt(s: string): int
    requires |s| > 0
    requires forall i :: 0 < i < |s| ==> IsDigit(s[i])
    requires IsDigit(s[0]) || s[0] == '-'
  {
    if s[0] == '-' then -(ParseNat(s[1..]) as int) else ParseNat(s)
  }

  lemma {:induction false} NatRoundTrip(n: nat)
    ensures ParseNat(NatToString(n)) == n
  {
    if n >= 10 {
      var s := NatToString(n);
      NatRoundTrip(n / 10);
      assert s[..|s| - 1] == NatToString(n / 10);
    }
  }

  /** Reading back the decimal rendering of an integer yields the integer. */
  lemma IntRoundTrip(n: int)
    ensures ParseInt(IntToString(n)) == n
  {
    if n < 0 {
      NatRoundTrip(-n);
      assert IntToString(n)[1..] == NatToString(-n);
    } else {
      NatRoundTrip(n);
    }
  }

  /** Different integers render differently. */
  lemma IntToStringInjective(a: int, b: int)
    requires IntToString(a) == IntToString(b)
    ensures a == b
  {
    IntRoundTrip(a);
    IntRoundTrip(b);
  }

  /** `f"{a}_{b}"`: two integers joined by an underscore. */
  function PairId(a: int, b: int): (r: string)
    ensures '_' in r
  {
    IntToString(a) + "_" + IntToString(b)
  }

  /** Joining at a separator absent from the left parts is injective. */
  lemma {:induction false} SplitAtSeparator(p: string, q: string, p2: string, q2: string, sep: char)
    requires sep !in p && sep !in p2
    requires p + [sep] + q == p2 + [sep] + q2
    ensures p == p2 && q == q2
    decreases |p|
  {
    var s := p + [sep] + q;
    var s2 := p2 + [sep] + q2;
    if p == [] || p2 == [] {
      assert s[0] == s2[0];
      assert p == [] && p2 == [];
      assert q == s[1..] && q2 == s2[1..];
    } else {
      assert s[0] == s2[0];
      assert s[1..] == p[1..] + [sep] + q;
      assert s2[1..] == p2[1..] + [sep] + q2;
      SplitAtSeparator(p[1..], q, p2[1..], q2, sep);
      assert p == [p[0]] + p[1..] && p2 == [p2[0]] + p2[1..];
    }
  }

  /** No decimal rendering contains an underscore. */
  lemma NoUnderscore(n: int)
    ensures '_' !in IntToString(n)
  {
  }

  /** The joined identifier determines both integers. */
  lemma PairIdInjective(a: int, b: int, c: int, d: int)
    requires PairId(a, b) == PairId(c, d)
    ensures a == c && b == d
  {
    NoUnderscore(a);
    NoUnderscore(c);
    SplitAtSeparator(IntToString(a), IntToString(b), IntToString(c), IntToString(d), '_');
    IntToStringInjective(a, c);
    IntToStringInjective(b, d);
  }
}
