// UUIDs as the session cookie carries them: the RFC 4122 text form
// (8-4-4-4-12 lower-case hexadecimal digits) that `str(uuid)` writes, and
// the lenient reading `UUID(text)` performs on a cookie value.

module Uuids {
  import opened Types

  const Two128: nat := 0x1_0000_0000_0000_0000_0000_0000_0000_0000

  /** A 128-bit UUID, as the integer it encodes. */
  type Uuid = n: nat | n < Two128

  predicate IsHexDigit(c: char)
  {
    '0' <= c <= '9' || 'a' <= c <= 'f' || 'A' <= c <= 'F'
  }

  function HexDigitValue(c: char): (v: nat)
    requires IsHexDigit(c)
    ensures v < 16
  {
    if '0' <= c <= '9' then c as nat - '0' as nat
    else if 'a' <= c <= 'f' then c as nat - 'a' as nat + 10
    else c as nat - 'A' as nat + 10
  }

  function LowerHexDigit(v: nat): (c: char)
    requires v < 16
    ensures IsHexDigit(c) && HexDigitValue(c) == v
    ensures c != 'u' && c != '{' && c != '}' && c != '-' && c != '_' && c != 'x' && c != 'X' && c != '+'
  {
    if v < 10 then ('0' as nat + v) as char else ('a' as nat + v - 10) as char
  }

  predicate AllHex(s: string)
  {
    forall i :: 0 <= i < |s| ==> IsHexDigit(s[i])
  }

  function Pow16(k: nat): (r: nat)
    ensures r >= 1
  {
    if k == 0 then 1 else 16 * Pow16(k - 1)
  }

  /** The value of a string of hexadecimal digits, most significant first. */
  function HexValue(s: string): (v: nat)
    requires AllHex(s)
    ensures v < Pow16(|s|)
  {
    if |s| == 0 then 0 else HexValue(s[..|s| - 1]) * 16 + HexDigitValue(s[|s| - 1])
  }

  /** `v` written with exactly `k` lower-case hexadecimal digits. */
  function HexDigits(v: nat, k: nat): (s: string)
    requires v < Pow16(k)
    ensures |s| == k && AllHex(s)
    ensures forall i :: 0 <= i < |s| ==> s[i] != 'u' && s[i] != '{' && s[i] != '}' && s[i] != '-' && s[i] != '_'
    ensures forall i :: 0 <= i < |s| ==> s[i] != 'x' && s[i] != 'X' && s[i] != '+'
  {
    if k == 0 then [] else HexDigits(v / 16, k - 1) + [LowerHexDigit(v % 16)]
  }

  lemma {:induction false} HexRoundTrip(v: nat, k: nat)
    requires v < Pow16(k)
    ensures HexValue(HexDigits(v, k)) == v
  {
    if k > 0 {
      var s := HexDigits(v, k);
      assert s[..k - 1] == HexDigits(v / 16, k - 1);
      HexRoundTrip(v / 16, k - 1);
    }
  }

  lemma Pow16Of32()
    ensures Pow16(32) == Two128
  {
    assert Pow16(8) == 0x1_0000_0000;
    assert Pow16(16) == Pow16(8) * Pow16(8) by { Pow16Add(8, 8); }
    assert Pow16(32) == Pow16(16) * Pow16(16) by { Pow16Add(16, 16); }
  }

  lemma {:induction false} Pow16Add(a: nat, b: nat)
    ensures Pow16(a + b) == Pow16(a) * Pow16(b)
  {
    if b > 0 {
      Pow16Add(a, b - 1);
      assert Pow16(a + b) == 16 * Pow16(a + b - 1);
    }
  }

  /** 32 characters grouped 8-4-4-4-12 by hyphens. */
  function Hyphenate(h: string): (s: string)
    requires |h| == 32
    ensures |s| == 36
    ensures s[8] == '-' && s[13] == '-' && s[18] == '-' && s[23] == '-'
  {
    h[..8] + "-" + h[8..12] + "-" + h[12..16] + "-" + h[16..20] + "-" + h[20..]
  }

  /** `str(uuid)`: 32 lower-case digits grouped 8-4-4-4-12 by hyphens. */
  function Render(u: Uuid): (s: string)
    ensures |s| == 36
    ensures s[8] == '-' && s[13] == '-' && s[18] == '-' && s[23] == '-'
  {
    Pow16Of32();
    Hyphenate(HexDigits(u, 32))
  }

  // ---------------------------------------------------------------------
  // Reading: the steps of `UUID.__init__` on a string
  // ---------------------------------------------------------------------

  /** `s.replace(pat, '')`: occurrences removed left to right, without overlap. */
  function RemoveAll(s: string, pat: string): (r: string)
    requires |pat| > 0
    ensures |r| <= |s|
    decreases |s|
  {
    if |s| < |pat| then s
    else if s[..|pat|] == pat then RemoveAll(s[|pat|..], pat)
    else [s[0]] + RemoveAll(s[1..], pat)
  }

  /** A pattern whose first character never occurs is never removed. */
  lemma {:induction false} RemoveAbsent(s: string, pat: string)
    requires |pat| > 0
    requires forall i :: 0 <= i < |s| ==> s[i] != pat[0]
    ensures RemoveAll(s, pat) == s
    decreases |s|
  {
    if |s| >= |pat| {
      assert s[..|pat|][0] == s[0];
      RemoveAbsent(s[1..], pat);
      assert [s[0]] + s[1..] == s;
    }
  }

  predicate IsBrace(c: char)
  {
    c == '{' || c == '}'
  }

  /** `s.strip('{}')`: braces removed from both ends. */
  function StripBraces(s: string): (r: string)
    ensures |r| <= |s|
    decreases |s|
  {
    if |s| > 0 && IsBrace(s[0]) then StripBraces(s[1..])
    else if |s| > 0 && IsBrace(s[|s| - 1]) then StripBraces(s[..|s| - 1])
    else s
  }

  predicate IsSpace(c: char)
  {
    c == ' ' || c == '\t' || c == '\n' || c == '\r' || c == '\U{000B}' || c == '\U{000C}'
  }

  /** Surrounding whitespace removed, as `int()` does before reading digits. */
  function StripSpace(s: string): (r: string)
    ensures |r| <= |s|
    decreases |s|
  {
    if |s| > 0 && IsSpace(s[0]) then StripSpace(s[1..])
    else if |s| > 0 && IsSpace(s[|s| - 1]) then StripSpace(s[..|s| - 1])
    else s
  }

  /** The characters of `s` other than `c`. */
  function Without(s: string, c: char): (r: string)
    ensures |r| <= |s|
    ensures forall i :: 0 <= i < |r| ==> r[i] != c
  {
    if |s| == 0 then [] else (if s[0] == c then [] else [s[0]]) + Without(s[1..], c)
  }

  lemma {:induction false} WithoutAbsent(s: string, c: char)
    requires forall i :: 0 <= i < |s| ==> s[i] != c
    ensures Without(s, c) == s
  {
    if |s| > 0 {
      WithoutAbsent(s[1..], c);
      assert [s[0]] + s[1..] == s;
    }
  }

  /** Hexadecimal digits with single underscores between them, as `int(..., 16)` allows. */
  predicate DigitGroups(s: string)
  {
    && |s| > 0 && IsHexDigit(s[0]) && IsHexDigit(s[|s| - 1])
    && (forall i :: 0 <= i < |s| ==> IsHexDigit(s[i]) || s[i] == '_')
    && (forall i :: 0 <= i < |s| - 1 ==> !(s[i] == '_' && s[i + 1] == '_'))
  }

  lemma WithoutUnderscoreIsHex(s: string)
    requires forall i :: 0 <= i < |s| ==> IsHexDigit(s[i]) || s[i] == '_'
    ensures AllHex(Without(s, '_'))
    decreases |s|
  {
    if |s| > 0 {
      WithoutUnderscoreIsHex(s[1..]);
    }
  }

  /**
   * `int(s, 16)` on a string with no minus sign: surrounding whitespace,
   * an optional plus sign and an optional `0x` prefix (which may be
   * followed by one underscore), then digit groups.
   */
  function ParseHexInt(s: string): (r: Option<nat>)
  {
    var t := StripSpace(s);
    var unsigned := if |t| > 0 && t[0] == '+' then t[1..] else t;
    var hasPrefix := |unsigned| >= 2 && unsigned[0] == '0' && (unsigned[1] == 'x' || unsigned[1] == 'X');
    var body := if hasPrefix then unsigned[2..] else unsigned;
    var digits := if hasPrefix && |body| > 0 && body[0] == '_' then body[1..] else body;
    if DigitGroups(digits) then
      WithoutUnderscoreIsHex(digits);
      Some(HexValue(Without(digits, '_')))
    else None
  }

  /** The hexadecimal text `UUID()` hands to `int()`, or None when it is not 32 characters long. */
  function UuidHex(s: string): (r: Option<string>)
    ensures r.Some? ==> |r.value| == 32
  {
    var hex := StripBraces(RemoveAll(RemoveAll(s, "urn:"), "uuid:"));
    var compact := Without(hex, '-');
    if |compact| == 32 then Some(compact) else None
  }

  /** `UUID(s)`: None where it raises ValueError. */
  function ParseUuid(s: string): (r: Option<Uuid>)
    ensures r.Some? ==> UuidHex(s).Some? && ParseHexInt(UuidHex(s).value) == Some(r.value as nat)
    ensures UuidHex(s).None? ==> r.None?
  {
    match UuidHex(s)
    case None => None
    case Some(hex) =>
      match ParseHexInt(hex)
      case None => None
      case Some(v) => if v < Two128 then Some(v) else None
  }

  /** Every character of the grouped text is a hyphen or one of the grouped characters. */
  lemma HyphenateChars(h: string)
    requires |h| == 32
    ensures forall i :: 0 <= i < 36 ==> Hyphenate(h)[i] == '-' || Hyphenate(h)[i] in h
  {
    var s := Hyphenate(h);
    forall i | 0 <= i < 36
      ensures s[i] == '-' || s[i] in h
    {
      if i < 8 { assert s[i] == h[i]; }
      else if 8 < i < 13 { assert s[i] == h[i - 1]; }
      else if 13 < i < 18 { assert s[i] == h[i - 2]; }
      else if 18 < i < 23 { assert s[i] == h[i - 3]; }
      else if 23 < i { assert s[i] == h[i - 4]; }
    }
  }

  /** Appending a hyphen and a hyphen-free part adds just that part once hyphens are dropped. */
  lemma WithoutHyphenStep(a: string, b: string)
    requires forall i :: 0 <= i < |b| ==> b[i] != '-'
    ensures Without(a + "-" + b, '-') == Without(a, '-') + b
  {
    var x := a + "-";
    WithoutAppend(x, b, '-');
    WithoutAppend(a, "-", '-');
    assert Without("-", '-') == [];
    assert Without(x, '-') == Without(a, '-');
    WithoutAbsent(b, '-');
  }

  /** Dropping the hyphens of the grouped text gives back the 32 characters. */
  lemma HyphenateCompact(h: string)
    requires |h| == 32
    requires forall i :: 0 <= i < |h| ==> h[i] != '-'
    ensures Without(Hyphenate(h), '-') == h
  {
    var p1, p2, p3, p4, p5 := h[..8], h[8..12], h[12..16], h[16..20], h[20..];
    WithoutAbsent(p1, '-');
    WithoutHyphenStep(p1, p2);
    WithoutHyphenStep(p1 + "-" + p2, p3);
    WithoutHyphenStep(p1 + "-" + p2 + "-" + p3, p4);
    WithoutHyphenStep(p1 + "-" + p2 + "-" + p3 + "-" + p4, p5);
    assert p1 + p2 + p3 + p4 + p5 == h;
  }

  /** What `str` writes, `UUID` reads back. */
  lemma ParseRender(u: Uuid)
    ensures ParseUuid(Render(u)) == Some(u)
  {
    Pow16Of32();
    var h := HexDigits(u, 32);
    HyphenatedReadsBack(h);
    PlainHexParses(h);
    HexRoundTrip(u, 32);
  }

  /** Grouped digits with no prefix letter, brace or hyphen among them read back as those digits. */
  lemma HyphenatedReadsBack(h: string)
    requires |h| == 32
    requires forall i :: 0 <= i < |h| ==> h[i] != 'u' && h[i] != '{' && h[i] != '}' && h[i] != '-'
    ensures UuidHex(Hyphenate(h)) == Some(h)
  {
    var s := Hyphenate(h);
    HyphenateChars(h);
    assert forall i :: 0 <= i < |s| ==> s[i] != 'u' && s[i] != '{' && s[i] != '}';
    RemoveAbsent(s, "urn:");
    RemoveAbsent(s, "uuid:");
    assert !IsBrace(s[0]) && !IsBrace(s[|s| - 1]);
    assert StripBraces(s) == s;
    HyphenateCompact(h);
  }

  /** A plain run of hexadecimal digits reads as its value. */
  lemma PlainHexParses(h: string)
    requires |h| > 0 && AllHex(h)
    ensures ParseHexInt(h) == Some(HexValue(h))
  {
    HexHasNoSpace(h);
    HexIsOneGroup(h);
    assert |h| >= 2 ==> h[1] != 'x' && h[1] != 'X';
    UnprefixedParses(h);
  }

  /** Hexadecimal text with no surrounding space, sign, `0x` prefix or underscore is read as its value. */
  lemma UnprefixedParses(s: string)
    requires |s| > 0 && AllHex(s) && StripSpace(s) == s && DigitGroups(s)
    requires forall i :: 0 <= i < |s| ==> s[i] != '_'
    requires !(|s| >= 2 && s[0] == '0' && (s[1] == 'x' || s[1] == 'X'))
    ensures ParseHexInt(s) == Some(HexValue(s))
  {
    WithoutAbsent(s, '_');
  }

  lemma HexHasNoSpace(h: string)
    requires |h| > 0 && AllHex(h)
    ensures StripSpace(h) == h
  {
    assert !IsSpace(h[0]) && !IsSpace(h[|h| - 1]);
  }

  lemma HexIsOneGroup(h: string)
    requires |h| > 0 && AllHex(h)
    ensures DigitGroups(h)
    ensures forall i :: 0 <= i < |h| ==> h[i] != '_'
  {
  }

  lemma {:induction false} WithoutAppend(a: string, b: string, c: char)
    ensures Without(a + b, c) == Without(a, c) + Without(b, c)
  {
    if |a| > 0 {
      assert (a + b)[1..] == a[1..] + b;
      WithoutAppend(a[1..], b, c);
    } else {
      assert a + b == b;
    }
  }
}
