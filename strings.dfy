/**
 * The JavaScript string and number primitives the application relies on:
 * `trim`, the `\s` character class, `toUpperCase` (ASCII letters), `slice`,
 * `padStart` with zeros, `String(n)` on integers, `parseInt(s, 10)` and the
 * `isNaN(s)` test on strings.
 */
module Strings {
  import opened Wrappers

  /** The WhiteSpace and LineTerminator code points: what `trim` removes and what `\s` matches. */
  predicate IsSpace(c: char) {
    || c == ' ' || c == '\t' || c == '\n' || c == '\U{B}' || c == '\U{C}' || c == '\r'
    || c == '\U{A0}' || c == '\U{1680}' || ('\U{2000}' <= c <= '\U{200A}')
    || c == '\U{2028}' || c == '\U{2029}' || c == '\U{202F}' || c == '\U{205F}'
    || c == '\U{3000}' || c == '\U{FEFF}'
  }

  /** Every character is white space (so `s.trim()` is the empty, falsy string). */
  predicate IsBlank(s: string) {
    forall i :: 0 <= i < |s| ==> IsSpace(s[i])
  }

  predicate NoSpace(s: string) {
    forall i :: 0 <= i < |s| ==> !IsSpace(s[i])
  }

  /** `s.trimStart()`: drops the leading white space and nothing else. */
  function TrimStart(s: string): (r: string)
    ensures |r| <= |s|
  {
    if s != [] && IsSpace(s[0]) then TrimStart(s[1..]) else s
  }

  /** What `trimStart` keeps: a suffix that does not start with white space, after a blank prefix. */
  lemma {:induction false} TrimStartShape(s: string)
    ensures var r := TrimStart(s);
      && r == s[|s| - |r|..] && IsBlank(s[..|s| - |r|]) && (r == [] || !IsSpace(r[0]))
    decreases |s|
  {
    if s != [] && IsSpace(s[0]) {
      TrimStartShape(s[1..]);
      var r := TrimStart(s[1..]);
      assert s[..|s| - |r|] == [s[0]] + s[1..][..|s| - 1 - |r|];
    }
  }

  /** `s.trimEnd()`: drops the trailing white space and nothing else. */
  function TrimEnd(s: string): (r: string)
    ensures |r| <= |s|
  {
    if s != [] && IsSpace(s[|s| - 1]) then TrimEnd(s[..|s| - 1]) else s
  }

  /** What `trimEnd` keeps: a prefix that does not end with white space, before a blank suffix. */
  lemma {:induction false} TrimEndShape(s: string)
    ensures var r := TrimEnd(s);
      && r == s[..|r|] && IsBlank(s[|r|..]) && (r == [] || !IsSpace(r[|r| - 1]))
    decreases |s|
  {
    if s != [] && IsSpace(s[|s| - 1]) {
      TrimEndShape(s[..|s| - 1]);
      var r := TrimEnd(s[..|s| - 1]);
      assert s[|r|..] == s[..|s| - 1][|r|..] + [s[|s| - 1]];
    }
  }

  /** `s.trim()`. */
  function Trim(s: string): string {
    TrimEnd(TrimStart(s))
  }

  /** Neither end is white space: what a string looks like after `trim`. */
  predicate Trimmed(s: string) {
    s == [] || (!IsSpace(s[0]) && !IsSpace(s[|s| - 1]))
  }

  /** The trimmed string is a slice of the input whose cut-off ends are white space. */
  lemma TrimIsSlice(s: string)
    ensures var r := Trim(s); var a := |s| - |TrimStart(s)|;
      && a + |r| <= |s| && r == s[a..a + |r|]
      && IsBlank(s[..a]) && IsBlank(s[a + |r|..])
      && Trimmed(r)
  {
    var t := TrimStart(s);
    var r := TrimEnd(t);
    TrimStartShape(s);
    TrimEndShape(t);
    TrimEnds(t);
    assert s[|s| - |t| + |r|..] == t[|r|..];
  }

  /** Trimming the end of a string without leading white space leaves neither end white. */
  lemma TrimEnds(t: string)
    requires t == [] || !IsSpace(t[0])
    ensures Trimmed(TrimEnd(t))
  {
    var r := TrimEnd(t);
    TrimEndShape(t);
    if r != [] {
      assert r[0] == t[0];
    }
  }

  /** `s.trim()` is empty exactly when `s` is all white space. */
  lemma TrimEmptyIffBlank(s: string)
    ensures Trim(s) == [] <==> IsBlank(s)
  {
    TrimIsSlice(s);
    var a := |s| - |TrimStart(s)|;
    if Trim(s) == [] {
      assert s == s[..a] + s[a..];
    } else {
      assert !IsSpace(s[a]);
    }
  }

  lemma TrimStartNoLead(s: string)
    requires s == [] || !IsSpace(s[0])
    ensures TrimStart(s) == s
  {
  }

  lemma TrimEndNoTrail(s: string)
    requires s == [] || !IsSpace(s[|s| - 1])
    ensures TrimEnd(s) == s
  {
  }

  /** Trimming twice is trimming once. */
  lemma TrimIdempotent(s: string)
    ensures Trim(Trim(s)) == Trim(s)
  {
    TrimIsSlice(s);
    var r := Trim(s);
    TrimStartNoLead(r);
    TrimEndNoTrail(r);
  }

  /** `trim` produces a trimmed string and leaves a trimmed one alone. */
  lemma TrimmedMeaning(s: string)
    ensures Trimmed(Trim(s))
    ensures Trimmed(s) <==> Trim(s) == s
  {
    TrimIsSlice(s);
    var r := Trim(s);
    TrimStartNoLead(r);
    if Trimmed(s) {
      TrimStartNoLead(s);
      TrimEndNoTrail(s);
    }
  }

  /** `s[..n]` in the sense of `s.slice(0, n)`: at most `n` characters, never an error. */
  function Take(s: string, n: nat): (r: string)
    ensures |r| == if |s| < n then |s| else n
    ensures r == s[..|r|]
  {
    if |s| <= n then s else s[..n]
  }

  /** `s.replace(/\s+/g, "-")`: every maximal run of white space becomes one "-". */
  function DashRuns(s: string): (r: string)
    ensures |r| <= |s|
    decreases |s|
  {
    if s == [] then []
    else if IsSpace(s[0]) then "-" + DashRuns(TrimStart(s))
    else [s[0]] + DashRuns(s[1..])
  }

  /** The replacement leaves no white space behind. */
  lemma {:induction false} DashRunsNoSpace(s: string)
    ensures NoSpace(DashRuns(s))
    decreases |s|
  {
    if s == [] {
    } else if IsSpace(s[0]) {
      DashRunsNoSpace(TrimStart(s));
      assert !IsSpace('-');
    } else {
      DashRunsNoSpace(s[1..]);
    }
  }

  /** A string without white space is left alone. */
  lemma {:induction false} DashRunsIdentity(s: string)
    requires NoSpace(s)
    ensures DashRuns(s) == s
  {
    if s != [] {
      DashRunsIdentity(s[1..]);
    }
  }

  /** Empty in, empty out; non-empty in, non-empty out. */
  lemma DashRunsEmpty(s: string)
    ensures DashRuns(s) == [] <==> s == []
  {
  }

  /** An ASCII letter's upper case; every other character is left as it is. */
  function UpperChar(c: char): (u: char)
    ensures IsSpace(u) <==> IsSpace(c)
  {
    if 'a' <= c <= 'z' then (c as int - 32) as char else c
  }

  /** `s.toUpperCase()` restricted to ASCII case mapping. */
  function ToUpper(s: string): (r: string)
    ensures |r| == |s|
    ensures forall i :: 0 <= i < |s| ==> r[i] == UpperChar(s[i])
  {
    seq(|s|, i requires 0 <= i < |s| => UpperChar(s[i]))
  }

  // ---------------------------------------------------------------------
  // Numbers as text.
  // ---------------------------------------------------------------------

  predicate IsDigit(c: char) {
    '0' <= c <= '9'
  }

  predicate AllDigits(s: string) {
    forall i :: 0 <= i < |s| ==> IsDigit(s[i])
  }

  function DigitChar(d: nat): (c: char)
    requires d < 10
    ensures IsDigit(c) && c as int - '0' as int == d
  {
    ('0' as int + d) as char
  }

  function DigitValue(c: char): nat
    requires IsDigit(c)
  {
    c as int - '0' as int
  }

  /** The decimal value of a string of digits (leading zeros allowed). */
  function DigitsValue(s: string): nat
    requires AllDigits(s)
  {
    if s == [] then 0 else DigitsValue(s[..|s| - 1]) * 10 + DigitValue(s[|s| - 1])
  }

  /** `String(n)` for a natural number: its decimal digits, no leading zero. */
  function NatToString(n: nat): (r: string)
    ensures |r| >= 1 && AllDigits(r)
    ensures |r| > 1 ==> r[0] != '0'
  {
    if n < 10 then [DigitChar(n)] else NatToString(n / 10) + [DigitChar(n % 10)]
  }

  /** `String(n)` for an integer: a minus sign for negative numbers. */
  function IntToString(n: int): string {
    if n < 0 then "-" + NatToString(-n) else NatToString(n)
  }

  /** `s.padStart(width, "0")`: zeros on the left up to `width`; a longer `s` is not truncated. */
  function PadZeros(s: string, width: nat): (r: string)
    ensures |r| == if |s| < width then width else |s|
    ensures r[|r| - |s|..] == s
    ensures forall i :: 0 <= i < |r| - |s| ==> r[i] == '0'
  {
    if |s| >= width then s else seq(width - |s|, _ => '0') + s
  }

  /** The longest prefix of decimal digits. */
  function DigitPrefix(s: string): (r: string)
    ensures |r| <= |s| && AllDigits(r) && r == s[..|r|]
    ensures |r| < |s| ==> !IsDigit(s[|r|])
  {
    if s != [] && IsDigit(s[0]) then
      var r := DigitPrefix(s[1..]);
      assert [s[0]] + r == s[..|r| + 1];
      [s[0]] + r
    else []
  }

  /**
   * `parseInt(s, 10)`: leading white space, an optional sign, then the longest run of
   * digits; `None` stands for `NaN` (no digit at all).
   */
  function ParseInt(s: string): Option<int> {
    var t := TrimStart(s);
    var neg := t != [] && t[0] == '-';
    var body := if t != [] && (t[0] == '-' || t[0] == '+') then t[1..] else t;
    var d := DigitPrefix(body);
    var v: int := if d == [] then 0 else DigitsValue(d);
    if d == [] then None else if neg then Some(-v) else Some(v)
  }

  /** Leading zeros do not change the value of a digit string. */
  lemma {:induction false} LeadingZerosValue(k: nat, d: string)
    requires AllDigits(d)
    ensures AllDigits(seq(k, _ => '0') + d)
    ensures DigitsValue(seq(k, _ => '0') + d) == DigitsValue(d)
    decreases |d|, k
  {
    var z: string := seq(k, _ => '0');
    if d == [] {
      assert z + d == z;
      if k > 0 {
        assert z[..k - 1] == seq(k - 1, _ => '0');
        LeadingZerosValue(k - 1, []);
        assert seq(k - 1, _ => '0') + [] == seq(k - 1, _ => '0');
      }
    } else {
      var d' := d[..|d| - 1];
      assert (z + d)[..|z + d| - 1] == z + d';
      LeadingZerosValue(k, d');
    }
  }

  /** The digits of `String(n)` read back as `n`. */
  lemma {:induction false} NatToStringValue(n: nat)
    ensures DigitsValue(NatToString(n)) == n
  {
    if n >= 10 {
      var s := NatToString(n);
      assert s[..|s| - 1] == NatToString(n / 10);
      NatToStringValue(n / 10);
    }
  }

  lemma {:induction false} DigitPrefixAll(s: string)
    requires AllDigits(s)
    ensures DigitPrefix(s) == s
  {
    if s != [] {
      DigitPrefixAll(s[1..]);
    }
  }

  /** PadZeros only ever prepends zeros. */
  lemma PadZerosShape(s: string, width: nat)
    ensures PadZeros(s, width) == seq(|PadZeros(s, width)| - |s|, _ => '0') + s
  {
    var r := PadZeros(s, width);
    assert r == r[..|r| - |s|] + r[|r| - |s|..];
  }

  /**
   * Round trip used by the item form: the zero-padded decimal code of a sequence
   * number is read back by `parseInt` as that number.
   */
  lemma ParsePaddedNat(n: nat, width: nat)
    ensures ParseInt(PadZeros(NatToString(n), width)) == Some(n)
  {
    var p := PadZeros(NatToString(n), width);
    PaddedDigits(NatToString(n), width);
    PaddedValue(n, width);
    ParseAllDigits(p);
  }

  /** Padding a digit string keeps it a digit string. */
  lemma PaddedDigits(s: string, width: nat)
    requires AllDigits(s)
    ensures AllDigits(PadZeros(s, width))
  {
    var p := PadZeros(s, width);
    forall i | 0 <= i < |p|
      ensures IsDigit(p[i])
    {
      if i >= |p| - |s| {
        assert p[i] == p[|p| - |s|..][i - (|p| - |s|)];
      }
    }
  }

  /** The padded decimal text of `n` has the value `n`. */
  lemma PaddedValue(n: nat, width: nat)
    ensures DigitsValue(PadZeros(NatToString(n), width)) == n
  {
    var s := NatToString(n);
    var p := PadZeros(s, width);
    PadZerosShape(s, width);
    LeadingZerosValue(|p| - |s|, s);
    NatToStringValue(n);
  }

  /** `parseInt` of a non-empty digit string is its value. */
  lemma ParseAllDigits(p: string)
    requires p != [] && AllDigits(p)
    ensures ParseInt(p) == Some(DigitsValue(p))
  {
    TrimStartNoLead(p);
    DigitPrefixAll(p);
  }

  /** A padded decimal code determines its number: distinct numbers get distinct codes. */
  lemma PaddedNatInjective(a: nat, b: nat, width: nat)
    ensures a != b ==> PadZeros(NatToString(a), width) != PadZeros(NatToString(b), width)
  {
    ParsePaddedNat(a, width);
    ParsePaddedNat(b, width);
  }

  // ---------------------------------------------------------------------
  // `parseInt(s)` without a radix: a `0x` prefix selects base 16.
  // ---------------------------------------------------------------------

  predicate IsHexDigit(c: char) {
    IsDigit(c) || 'a' <= c <= 'f' || 'A' <= c <= 'F'
  }

  predicate AllHexDigits(s: string) {
    forall i :: 0 <= i < |s| ==> IsHexDigit(s[i])
  }

  function HexDigitValue(c: char): (v: nat)
    requires IsHexDigit(c)
    ensures v < 16
  {
    if IsDigit(c) then DigitValue(c)
    else if 'a' <= c <= 'f' then c as int - 'a' as int + 10
    else c as int - 'A' as int + 10
  }

  /** The base-16 value of a string of hexadecimal digits. */
  function HexValue(s: string): nat
    requires AllHexDigits(s)
  {
    if s == [] then 0 else HexValue(s[..|s| - 1]) * 16 + HexDigitValue(s[|s| - 1])
  }

  /** The longest prefix of hexadecimal digits. */
  function HexPrefix(s: string): (r: string)
    ensures |r| <= |s| && AllHexDigits(r) && r == s[..|r|]
    ensures |r| < |s| ==> !IsHexDigit(s[|r|])
  {
    if s != [] && IsHexDigit(s[0]) then
      var r := HexPrefix(s[1..]);
      assert [s[0]] + r == s[..|r| + 1];
      [s[0]] + r
    else []
  }

  lemma {:induction false} HexPrefixAll(s: string)
    requires AllHexDigits(s)
    ensures HexPrefix(s) == s
  {
    if s != [] {
      HexPrefixAll(s[1..]);
    }
  }

  /** What `parseInt` reads after the leading white space and one optional sign. */
  function SignBody(s: string): string {
    var t := TrimStart(s);
    if t != [] && (t[0] == '-' || t[0] == '+') then t[1..] else t
  }

  predicate HexPrefixed(b: string) {
    |b| >= 2 && b[0] == '0' && (b[1] == 'x' || b[1] == 'X')
  }

  /**
   * `parseInt(s)` with no radix: `parseInt(s, 10)`, except that `0x` or `0X` after the sign
   * makes the digits that follow hexadecimal (`NaN` when there are none).
   */
  function ParseIntAuto(s: string): (r: Option<int>)
    ensures !HexPrefixed(SignBody(s)) ==> r == ParseInt(s)
    ensures HexPrefixed(SignBody(s)) ==> (r.None? <==> HexPrefix(SignBody(s)[2..]) == [])
  {
    var t := TrimStart(s);
    var body := SignBody(s);
    if HexPrefixed(body) then
      var h := HexPrefix(body[2..]);
      var v: int := if h == [] then 0 else HexValue(h);
      if h == [] then None
      else if t[0] == '-' then Some(-v)
      else Some(v)
    else ParseInt(s)
  }

  /** A `0x` literal reads as its base-16 value, negated after a minus sign. */
  lemma ParseIntAutoHex(h: string)
    requires h != [] && AllHexDigits(h)
    ensures ParseIntAuto("0x" + h) == Some(HexValue(h))
    ensures ParseIntAuto("-0x" + h) == Some(-(HexValue(h) as int))
  {
    var pos, neg := "0x" + h, "-0x" + h;
    assert pos[0] == '0' && pos[1] == 'x' && pos[2..] == h;
    TrimStartNoLead(pos);
    ReadHexBody(pos, h);
    assert neg[0] == '-' && neg[1..] == pos;
    TrimStartNoLead(neg);
    ReadHexBody(neg, h);
  }

  /** Unfolds `ParseIntAuto` on text whose body after the sign is exactly `0x` and the digits `h`. */
  lemma ReadHexBody(s: string, h: string)
    requires h != [] && AllHexDigits(h)
    requires HexPrefixed(SignBody(s)) && SignBody(s)[2..] == h
    ensures ParseIntAuto(s) == Some(if TrimStart(s)[0] == '-' then -(HexValue(h) as int) else HexValue(h))
  {
    HexPrefixAll(h);
  }

  /** Where the two readings part: `0x10` is 16 without a radix and 0 in base 10. */
  lemma RadixMatters()
    ensures ParseIntAuto("0x10") == Some(16) && ParseInt("0x10") == Some(0)
  {
    var s := "0x10";
    assert s == "0x" + "10";
    ParseIntAutoHex("10");
    assert "10"[..1] == "1" && "1"[..0] == [];
    assert HexValue("10") == 16;
    TrimStartNoLead(s);
    assert s[1..] == "x10";
    assert DigitPrefix(s[1..]) == [];
    assert DigitPrefix(s) == "0";
    assert DigitsValue("0") == 0;
  }

  /** A decimal number's text is numeric, and `parseInt` without a radix reads it back. */
  lemma NatTextReads(n: nat)
    ensures IsNumeric(NatToString(n)) && ParseIntAuto(NatToString(n)) == Some(n)
  {
    var s := NatToString(n);
    assert Trim(s) == s by {
      assert !IsSpace(s[0]) && !IsSpace(s[|s| - 1]);
      TrimmedMeaning(s);
    }
    assert IsDecimalLiteral(s) by {
      DigitPrefixAll(s);
    }
    assert !HexPrefixed(SignBody(s)) by {
      TrimStartNoLead(s);
    }
    assert ParseInt(s) == Some(n) by {
      assert PadZeros(s, 0) == s;
      ParsePaddedNat(n, 0);
    }
  }

  // ---------------------------------------------------------------------
  // `isNaN(s)` on a string argument.
  // ---------------------------------------------------------------------

  /** An unsigned decimal literal: digits with an optional fraction, or a bare fraction. */
  predicate IsDecimalLiteral(s: string) {
    var d := DigitPrefix(s);
    var rest := s[|d|..];
    if d != [] then
      rest == [] || (rest[0] == '.' && AllDigits(rest[1..]))
    else
      |rest| >= 2 && rest[0] == '.' && AllDigits(rest[1..])
  }

  /**
   * `!isNaN(s)`: the trimmed string is empty (it converts to 0), a sign followed by a decimal
   * literal or `Infinity`, or an unsigned `0x` literal.
   */
  predicate IsNumeric(s: string) {
    var t := Trim(s);
    var body := if t != [] && (t[0] == '-' || t[0] == '+') then t[1..] else t;
    || t == [] || IsDecimalLiteral(body) || body == "Infinity"
    || (HexPrefixed(t) && |t| > 2 && AllHexDigits(t[2..]))
  }
}
