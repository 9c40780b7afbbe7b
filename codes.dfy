/**
 * Item and unit codes (barangController.js and barangForm.jsx build them the same way):
 * a name abbreviation, the counter key `jurusan-ABBREV`, and the full code
 * `jurusan-ABBREV-NNN` whose last part is a sequence number padded to three digits.
 */
module Codes {
  import opened Wrappers
  import opened Strings

  /** `nama.trim().replace(/\s+/g, "-").toUpperCase().slice(0, 3)`. */
  function Abbrev(nama: string): string {
    Take(ToUpper(DashRuns(Trim(nama))), 3)
  }

  /** What the abbreviation is: at most three characters, no white space, empty only for a blank name. */
  lemma AbbrevShape(nama: string)
    ensures var d := DashRuns(Trim(nama));
      |Abbrev(nama)| == (if |d| < 3 then |d| else 3)
    ensures NoSpace(Abbrev(nama))
    ensures Abbrev(nama) == [] <==> IsBlank(nama)
    ensures forall i :: 0 <= i < |Abbrev(nama)| ==> Abbrev(nama)[i] == UpperChar(DashRuns(Trim(nama))[i])
  {
    var d := DashRuns(Trim(nama));
    DashRunsNoSpace(Trim(nama));
    DashRunsEmpty(Trim(nama));
    TrimEmptyIffBlank(nama);
  }

  /** White space around the name does not change its abbreviation. */
  lemma AbbrevIgnoresPadding(nama: string)
    ensures Abbrev(Trim(nama)) == Abbrev(nama)
  {
    TrimIdempotent(nama);
  }

  /** The counter key: `${jurusan}-${abbrev}`. */
  function CounterKey(jurusan: string, nama: string): string {
    jurusan + "-" + Abbrev(nama)
  }

  /** `String(seq).padStart(3, "000")` for a sequence number from the counter. */
  function SeqText(n: nat): (r: string)
    ensures |r| >= 3 && AllDigits(r)
    ensures n < 1000 ==> |r| == 3
  {
    NatDigitsBound(n);
    PadZeros(NatToString(n), 3)
  }

  lemma {:induction false} NatDigitsBound(n: nat)
    ensures n < 1000 ==> |NatToString(n)| <= 3
  {
    if n >= 10 {
      NatDigitsBound(n / 10);
      if n < 1000 {
        assert n / 10 < 100;
        if n / 10 >= 10 {
          assert n / 10 / 10 < 10;
        }
      }
    }
  }

  /** `${jurusan}-${abbrev}-${text}`: the counter key, a dash, the sequence text. */
  function FullCode(jurusan: string, nama: string, seqText: string): string {
    CounterKey(jurusan, nama) + "-" + seqText
  }

  /** `s.split("-").pop()`: what follows the last dash (all of `s` when there is none). */
  function LastSegment(s: string): (r: string)
    ensures |r| <= |s| && r == s[|s| - |r|..]
    ensures '-' !in r
    ensures |r| < |s| ==> s[|s| - |r| - 1] == '-'
  {
    if s == [] || s[|s| - 1] == '-' then []
    else
      var r := LastSegment(s[..|s| - 1]);
      assert r + [s[|s| - 1]] == s[|s| - |r| - 1..];
      r + [s[|s| - 1]]
  }

  /** A dash-free suffix after a dash is the last segment. */
  lemma {:induction false} LastSegmentAfterDash(a: string, b: string)
    requires '-' !in b
    ensures LastSegment(a + "-" + b) == b
    decreases |b|
  {
    if b != [] {
      var b' := b[..|b| - 1];
      assert (a + "-" + b)[..|a + "-" + b| - 1] == a + "-" + b';
      LastSegmentAfterDash(a, b');
    } else {
      assert a + "-" + b == a + "-";
    }
  }

  lemma DigitsHaveNoDash(s: string)
    requires AllDigits(s)
    ensures '-' !in s
  {
  }

  /**
   * The number after the last dash of a full code is the sequence number it was made from:
   * the item form's `parseInt(kode.split("-").pop(), 10)` recovers the counter value.
   */
  lemma FullCodeSequenceRoundTrip(jurusan: string, nama: string, n: nat)
    ensures ParseInt(LastSegment(FullCode(jurusan, nama, SeqText(n)))) == Some(n)
  {
    DigitsHaveNoDash(SeqText(n));
    LastSegmentAfterDash(CounterKey(jurusan, nama), SeqText(n));
    ParsePaddedNat(n, 3);
  }

  /** Distinct sequence numbers under one key give distinct codes. */
  lemma FullCodeInjective(jurusan: string, nama: string, a: nat, b: nat)
    ensures a != b ==> FullCode(jurusan, nama, SeqText(a)) != FullCode(jurusan, nama, SeqText(b))
  {
    FullCodeSequenceRoundTrip(jurusan, nama, a);
    FullCodeSequenceRoundTrip(jurusan, nama, b);
  }

  /** Distinct sequence numbers give distinct bare sequence texts. */
  lemma SeqTextInjective(a: nat, b: nat)
    requires SeqText(a) == SeqText(b)
    ensures a == b
  {
    PaddedNatInjective(a, b, 3);
  }

  lemma SeqTextDistinct(a: nat, b: nat)
    requires a != b
    ensures SeqText(a) != SeqText(b)
  {
    if SeqText(a) == SeqText(b) {
      SeqTextInjective(a, b);
    }
  }
}
