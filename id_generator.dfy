/** Identifiers of patients, providers and bookings: `PREFIX_<stamp>_<sequence>`, where
    the stamp is the current date as yyyyMMdd and the sequence a per-kind counter,
    zero-padded to at least four digits. The validators accept exactly the prefix, an
    underscore, eight ASCII digits, an underscore and four ASCII digits. */
module Ids {

  const PATIENT_PREFIX: string := "PAT"
  const PHYSIOTHERAPIST_PREFIX: string := "PHY"
  const BOOKING_PREFIX: string := "BOOK"

  /** The digit class `\d` of java.util.regex without the Unicode flag. */
  predicate IsDigit(c: char) {
    '0' <= c <= '9'
  }

  predicate AllDigits(s: string) {
    forall i :: 0 <= i < |s| ==> IsDigit(s[i])
  }

  function DigitChar(d: nat): (c: char)
    requires d < 10
    ensures IsDigit(c)
  {
    ('0' as int + d) as char
  }

  /** The numeric value of a digit string, read most significant digit first. */
  function Value(s: string): nat
    requires AllDigits(s)
  {
    if s == [] then 0 else Value(s[..|s| - 1]) * 10 + (s[|s| - 1] as int - '0' as int)
  }

  /** The decimal representation without leading zeros (Integer.toString of a non-negative value). */
  function Decimal(n: nat): (s: string)
    ensures AllDigits(s) && |s| >= 1
  {
    if n < 10 then [DigitChar(n)] else Decimal(n / 10) + [DigitChar(n % 10)]
  }

  function Zeros(k: nat): (s: string)
    ensures |s| == k && AllDigits(s)
    ensures forall i :: 0 <= i < k ==> s[i] == '0'
  {
    if k == 0 then [] else ['0'] + Zeros(k - 1)
  }

  /** String.format("%04d", n): at least four digits, padded on the left with zeros. */
  function Pad4(n: nat): (s: string)
    ensures AllDigits(s) && |s| >= 4
  {
    var d := Decimal(n);
    if |d| < 4 then Zeros(4 - |d|) + d else d
  }

  function Pow10(k: nat): (p: nat)
    ensures p >= 1
  {
    if k == 0 then 1 else 10 * Pow10(k - 1)
  }

  /** Reading the decimal representation gives the number back. */
  lemma {:induction false} DecimalValue(n: nat)
    ensures Value(Decimal(n)) == n
  {
    if n >= 10 {
      var s := Decimal(n);
      assert s[..|s| - 1] == Decimal(n / 10);
      DecimalValue(n / 10);
    }
  }

  /** A leading zero does not change the value. */
  lemma {:induction false} LeadingZero(s: string)
    requires AllDigits(s)
    ensures Value(['0'] + s) == Value(s)
  {
    if s != [] {
      var t := ['0'] + s;
      assert t[..|t| - 1] == ['0'] + s[..|s| - 1];
      LeadingZero(s[..|s| - 1]);
    }
  }

  lemma {:induction false} LeadingZeros(k: nat, s: string)
    requires AllDigits(s)
    ensures Value(Zeros(k) + s) == Value(s)
  {
    if k > 0 {
      var rest := Zeros(k - 1) + s;
      assert AllDigits(rest);
      assert Zeros(k) + s == ['0'] + rest;
      LeadingZeros(k - 1, s);
      LeadingZero(rest);
    } else {
      assert Zeros(k) + s == s;
    }
  }

  /** Zero-padding keeps the value: the sequence part of an id determines the counter. */
  lemma Pad4Value(n: nat)
    ensures Value(Pad4(n)) == n
  {
    DecimalValue(n);
    var d := Decimal(n);
    if |d| < 4 {
      LeadingZeros(4 - |d|, d);
    }
  }

  /** A number has at most `k` digits exactly when it is below 10^k. */
  lemma {:induction false} DecimalLength(n: nat, k: nat)
    requires k >= 1
    ensures |Decimal(n)| <= k <==> n < Pow10(k)
  {
    if n >= 10 {
      if k == 1 {
        assert |Decimal(n)| == |Decimal(n / 10)| + 1;
      } else {
        DecimalLength(n / 10, k - 1);
      }
    } else {
      assert Pow10(k) >= 10 by { assert Pow10(k) == 10 * Pow10(k - 1); }
    }
  }

  /** The padded sequence has exactly four digits up to 9999 and more from 10000 on. */
  lemma Pad4Length(n: nat)
    ensures |Pad4(n)| == 4 <==> n <= 9999
  {
    DecimalLength(n, 4);
    assert Pow10(4) == 10000;
  }

  /** String.format("PREFIX_%s_%s", timestamp, sequence): the prefix, an underscore, the
      stamp, an underscore and at least four digits. */
  function FormatId(prefix: string, stamp: string, n: nat): (id: string)
    ensures |id| >= |prefix| + |stamp| + 6
    ensures id[..|prefix|] == prefix && id[|prefix|] == '_'
    ensures id[|prefix| + 1..|prefix| + 1 + |stamp|] == stamp && id[|prefix| + 1 + |stamp|] == '_'
    ensures AllDigits(id[|prefix| + |stamp| + 2..])
  {
    prefix + "_" + stamp + "_" + Pad4(n)
  }

  /** The regular expression `PREFIX_\d{8}_\d{4}`, matched against the whole string. */
  predicate Matches(prefix: string, id: string): (r: bool)
    ensures r ==> |id| == |prefix| + 14
    ensures r ==> forall k :: |prefix| <= k < |id| ==> (id[k] == '_' <==> k == |prefix| || k == |prefix| + 9)
  {
    && |id| == |prefix| + 14
    && id[..|prefix|] == prefix
    && id[|prefix|] == '_'
    && AllDigits(id[|prefix| + 1..|prefix| + 9])
    && id[|prefix| + 9] == '_'
    && AllDigits(id[|prefix| + 10..])
  }

  /** isValidPatientId: `PAT_\d{8}_\d{4}`. */
  predicate IsValidPatientId(id: string): (r: bool)
    ensures r ==> |id| == 17 && id[..4] == "PAT_"
  {
    Matches(PATIENT_PREFIX, id)
  }

  /** isValidPhysiotherapistId: `PHY_\d{8}_\d{4}`. */
  predicate IsValidPhysiotherapistId(id: string): (r: bool)
    ensures r ==> |id| == 17 && id[..4] == "PHY_"
  {
    Matches(PHYSIOTHERAPIST_PREFIX, id)
  }

  /** isValidBookingId: `BOOK_\d{8}_\d{4}`. */
  predicate IsValidBookingId(id: string): (r: bool)
    ensures r ==> |id| == 18 && id[..5] == "BOOK_"
  {
    Matches(BOOKING_PREFIX, id)
  }

  /** A generated id passes its validator exactly when the date stamp has eight digits
      and the counter is at most 9999; from 10000 on the sequence has five digits. */
  lemma GeneratedIdValidity(prefix: string, stamp: string, n: nat)
    requires AllDigits(stamp)
    ensures Matches(prefix, FormatId(prefix, stamp, n)) <==> |stamp| == 8 && n <= 9999
  {
    var id := FormatId(prefix, stamp, n);
    var p := |prefix|;
    Pad4Length(n);
    assert id[..p] == prefix;
    assert id[p] == '_';
    assert id[p + 1 + |stamp|] == '_';
    if |stamp| == 8 && n <= 9999 {
      assert id[p + 1..p + 9] == stamp;
      assert id[p + 10..] == Pad4(n);
    }
    if Matches(prefix, id) {
      if |stamp| < 8 {
        assert false;
      }
      if |stamp| > 8 {
        assert false;
      }
    }
  }

  /** Ids of one kind and one date stamp are distinct for distinct counter values. */
  lemma FormatIdInjective(prefix: string, stamp: string, n: nat, m: nat)
    requires FormatId(prefix, stamp, n) == FormatId(prefix, stamp, m)
    ensures n == m
  {
    var k := |prefix| + |stamp| + 2;
    var id := FormatId(prefix, stamp, n);
    assert id[k..] == Pad4(n);
    assert FormatId(prefix, stamp, m)[k..] == Pad4(m);
    Pad4Value(n);
    Pad4Value(m);
  }

  /** The sequence number an id with an eight-character stamp carries, or -1 when the
      characters after the stamp are not all digits. */
  function IdNumber(prefix: string, id: string): int {
    var k := |prefix| + 10;
    if |id| >= k && AllDigits(id[k..]) then Value(id[k..]) else -1
  }

  /** The number read back from a generated id is the counter value it was made from. */
  lemma IdNumberOfFormat(prefix: string, stamp: string, n: nat)
    requires |stamp| == 8
    ensures IdNumber(prefix, FormatId(prefix, stamp, n)) == n
  {
    var id := FormatId(prefix, stamp, n);
    assert id[|prefix| + 10..] == Pad4(n);
    Pad4Value(n);
  }

  /** No string is a valid id of two kinds. */
  lemma KindsAreDisjoint(id: string)
    ensures !(IsValidPatientId(id) && IsValidPhysiotherapistId(id))
    ensures !(IsValidPatientId(id) && IsValidBookingId(id))
    ensures !(IsValidPhysiotherapistId(id) && IsValidBookingId(id))
  {
  }

  /** The three counters, each starting at 1 (static AtomicIntegers in the source;
      here an object the clinic holds). */
  class IdGenerator {
    var patientCounter: nat
    var physiotherapistCounter: nat
    var bookingCounter: nat

    constructor ()
      ensures patientCounter == 1 && physiotherapistCounter == 1 && bookingCounter == 1
    {
      patientCounter := 1;
      physiotherapistCounter := 1;
      bookingCounter := 1;
    }

    /** generatePatientId: formats the current patient counter and advances only it. */
    method GeneratePatientId(stamp: string) returns (id: string)
      modifies this`patientCounter
      ensures id == FormatId(PATIENT_PREFIX, stamp, old(patientCounter))
      ensures patientCounter == old(patientCounter) + 1
    {
      id := FormatId(PATIENT_PREFIX, stamp, patientCounter);
      patientCounter := patientCounter + 1;
    }

    /** generatePhysiotherapistId: formats the current provider counter and advances only it. */
    method GeneratePhysiotherapistId(stamp: string) returns (id: string)
      modifies this`physiotherapistCounter
      ensures id == FormatId(PHYSIOTHERAPIST_PREFIX, stamp, old(physiotherapistCounter))
      ensures physiotherapistCounter == old(physiotherapistCounter) + 1
    {
      id := FormatId(PHYSIOTHERAPIST_PREFIX, stamp, physiotherapistCounter);
      physiotherapistCounter := physiotherapistCounter + 1;
    }

    /** generateBookingId: formats the current booking counter and advances only it. */
    method GenerateBookingId(stamp: string) returns (id: string)
      modifies this`bookingCounter
      ensures id == FormatId(BOOKING_PREFIX, stamp, old(bookingCounter))
      ensures bookingCounter == old(bookingCounter) + 1
    {
      id := FormatId(BOOKING_PREFIX, stamp, bookingCounter);
      bookingCounter := bookingCounter + 1;
    }

    /** resetCounters: all three counters back to 1. */
    method ResetCounters()
      modifies this
      ensures patientCounter == 1 && physiotherapistCounter == 1 && bookingCounter == 1
    {
      patientCounter := 1;
      physiotherapistCounter := 1;
      bookingCounter := 1;
    }
  }

  /** Two successive booking ids with the same date stamp differ. */
  method TwoBookingIds(g: IdGenerator, stamp: string) returns (first: string, second: string)
    modifies g`bookingCounter
    ensures first != second
    ensures g.bookingCounter == old(g.bookingCounter) + 2
  {
    first := g.GenerateBookingId(stamp);
    second := g.GenerateBookingId(stamp);
    if first == second {
      FormatIdInjective(BOOKING_PREFIX, stamp, old(g.bookingCounter), old(g.bookingCounter) + 1);
    }
  }

  /** The first id generated after a reset, with stamp 20250304, is the documented example. */
  method FirstPatientIdAfterReset(g: IdGenerator) returns (id: string)
    modifies g
    ensures id == "PAT_20250304_0001" && IsValidPatientId(id)
  {
    g.ResetCounters();
    id := g.GeneratePatientId("20250304");
    assert Decimal(1) == "1";
    assert Pad4(1) == "0001";
  }
}
