/**
 The textual forms of the two values every cursor carries: `str(UUID)` and
 `datetime.isoformat()`.

 A UUID is its 128-bit number. A UTC timestamp is the number written by its
 twenty decimal digits YYYYMMDDhhmmssuuuuuu, so that comparing timestamps is
 comparing numbers.
 */
module Text {
  import opened Wrappers

  datatype Radix = Dec | Hex {
    function Base(): nat { if Dec? then 10 else 16 }
    function Times(x: nat): nat { if Dec? then 10 * x else 16 * x }
    function Quotient(n: nat): nat { if Dec? then n / 10 else n / 16 }
    function Remainder(n: nat): nat { if Dec? then n % 10 else n % 16 }
  }

  /** How many numerals of a given width there are. */
  function Capacity(r: Radix, width: nat): (p: nat)
    ensures p > 0
  {
    if width == 0 then 1 else r.Times(Capacity(r, width - 1))
  }

  type Uuid = n: nat | n < Capacity(Hex, 32) witness 0
  type Timestamp = n: nat | n < Capacity(Dec, 20) witness 0

  /* ---- fixed-width numerals ---- */

  function DigitChar(d: nat): char
    requires d < 16
  {
    if d < 10 then ('0' as int + d) as char else ('a' as int + d - 10) as char
  }

  function DigitValue(c: char): Option<nat> {
    if '0' <= c <= '9' then Some(c as int - '0' as int)
    else if 'a' <= c <= 'f' then Some(c as int - 'a' as int + 10)
    else None
  }

  function Numeral(r: Radix, width: nat, n: nat): (s: string)
    requires n < Capacity(r, width)
    ensures |s| == width
    ensures forall c <- s :: DigitValue(c).Some? && DigitValue(c).value < r.Base()
  {
    if width == 0 then ""
    else Numeral(r, width - 1, r.Quotient(n)) + [DigitChar(r.Remainder(n))]
  }

  function ReadNumeral(r: Radix, s: string): (n: Option<nat>)
    ensures n.Some? ==> n.value < Capacity(r, |s|)
  {
    if s == "" then Some(0)
    else
      var high :- ReadNumeral(r, s[..|s| - 1]);
      var low :- DigitValue(s[|s| - 1]);
      if low < r.Base() then Some(r.Times(high) + low) else None
  }

  lemma DigitRoundTrip(d: nat)
    requires d < 16
    ensures DigitValue(DigitChar(d)) == Some(d)
  {
  }

  lemma ReadAppendedDigit(r: Radix, s: string, high: nat, low: nat)
    requires low < r.Base() && ReadNumeral(r, s) == Some(high)
    ensures ReadNumeral(r, s + [DigitChar(low)]) == Some(r.Times(high) + low)
  {
    var t := s + [DigitChar(low)];
    assert t[..|t| - 1] == s && t[|t| - 1] == DigitChar(low);
    DigitRoundTrip(low);
  }

  lemma {:induction false} NumeralRoundTrip(r: Radix, width: nat, n: nat)
    requires n < Capacity(r, width)
    ensures ReadNumeral(r, Numeral(r, width, n)) == Some(n)
  {
    if width > 0 {
      var high, low := r.Quotient(n), r.Remainder(n);
      NumeralRoundTrip(r, width - 1, high);
      ReadAppendedDigit(r, Numeral(r, width - 1, high), high, low);
    }
  }

  /* ---- punctuation ---- */

  datatype Mark = Mark(at: nat, symbol: char)

  /** Inserts each mark in turn, at its position in the text made so far. */
  function Punctuate(digits: string, marks: seq<Mark>): (s: string)
    requires forall k :: 0 <= k < |marks| ==> marks[k].at <= |digits| + k
    ensures |s| == |digits| + |marks|
    ensures forall c <- s :: c in digits || exists m <- marks :: m.symbol == c
  {
    if marks == [] then digits
    else
      var m := marks[|marks| - 1];
      var s := Punctuate(digits, marks[..|marks| - 1]);
      s[..m.at] + [m.symbol] + s[m.at..]
  }

  /** Takes the marks out again, the last one first; None when one is missing. */
  function Unpunctuate(s: string, marks: seq<Mark>): (r: Option<string>)
    ensures r.Some? ==> |s| == |r.value| + |marks|
  {
    if marks == [] then Some(s)
    else
      var m := marks[|marks| - 1];
      if m.at < |s| && s[m.at] == m.symbol
      then Unpunctuate(s[..m.at] + s[m.at + 1..], marks[..|marks| - 1])
      else None
  }

  lemma {:induction false} PunctuationRoundTrip(digits: string, marks: seq<Mark>)
    requires forall k :: 0 <= k < |marks| ==> marks[k].at <= |digits| + k
    ensures Unpunctuate(Punctuate(digits, marks), marks) == Some(digits)
  {
    if marks != [] {
      var m := marks[|marks| - 1];
      var s := Punctuate(digits, marks[..|marks| - 1]);
      var t := s[..m.at] + [m.symbol] + s[m.at..];
      assert t[..m.at] + t[m.at + 1..] == s;
      PunctuationRoundTrip(digits, marks[..|marks| - 1]);
    }
  }

  /* ---- UUIDs: 8-4-4-4-12 lower-case hexadecimal digits ---- */

  const HYPHENS := [Mark(8, '-'), Mark(13, '-'), Mark(18, '-'), Mark(23, '-')]

  function UuidText(id: Uuid): (s: string)
    ensures |s| == 36
  {
    Punctuate(Numeral(Hex, 32, id), HYPHENS)
  }

  function ReadUuid(s: string): Option<Uuid> {
    if |s| != 36 then None
    else
      var digits :- Unpunctuate(s, HYPHENS);
      ReadNumeral(Hex, digits)
  }

  lemma UuidRoundTrip(id: Uuid)
    ensures ReadUuid(UuidText(id)) == Some(id)
  {
    PunctuationRoundTrip(Numeral(Hex, 32, id), HYPHENS);
    NumeralRoundTrip(Hex, 32, id);
  }

  /* ---- timestamps: YYYY-MM-DDThh:mm:ss[.uuuuuu]+00:00 ---- */

  const UTC := "+00:00"
  const SECONDS := [Mark(4, '-'), Mark(7, '-'), Mark(10, 'T'), Mark(13, ':'), Mark(16, ':')]
  const FRACTION := SECONDS + [Mark(19, '.')]

  /** A fraction of zero microseconds is left out altogether. */
  function IsoFormat(t: Timestamp): (s: string) {
    var digits := Numeral(Dec, 20, t);
    if digits[14..] == "000000" then Punctuate(digits[..14], SECONDS) + UTC
    else Punctuate(digits, FRACTION) + UTC
  }

  function FromIsoFormat(s: string): Option<Timestamp> {
    if |s| < 6 || s[|s| - 6..] != UTC then None
    else
      var local := s[..|s| - 6];
      if |local| == 19 then
        var digits :- Unpunctuate(local, SECONDS);
        ReadNumeral(Dec, digits + "000000")
      else if |local| == 26 then
        var digits :- Unpunctuate(local, FRACTION);
        ReadNumeral(Dec, digits)
      else None
  }

  lemma IsoRoundTrip(t: Timestamp)
    ensures FromIsoFormat(IsoFormat(t)) == Some(t)
  {
    var digits := Numeral(Dec, 20, t);
    NumeralRoundTrip(Dec, 20, t);
    var short := digits[14..] == "000000";
    var kept, marks := if short then digits[..14] else digits, if short then SECONDS else FRACTION;
    PunctuationRoundTrip(kept, marks);
    assert digits == digits[..14] + digits[14..];
    assert IsoFormat(t)[..|IsoFormat(t)| - 6] == Punctuate(kept, marks);
  }
}
