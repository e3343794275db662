/**
 What the texts in a cursor look like. Round trips say that a text can be read
 back; these say which text it is.
 */
module TextForms {
  import opened Wrappers
  import opened Text
  import opened Json
  import Base64Url
  import Cursor

  const DIGITS := "0123456789abcdef"

  lemma DigitsExactly(d: nat)
    requires d < 16
    ensures DigitChar(d) == DIGITS[d]
  {
  }

  /** Every character of a numeral is a digit of its base. */
  lemma {:induction false} NumeralDigits(r: Radix, width: nat, n: nat)
    requires n < Capacity(r, width)
    ensures forall c <- Numeral(r, width, n) :: c in DIGITS[..r.Base()]
  {
    if width > 0 {
      NumeralDigits(r, width - 1, r.Quotient(n));
      DigitsExactly(r.Remainder(n));
      assert DigitChar(r.Remainder(n)) == DIGITS[..r.Base()][r.Remainder(n)];
    }
  }

  /* ---- UUIDs and timestamps ---- */

  /** 8-4-4-4-12 lower-case hexadecimal digits, which are the number. */
  lemma UuidForm(id: Uuid) returns (d: string)
    ensures |d| == 32 && (forall c <- d :: c in DIGITS) && ReadNumeral(Hex, d) == Some(id)
    ensures UuidText(id) == d[..8] + "-" + d[8..12] + "-" + d[12..16] + "-" + d[16..20] + "-" + d[20..]
  {
    d := Numeral(Hex, 32, id);
    NumeralDigits(Hex, 32, id);
    NumeralRoundTrip(Hex, 32, id);
    HyphensCut(d);
  }

  lemma HyphensCut(d: string)
    requires |d| == 32
    ensures Punctuate(d, HYPHENS) == d[..8] + "-" + d[8..12] + "-" + d[12..16] + "-" + d[16..20] + "-" + d[20..]
  {
    var h1, h2, h3 := HYPHENS[..1], HYPHENS[..2], HYPHENS[..3];
    assert h1[..0] == [] && h2[..1] == h1 && h3[..2] == h2 && HYPHENS[..3] == h3;
    var s1 := d[..8] + "-" + d[8..];
    assert Punctuate(d, h1) == s1;
    var s2 := d[..8] + "-" + d[8..12] + "-" + d[12..];
    assert Punctuate(d, h2) == s2;
    var s3 := d[..8] + "-" + d[8..12] + "-" + d[12..16] + "-" + d[16..];
    assert Punctuate(d, h3) == s3;
  }

  /** YYYY-MM-DDThh:mm:ss, then the microseconds unless they are zero, then the offset. */
  lemma IsoForm(t: Timestamp) returns (d: string)
    ensures |d| == 20 && (forall c <- d :: c in DIGITS[..10]) && ReadNumeral(Dec, d) == Some(t)
    ensures IsoFormat(t) == SecondsOf(d) + (if d[14..] == "000000" then "" else "." + d[14..]) + "+00:00"
  {
    d := Numeral(Dec, 20, t);
    NumeralDigits(Dec, 20, t);
    NumeralRoundTrip(Dec, 20, t);
    SecondsForm(d);
    FractionForm(d);
  }

  lemma SecondsForm(d: string)
    requires |d| == 20
    ensures Punctuate(d[..14], SECONDS) == SecondsOf(d)
  {
    var e := d[..14];
    WholeCut(e, SECONDS);
    SecondsAlike(d);
    assert SecondsOf(e) + e[14..] == SecondsOf(d);
  }

  lemma FractionForm(d: string)
    requires |d| == 20
    ensures Punctuate(d, FRACTION) == SecondsOf(d) + "." + d[14..]
  {
    FractionCut(d, FRACTION);
  }

  lemma SecondsAlike(d: string)
    requires |d| >= 14
    ensures SecondsOf(d[..14]) == SecondsOf(d) && d[..14][14..] == ""
  {
    var e := d[..14];
    assert e[..4] == d[..4] && e[4..6] == d[4..6] && e[6..8] == d[6..8] && e[8..10] == d[8..10] && e[10..12] == d[10..12] && e[12..14] == d[12..14];
  }

  function SecondsOf(d: string): (s: string)
    requires |d| >= 14
    ensures |s| == 19
  {
    d[..4] + "-" + d[4..6] + "-" + d[6..8] + "T" + d[8..10] + ":" + d[10..12] + ":" + d[12..14]
  }

  lemma PunctuateOne(d: string, marks: seq<Mark>, m: Mark)
    requires forall k :: 0 <= k < |marks| ==> marks[k].at <= |d| + k
    requires m.at <= |d| + |marks|
    ensures var s := Punctuate(d, marks); Punctuate(d, marks + [m]) == s[..m.at] + [m.symbol] + s[m.at..]
  {
    assert (marks + [m])[..|marks|] == marks;
  }

  /** One more mark goes in where the text made so far is cut, and the cut moves on. */
  lemma OneMoreMark(d: string, marks: seq<Mark>, at: nat, c: char, head: string, i: nat, j: nat)
    requires forall k :: 0 <= k < |marks| ==> marks[k].at <= |d| + k
    requires i <= j <= |d| && Punctuate(d, marks) == head + d[i..] && |head| == at
    ensures at <= |d| + |marks|
    ensures Punctuate(d, marks + [Mark(at, c)]) == (head + [c] + d[i..j]) + d[j..]
  {
    PunctuateOne(d, marks, Mark(at, c));
    MoveOn(head, c, d, i, j);
  }

  lemma MoveOn(head: string, c: char, d: string, i: nat, j: nat)
    requires i <= j <= |d|
    ensures var s := head + d[i..]; s[..|head|] + [c] + s[|head|..] == (head + [c] + d[i..j]) + d[j..]
  {
    assert d[i..] == d[i..j] + d[j..];
  }

  predicate Fits(d: string, all: seq<Mark>) { forall n :: 0 <= n < |all| ==> all[n].at <= |d| + n }

  /** `marks` are those of `all` up to k, and `head` is what they make of the digits before i. */
  ghost predicate Cut(d: string, all: seq<Mark>, k: nat, head: string, i: nat) {
    && k <= |all| && i <= |d| && Fits(d, all)
    && Punctuate(d, all[..k]) == head + d[i..]
  }

  lemma CutOn(d: string, all: seq<Mark>, k: nat, head: string, i: nat, j: nat)
    requires Cut(d, all, k, head, i) && k < |all| && |head| == all[k].at && i <= j <= |d|
    ensures Cut(d, all, k + 1, head + [all[k].symbol] + d[i..j], j)
  {
    assert all[..k + 1] == all[..k] + [Mark(all[k].at, all[k].symbol)];
    OneMoreMark(d, all[..k], all[k].at, all[k].symbol, head, i, j);
  }

  predicate SecondsMarks(all: seq<Mark>) {
    |all| >= 5 && all[0] == Mark(4, '-') && all[1] == Mark(7, '-') && all[2] == Mark(10, 'T') && all[3] == Mark(13, ':') && all[4] == Mark(16, ':')
  }

  lemma DateCut(d: string, all: seq<Mark>)
    requires |d| >= 14 && SecondsMarks(all) && Fits(d, all)
    ensures Cut(d, all, 2, d[..4] + "-" + d[4..6] + "-" + d[6..8], 8)
  {
    assert all[..0] == [] && d[..4] + d[4..] == d;
    CutOn(d, all, 0, d[..4], 4, 6);
    CutOn(d, all, 1, d[..4] + "-" + d[4..6], 6, 8);
  }

  lemma SecondsCut(d: string, all: seq<Mark>)
    requires |d| >= 14 && SecondsMarks(all) && Fits(d, all)
    ensures Cut(d, all, 5, SecondsOf(d), 14)
  {
    var date := d[..4] + "-" + d[4..6] + "-" + d[6..8];
    DateCut(d, all);
    CutOn(d, all, 2, date, 8, 10);
    CutOn(d, all, 3, date + "T" + d[8..10], 10, 12);
    CutOn(d, all, 4, date + "T" + d[8..10] + ":" + d[10..12], 12, 14);
  }

  lemma WholeCut(d: string, all: seq<Mark>)
    requires |d| >= 14 && SecondsMarks(all) && |all| == 5 && Fits(d, all)
    ensures Punctuate(d, all) == SecondsOf(d) + d[14..]
  {
    SecondsCut(d, all);
    CutWhole(d, all, SecondsOf(d), 14);
  }

  lemma CutWhole(d: string, all: seq<Mark>, head: string, i: nat)
    requires Cut(d, all, |all|, head, i)
    ensures Punctuate(d, all) == head + d[i..]
  {
    assert all[..|all|] == all;
  }

  lemma FractionCut(d: string, all: seq<Mark>)
    requires |d| >= 14 && SecondsMarks(all) && |all| == 6 && all[5] == Mark(19, '.') && Fits(d, all)
    ensures Punctuate(d, all) == SecondsOf(d) + "." + d[14..]
  {
    SecondsCut(d, all);
    CutLast(d, all, SecondsOf(d), 14);
  }

  lemma CutLast(d: string, all: seq<Mark>, head: string, i: nat)
    requires |all| > 0 && Cut(d, all, |all| - 1, head, i) && |head| == all[|all| - 1].at
    ensures Punctuate(d, all) == head + [all[|all| - 1].symbol] + d[i..]
  {
    CutOn(d, all, |all| - 1, head, i, i);
    CutWhole(d, all, head + [all[|all| - 1].symbol] + d[i..i], i);
    assert head + [all[|all| - 1].symbol] + d[i..i] == head + [all[|all| - 1].symbol];
  }

  /* ---- base64url ---- */

  const UPPER := "ABCDEFGHIJKLMNOPQRSTUVWXYZ"
  const LOWER := "abcdefghijklmnopqrstuvwxyz"
  const OTHER := "0123456789-_"

  function Alphabet(n: nat): char
    requires n < 64
  {
    if n < 26 then UPPER[n] else if n < 52 then LOWER[n - 26] else OTHER[n - 52]
  }

  /** The alphabet of RFC 4648, section 5. */
  lemma AlphabetExactly(n: nat)
    requires n < 64
    ensures Base64Url.Symbol(n) == Alphabet(n)
  {
  }

  /** Four symbols hold the 24 bits of three bytes, the first byte highest. */
  lemma GroupBits(x: Base64Url.Byte, y: Base64Url.Byte, z: Base64Url.Byte, a: nat, b: nat, c: nat, d: nat)
    requires a < 64 && b < 64 && c < 64 && d < 64
    ensures Base64Url.Group(x, y, z) == [Alphabet(a), Alphabet(b), Alphabet(c), Alphabet(d)]
      <==> ((a * 64 + b) * 64 + c) * 64 + d == (x * 256 + y) * 256 + z
  {
    var a', b', c', d' := x / 4, x % 4 * 16 + y / 16, y % 16 * 4 + z / 64, z % 64;
    assert ((a' * 64 + b') * 64 + c') * 64 + d' == (x * 256 + y) * 256 + z;
    AlphabetExactly(a');
    AlphabetExactly(b');
    AlphabetExactly(c');
    AlphabetExactly(d');
    SymbolsDiffer(a, a');
    SymbolsDiffer(b, b');
    SymbolsDiffer(c, c');
    SymbolsDiffer(d, d');
  }

  lemma SymbolsDiffer(m: nat, n: nat)
    requires m < 64 && n < 64
    ensures Alphabet(m) == Alphabet(n) <==> m == n
  {
    AlphabetExactly(m);
    AlphabetExactly(n);
    Base64Url.SymbolRoundTrip(m);
    Base64Url.SymbolRoundTrip(n);
  }

  /** The padded text by the bytes left over (RFC 4648, section 4), and the unpadded one. */
  lemma EncodeForm(b: seq<Base64Url.Byte>)
    ensures |b| == 0 ==> Base64Url.Encode(b) == ""
    ensures |b| == 1 ==> Base64Url.Encode(b) == Base64Url.Group(b[0], 0, 0)[..2] + "=="
    ensures |b| == 2 ==> Base64Url.Encode(b) == Base64Url.Group(b[0], b[1], 0)[..3] + "="
    ensures |b| >= 3 ==> Base64Url.Encode(b) == Base64Url.Group(b[0], b[1], b[2]) + Base64Url.Encode(b[3..])
  {
    assert Base64Url.Padding(1) == "=" && Base64Url.Padding(2) == "==";
  }

  /** A test vector of RFC 4648, section 10: "fooba". */
  lemma Fooba()
    ensures Base64Url.Encode([102, 111, 111, 98, 97]) == "Zm9vYmE="
    ensures Base64Url.Strip("Zm9vYmE=") == "Zm9vYmE"
  {
    var b: seq<Base64Url.Byte> := [102, 111, 111, 98, 97];
    assert b[3..] == [98, 97];
    EncodeForm(b);
    EncodeForm([98, 97]);
    assert Base64Url.Group(102, 111, 111) == "Zm9v";
    assert Base64Url.Group(98, 97, 0)[..3] == "YmE";
    assert "Zm9vYmE="[..7] == "Zm9vYmE";
  }

  /* ---- JSON ---- */

  /** Printable ASCII other than the quote and the backslash is written as it is. */
  lemma PlainText(s: string)
    requires Plain(s)
    ensures Quote(s) == "\"" + s + "\""
  {
    PlainEscape(s);
  }

  predicate Plain(s: string) { forall c <- s :: ' ' <= c <= '~' && c != '"' && c != '\\' }

  lemma {:induction false} PlainEscape(s: string)
    requires Plain(s)
    ensures Escape(s) == s
  {
    if s != "" {
      assert forall c <- s[1..] :: c in s;
      PlainEscape(s[1..]);
      assert s[0] in s && EscapeChar(s[0]) == [s[0]];
      assert s == [s[0]] + s[1..];
    }
  }

  /** The short escapes. */
  lemma EscapesExactly()
    ensures EscapeChar('"') == "\\\"" && EscapeChar('\\') == "\\\\" && EscapeChar('\n') == "\\n"
    ensures EscapeChar('\r') == "\\r" && EscapeChar('\t') == "\\t" && EscapeChar(8 as char) == "\\b" && EscapeChar(12 as char) == "\\f"
  {
  }

  /** Everything else, DEL included, is written as UTF-16 units in hexadecimal. */
  lemma UnitsExactly(c: char)
    requires !(' ' <= c <= '~') && c as int !in {8, 9, 10, 12, 13}
    ensures c as int < 0x10000 ==> EscapeChar(c) == "\\u" + Numeral(Hex, 4, c as int)
    ensures c as int >= 0x10000 ==>
      EscapeChar(c) == "\\u" + Numeral(Hex, 4, 0xD800 + (c as int - 0x10000) / 1024) + "\\u" + Numeral(Hex, 4, 0xDC00 + c as int % 1024)
  {
  }

  /* ---- the cursor ---- */

  lemma FieldsCut(f: Field, rest: seq<Field>)
    requires rest != []
    ensures DumpFields([f] + rest) == DumpField(f) + "," + DumpFields(rest)
  {
    assert ([f] + rest)[1..] == rest;
  }

  lemma FiveFields(a: Field, b: Field, c: Field, d: Field, e: Field)
    ensures Dumps([a, b, c, d, e])
      == "{" + (DumpField(a) + "," + (DumpField(b) + "," + (DumpField(c) + "," + (DumpField(d) + "," + DumpField(e))))) + "}"
  {
    FieldsCut(d, [e]);
    FieldsCut(c, [d] + [e]);
    FieldsCut(b, [c] + ([d] + [e]));
    FieldsCut(a, [b] + ([c] + ([d] + [e])));
    assert [a, b, c, d, e] == [a] + ([b] + ([c] + ([d] + [e])));
  }

  function Pair(name: string, value: string): string { "\"" + name + "\":" + value }

  function ValueText(v: Value): string {
    match v
    case String(text) => Quote(text)
    case Number(n) => Decimal(n)
    case Null => "null"
  }

  predicate PlainName(name: string) { forall c <- name :: 'a' <= c <= 'z' || c == '_' }

  lemma PairText(f: Field)
    requires PlainName(f.0)
    ensures DumpField(f) == Pair(f.0, ValueText(f.1))
  {
    PlainText(f.0);
  }

  /** An object of five fields as text: in the order given, without spaces. */
  lemma FiveFieldsText(f: seq<Field>)
    requires |f| == 5 && forall i :: 0 <= i < 5 ==> PlainName(f[i].0)
    ensures Dumps(f)
      == "{" + (Pair(f[0].0, ValueText(f[0].1)) + "," + (Pair(f[1].0, ValueText(f[1].1)) + "," + (Pair(f[2].0, ValueText(f[2].1)) + ","
         + (Pair(f[3].0, ValueText(f[3].1)) + "," + Pair(f[4].0, ValueText(f[4].1)))))) + "}"
  {
    PairText(f[0]);
    PairText(f[1]);
    PairText(f[2]);
    PairText(f[3]);
    PairText(f[4]);
    assert f == [f[0], f[1], f[2], f[3], f[4]];
    FiveFields(f[0], f[1], f[2], f[3], f[4]);
  }

  /** The fields of a cursor, in order. */
  lemma PayloadFields(resource: string, scope: string, key: Cursor.Key)
    ensures var f := Cursor.Payload(resource, scope, key);
      && |f| == 5
      && f[0] == ("v", Number(1)) && f[1] == ("resource", String(resource)) && f[2] == ("created_at", String(IsoFormat(key.at)))
      && f[3] == ("id", String(UuidText(key.id))) && f[4] == ("scope", String(scope))
      && forall i :: 0 <= i < 5 ==> PlainName(f[i].0)
  {
  }

  /** Any object with a signature of its own, as the server would write it. */
  function Signed(sign: Cursor.Sign, fields: seq<Field>): string
    requires fields != []
  {
    DumpsIsAscii(fields);
    var body := Base64Url.Strip(Base64Url.Encode(Cursor.ToBytes(Dumps(fields))));
    body + "." + sign(body)
  }

  predicate Carries(fields: seq<Field>, name: string, v: Value) { Lookup(fields, name) == Some(v) }

  /** Which signed objects are accepted: version 1, this resource and scope, and a readable time and id. Whatever else they hold. */
  lemma AcceptedExactly(sign: Cursor.Sign, fields: seq<Field>, resource: string, scope: string, key: Cursor.Key)
    requires fields != []
    ensures Cursor.Decode(sign, resource, scope, Signed(sign, fields)) == Some(key) <==>
      && Carries(fields, "v", Number(1)) && Carries(fields, "resource", String(resource)) && Carries(fields, "scope", String(scope))
      && exists at, id :: Reads(fields, at, id, key)
  {
    DumpsIsAscii(fields);
    var bytes := Cursor.ToBytes(Dumps(fields));
    var body := Base64Url.Strip(Base64Url.Encode(bytes));
    Base64Url.RoundTrip(bytes);
    Cursor.BytesRoundTrip(Dumps(fields));
    Json.RoundTrip(fields);
    Cursor.SplitAtFirstDot(body, sign(body));
    assert Cursor.Decode(sign, resource, scope, Signed(sign, fields)) == Cursor.ReadPayload(fields, resource, scope);
    PayloadReadExactly(fields, resource, scope, key);
  }

  predicate Reads(fields: seq<Field>, at: string, id: string, key: Cursor.Key) {
    && Carries(fields, "created_at", String(at)) && FromIsoFormat(at) == Some(key.at)
    && Carries(fields, "id", String(id)) && ReadUuid(id) == Some(key.id)
  }

  lemma PayloadReadExactly(fields: seq<Field>, resource: string, scope: string, key: Cursor.Key)
    ensures Cursor.ReadPayload(fields, resource, scope) == Some(key) <==>
      && Carries(fields, "v", Number(1)) && Carries(fields, "resource", String(resource)) && Carries(fields, "scope", String(scope))
      && exists at, id :: Reads(fields, at, id, key)
  {
    var at, id := Lookup(fields, "created_at"), Lookup(fields, "id");
    if at.Some? && at.value.String? && id.Some? && id.value.String? {
      assert Reads(fields, at.value.text, id.value.text, key) <==>
        FromIsoFormat(at.value.text) == Some(key.at) && ReadUuid(id.value.text) == Some(key.id);
    }
  }

  /** Only ASCII bytes are read as text, each as its character. */
  lemma FromBytesExactly(b: seq<Base64Url.Byte>)
    ensures Cursor.FromBytes(b).Some? <==> forall i :: 0 <= i < |b| ==> b[i] < 128
    ensures Cursor.FromBytes(b).Some? ==>
      |Cursor.FromBytes(b).value| == |b| && forall i :: 0 <= i < |b| ==> Cursor.FromBytes(b).value[i] as int == b[i]
  {
    if forall i :: 0 <= i < |b| ==> b[i] < 128 { assert forall x <- b :: x < 128; }
    assert forall i :: 0 <= i < |b| ==> b[i] in b;
  }
}
