/**
 The JSON text of the flat objects the service signs and fingerprints:
 `json.dumps(payload, separators=(",", ":"))` with ASCII-only output, and the
 reader that takes such a text back.
 */
module Json {
  import opened Wrappers
  import opened Text

  datatype Value = String(text: string) | Number(n: nat) | Null

  type Field = (string, Value)

  /* ---- strings ---- */

  function Hex4(n: nat): (s: string)
    requires n < 0x10000
    ensures |s| == 4
  {
    Numeral(Hex, 4, n)
  }

  /** Everything outside printable ASCII is written as one or two \uXXXX units. */
  function EscapeChar(c: char): (s: string)
  {
    var n := c as int;
    if c == '"' then "\\\""
    else if c == '\\' then "\\\\"
    else if n == 10 then "\\n"
    else if n == 13 then "\\r"
    else if n == 9 then "\\t"
    else if n == 8 then "\\b"
    else if n == 12 then "\\f"
    else if 32 <= n <= 126 then [c]
    else if n < 0x10000 then "\\u" + Hex4(n)
    else EscapePair(n)
  }

  function EscapePair(n: nat): (s: string)
    requires 0x10000 <= n < 0x110000
    ensures |s| == 12
  {
    "\\u" + Hex4(HighSurrogate(n)) + "\\u" + Hex4(LowSurrogate(n))
  }

  function HighSurrogate(n: nat): (h: nat)
    requires 0x10000 <= n < 0x110000
    ensures 0xD800 <= h <= 0xDBFF
  {
    0xD800 + (n - 0x10000) / 1024
  }

  function LowSurrogate(n: nat): (l: nat)
    ensures 0xDC00 <= l <= 0xDFFF
  {
    0xDC00 + n % 1024
  }

  function Escape(s: string): string {
    if s == "" then "" else EscapeChar(s[0]) + Escape(s[1..])
  }

  function Quote(s: string): string { "\"" + Escape(s) + "\"" }

  function ReadHex4(s: string): (r: Option<(nat, string)>)
    ensures r.Some? ==> r.value.0 < 0x10000 && |r.value.1| < |s|
  {
    if |s| < 4 then None
    else
      var n :- ReadNumeral(Hex, s[..4]);
      Some((n, s[4..]))
  }

  function JoinSurrogates(high: nat, low: nat): char
    requires 0xD800 <= high <= 0xDBFF && 0xDC00 <= low <= 0xDFFF
  {
    (0x10000 + (high - 0xD800) * 1024 + (low - 0xDC00)) as char
  }

  lemma Hex4RoundTrip(n: nat, rest: string)
    requires n < 0x10000
    ensures ReadHex4(Hex4(n) + rest) == Some((n, rest))
  {
    NumeralRoundTrip(Hex, 4, n);
    assert (Hex4(n) + rest)[..4] == Hex4(n) && (Hex4(n) + rest)[4..] == rest;
  }

  /** Reads what follows \\u: one unit, or a surrogate pair of two. */
  function ReadUnits(s: string): (r: Option<(char, string)>)
    ensures r.Some? ==> |r.value.1| < |s|
  {
    var (n, tail) :- ReadHex4(s);
    if n < 0xD800 || 0xDFFF < n then Some((n as char, tail))
    else if n <= 0xDBFF && |tail| >= 2 && tail[0] == '\\' && tail[1] == 'u' then
      var (low, rest) :- ReadHex4(tail[2..]);
      if 0xDC00 <= low <= 0xDFFF then Some((JoinSurrogates(n, low), rest)) else None
    else None
  }

  /** Reads one character of a string body: the character and what follows it. */
  function ReadChar(s: string): (r: Option<(char, string)>)
    ensures r.Some? ==> |r.value.1| < |s|
  {
    if s == "" || s[0] == '"' then None
    else if s[0] != '\\' then Some((s[0], s[1..]))
    else if |s| < 2 then None
    else
      var rest := s[2..];
      match s[1]
      case '"' => Some(('"', rest))
      case '\\' => Some(('\\', rest))
      case '/' => Some(('/', rest))
      case 'n' => Some((10 as char, rest))
      case 'r' => Some((13 as char, rest))
      case 't' => Some((9 as char, rest))
      case 'b' => Some((8 as char, rest))
      case 'f' => Some((12 as char, rest))
      case 'u' =>
        ReadUnits(rest)
      case _ => None
  }

  /** Reads a string body up to its closing quote. */
  function ReadBody(s: string): (r: Option<(string, string)>)
    ensures r.Some? ==> |r.value.1| < |s|
    decreases |s|
  {
    if s != "" && s[0] == '"' then Some(("", s[1..]))
    else
      var (c, rest) :- ReadChar(s);
      var (text, tail) :- ReadBody(rest);
      Some(([c] + text, tail))
  }

  function ReadString(s: string): (r: Option<(string, string)>)
    ensures r.Some? ==> |r.value.1| < |s|
  {
    if s != "" && s[0] == '"' then ReadBody(s[1..]) else None
  }

  lemma CharRoundTrip(c: char, rest: string)
    ensures ReadChar(EscapeChar(c) + rest) == Some((c, rest))
    ensures (EscapeChar(c) + rest)[0] != '"'
  {
    var n := c as int;
    var s := EscapeChar(c) + rest;
    if n < 128 && EscapeChar(c) != "\\u" + Hex4(n) {
      assert s[|EscapeChar(c)|..] == rest;
    } else if n < 0x10000 {
      assert s[2..] == Hex4(n) + rest;
      Hex4RoundTrip(n, rest);
    } else {
      PairRoundTrip(n, rest);
    }
  }

  lemma SurrogatesJoin(n: nat)
    requires 0x10000 <= n < 0x110000
    ensures JoinSurrogates(HighSurrogate(n), LowSurrogate(n)) == n as char
  {
  }

  lemma PairRoundTrip(n: nat, rest: string)
    requires 0x10000 <= n < 0x110000
    ensures ReadChar(EscapePair(n) + rest) == Some((n as char, rest))
  {
    var high, low := HighSurrogate(n), LowSurrogate(n);
    var units := Hex4(high) + ("\\u" + (Hex4(low) + rest));
    assert EscapePair(n) + rest == "\\u" + units by { Reassociate("\\u", Hex4(high), Hex4(low), rest); }
    assert ReadChar("\\u" + units) == ReadUnits(units) by { ReadEscapedUnits(units); }
    assert ReadUnits(units) == Some((n as char, rest)) by { UnitsRoundTrip(high, low, rest); SurrogatesJoin(n); }
  }

  lemma Reassociate(u: string, a: string, b: string, rest: string)
    ensures u + a + u + b + rest == u + (a + (u + (b + rest)))
  {
  }

  lemma ReadEscapedUnits(units: string)
    ensures ReadChar("\\u" + units) == ReadUnits(units)
  {
    var s := "\\u" + units;
    assert s[2..] == units;
  }

  lemma UnitsRoundTrip(high: nat, low: nat, rest: string)
    requires 0xD800 <= high <= 0xDBFF && 0xDC00 <= low <= 0xDFFF
    ensures ReadUnits(Hex4(high) + ("\\u" + (Hex4(low) + rest))) == Some((JoinSurrogates(high, low), rest))
  {
    var tail := "\\u" + (Hex4(low) + rest);
    assert tail[2..] == Hex4(low) + rest;
    Hex4RoundTrip(high, tail);
    Hex4RoundTrip(low, rest);
  }

  lemma {:induction false} BodyRoundTrip(text: string, rest: string)
    ensures ReadBody(Escape(text) + "\"" + rest) == Some((text, rest))
  {
    if text == "" {
      assert Escape(text) + "\"" + rest == "\"" + rest;
    } else {
      var after := Escape(text[1..]) + "\"" + rest;
      var s := Escape(text) + "\"" + rest;
      assert s == EscapeChar(text[0]) + after;
      CharRoundTrip(text[0], after);
      BodyRoundTrip(text[1..], rest);
      assert ReadChar(s) == Some((text[0], after)) && s[0] != '"';
      assert [text[0]] + text[1..] == text;
    }
  }

  lemma StringRoundTrip(text: string, rest: string)
    ensures ReadString(Quote(text) + rest) == Some((text, rest))
  {
    assert (Quote(text) + rest)[1..] == Escape(text) + "\"" + rest;
    BodyRoundTrip(text, rest);
  }

  /* ---- numbers ---- */

  function Decimal(n: nat): (s: string)
    ensures s != "" && forall c <- s :: '0' <= c <= '9'
  {
    if n < 10 then [DigitChar(n)] else Decimal(n / 10) + [DigitChar(n % 10)]
  }

  function DigitRun(s: string): (k: nat)
    ensures k <= |s|
    ensures forall i :: 0 <= i < k ==> '0' <= s[i] <= '9'
    ensures k < |s| ==> !('0' <= s[k] <= '9')
  {
    if s != "" && '0' <= s[0] <= '9' then 1 + DigitRun(s[1..]) else 0
  }

  function ReadDecimal(s: string): (r: Option<(nat, string)>)
    ensures r.Some? ==> |r.value.1| < |s|
  {
    var k := DigitRun(s);
    if k == 0 then None
    else
      var n :- ReadNumeral(Dec, s[..k]);
      Some((n, s[k..]))
  }

  lemma {:induction false} DecimalValue(n: nat)
    ensures ReadNumeral(Dec, Decimal(n)) == Some(n)
  {
    if n >= 10 {
      DecimalValue(n / 10);
      assert Decimal(n)[..|Decimal(n)| - 1] == Decimal(n / 10);
    }
  }

  lemma DecimalRoundTrip(n: nat, rest: string)
    requires rest != "" ==> !('0' <= rest[0] <= '9')
    ensures ReadDecimal(Decimal(n) + rest) == Some((n, rest))
  {
    var s := Decimal(n) + rest;
    DecimalValue(n);
    var k := DigitRun(s);
    assert forall i :: 0 <= i < |Decimal(n)| ==> s[i] == Decimal(n)[i] && s[i] in Decimal(n);
    assert rest != "" ==> s[|Decimal(n)|] == rest[0];
    assert k == |Decimal(n)|;
    assert s[..k] == Decimal(n) && s[k..] == rest;
  }

  /* ---- values and objects ---- */

  function DumpValue(v: Value): string {
    match v
    case String(text) => Quote(text)
    case Number(n) => Decimal(n)
    case Null => "null"
  }

  function ReadValue(s: string): (r: Option<(Value, string)>)
    ensures r.Some? ==> |r.value.1| < |s|
  {
    if s == "" then None
    else if s[0] == '"' then
      var (text, rest) :- ReadString(s);
      Some((String(text), rest))
    else if |s| >= 4 && s[..4] == "null" then Some((Null, s[4..]))
    else
      var (n, rest) :- ReadDecimal(s);
      Some((Number(n), rest))
  }

  predicate Delimited(rest: string) {
    rest != "" && (rest[0] == ',' || rest[0] == '}')
  }

  lemma ValueRoundTrip(v: Value, rest: string)
    requires Delimited(rest)
    ensures ReadValue(DumpValue(v) + rest) == Some((v, rest))
  {
    match v
    case String(text) => StringRoundTrip(text, rest);
    case Number(n) => DecimalRoundTrip(n, rest);
      assert '0' <= (Decimal(n) + rest)[0] <= '9' by { assert Decimal(n)[0] in Decimal(n); }
    case Null =>
      assert ("null" + rest)[..4] == "null" && ("null" + rest)[4..] == rest;
  }

  function DumpField(f: Field): string { Quote(f.0) + ":" + DumpValue(f.1) }

  function DumpFields(fields: seq<Field>): string
    requires fields != []
  {
    if |fields| == 1 then DumpField(fields[0])
    else DumpField(fields[0]) + "," + DumpFields(fields[1..])
  }

  function Dumps(fields: seq<Field>): string
    requires fields != []
  {
    "{" + DumpFields(fields) + "}"
  }

  function ReadField(s: string): (r: Option<(Field, string)>)
    ensures r.Some? ==> |r.value.1| < |s|
  {
    var (name, rest) :- ReadString(s);
    if rest == "" || rest[0] != ':' then None
    else
      var (v, tail) :- ReadValue(rest[1..]);
      Some(((name, v), tail))
  }

  /** Reads fields up to the closing brace, which must end the text. */
  function ReadFields(s: string): Option<seq<Field>>
    decreases |s|
  {
    var (f, rest) :- ReadField(s);
    if rest == "}" then Some([f])
    else if rest != "" && rest[0] == ',' then
      var others :- ReadFields(rest[1..]);
      Some([f] + others)
    else None
  }

  function Loads(s: string): Option<seq<Field>> {
    if s != "" && s[0] == '{' then ReadFields(s[1..]) else None
  }

  /** The value of a key; the last occurrence wins, as in a Python dictionary. */
  function Lookup(fields: seq<Field>, name: string): Option<Value> {
    if fields == [] then None
    else if fields[|fields| - 1].0 == name then Some(fields[|fields| - 1].1)
    else Lookup(fields[..|fields| - 1], name)
  }

  lemma ReadFieldParts(s: string, name: string, body: string, v: Value, rest: string)
    requires ReadString(s) == Some((name, ":" + body))
    requires ReadValue(body) == Some((v, rest))
    ensures ReadField(s) == Some(((name, v), rest))
  {
    var after := ":" + body;
    assert after[0] == ':' && after[1..] == body;
  }

  lemma FieldRoundTrip(f: Field, rest: string)
    requires Delimited(rest)
    ensures ReadField(DumpField(f) + rest) == Some((f, rest))
  {
    var body := DumpValue(f.1) + rest;
    assert ReadValue(body) == Some((f.1, rest)) by { ValueRoundTrip(f.1, rest); }
    assert DumpField(f) + rest == Quote(f.0) + (":" + body);
    assert ReadString(Quote(f.0) + (":" + body)) == Some((f.0, ":" + body)) by { StringRoundTrip(f.0, ":" + body); }
    ReadFieldParts(DumpField(f) + rest, f.0, body, f.1, rest);
  }

  lemma ReadFieldsStep(s: string, f: Field, others: string, fields: seq<Field>)
    requires ReadField(s) == Some((f, "," + others))
    requires ReadFields(others) == Some(fields)
    ensures ReadFields(s) == Some([f] + fields)
  {
    var rest := "," + others;
    assert rest[0] == ',' && rest[1..] == others;
  }

  lemma {:induction false} FieldsRoundTrip(fields: seq<Field>)
    requires fields != []
    ensures ReadFields(DumpFields(fields) + "}") == Some(fields)
  {
    if |fields| == 1 {
      FieldRoundTrip(fields[0], "}");
      assert [fields[0]] == fields;
    } else {
      var others := DumpFields(fields[1..]) + "}";
      assert DumpFields(fields) + "}" == DumpField(fields[0]) + ("," + others);
      FieldRoundTrip(fields[0], "," + others);
      FieldsRoundTrip(fields[1..]);
      ReadFieldsStep(DumpFields(fields) + "}", fields[0], others, fields[1..]);
      assert [fields[0]] + fields[1..] == fields;
    }
  }

  /** Reading a dumped object gives its fields back, whatever text they hold. */
  lemma RoundTrip(fields: seq<Field>)
    requires fields != []
    ensures Loads(Dumps(fields)) == Some(fields)
  {
    assert Dumps(fields)[1..] == DumpFields(fields) + "}";
    FieldsRoundTrip(fields);
  }

  /* ---- the output is ASCII ---- */

  predicate Ascii(s: string) { forall c <- s :: c as int < 128 }

  lemma {:induction false} EscapeIsAscii(s: string)
    ensures Ascii(Escape(s))
  {
    if s != "" { EscapeIsAscii(s[1..]); }
  }

  lemma {:induction false} FieldsAreAscii(fields: seq<Field>)
    requires fields != []
    ensures Ascii(DumpFields(fields))
  {
    var f := fields[0];
    EscapeIsAscii(f.0);
    if f.1.String? { EscapeIsAscii(f.1.text); }
    if |fields| > 1 { FieldsAreAscii(fields[1..]); }
  }

  lemma DumpsIsAscii(fields: seq<Field>)
    requires fields != []
    ensures Ascii(Dumps(fields))
  {
    FieldsAreAscii(fields);
  }
}
