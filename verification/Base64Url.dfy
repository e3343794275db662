/**
 Unpadded base64url (RFC 4648, sections 3.2 and 5), done the way the cursors do
 it: encode with padding, strip the padding, and on the way back put
 `-len % 4` padding characters on again before decoding.
 */
module Base64Url {
  import opened Wrappers

  type Byte = n: nat | n < 256

  function Symbol(n: nat): (c: char)
    requires n < 64
    ensures c != '.' && c != '='
  {
    if n < 26 then ('A' as int + n) as char
    else if n < 52 then ('a' as int + n - 26) as char
    else if n < 62 then ('0' as int + n - 52) as char
    else if n == 62 then '-' else '_'
  }

  function SymbolValue(c: char): (r: Option<nat>)
    ensures r.Some? ==> r.value < 64
  {
    if 'A' <= c <= 'Z' then Some(c as int - 'A' as int)
    else if 'a' <= c <= 'z' then Some(c as int - 'a' as int + 26)
    else if '0' <= c <= '9' then Some(c as int - '0' as int + 52)
    else if c == '-' then Some(62)
    else if c == '_' then Some(63)
    else None
  }

  lemma SymbolRoundTrip(n: nat)
    requires n < 64
    ensures SymbolValue(Symbol(n)) == Some(n)
  {
  }

  /** `base64.urlsafe_b64encode`: three bytes become four symbols. */
  function Encode(b: seq<Byte>): (s: string)
    ensures |s| % 4 == 0
  {
    if |b| == 0 then ""
    else if |b| == 1 then LastByte(b[0])
    else if |b| == 2 then LastTwoBytes(b[0], b[1])
    else Group(b[0], b[1], b[2]) + Encode(b[3..])
  }

  function LastByte(x: Byte): (s: string)
    ensures |s| == 4
  {
    Group(x, 0, 0)[..2] + Padding(2)
  }

  function LastTwoBytes(x: Byte, y: Byte): (s: string)
    ensures |s| == 4
  {
    Group(x, y, 0)[..3] + Padding(1)
  }

  function Group(x: Byte, y: Byte, z: Byte): (s: string)
    ensures |s| == 4 && forall c <- s :: c != '.' && c != '='
  {
    [Symbol(x / 4), Symbol(x % 4 * 16 + y / 16), Symbol(y % 16 * 4 + z / 64), Symbol(z % 64)]
  }

  /** `value.rstrip("=")` */
  function Strip(s: string): (r: string)
    ensures r <= s && (r != "" ==> r[|r| - 1] != '=')
  {
    if s != "" && s[|s| - 1] == '=' then Strip(s[..|s| - 1]) else s
  }

  function Padding(n: nat): (s: string)
    ensures |s| == n
  {
    if n == 0 then "" else "=" + Padding(n - 1)
  }

  /** `encoded + "=" * (-len(encoded) % 4)` */
  function Pad(s: string): (r: string) {
    s + Padding((4 - |s| % 4) % 4)
  }

  /** Three bytes from the values of four symbols. */
  function Unpack(a: nat, b: nat, c: nat, d: nat): (g: seq<Byte>)
    requires a < 64 && b < 64 && c < 64 && d < 64
    ensures |g| == 3
  {
    [a * 4 + b / 16, b % 16 * 16 + c / 4, c % 4 * 64 + d]
  }

  lemma UnpackGroup(x: Byte, y: Byte, z: Byte)
    ensures Unpack(x / 4, x % 4 * 16 + y / 16, y % 16 * 4 + z / 64, z % 64) == [x, y, z]
  {
  }

  /** `base64.urlsafe_b64decode` of a padded text; None where it raises. */
  function Decode(s: string): Option<seq<Byte>> {
    if s == "" then Some([])
    else if |s| < 4 then None
    else
      var a :- SymbolValue(s[0]);
      var b :- SymbolValue(s[1]);
      if s[2] == '=' then if |s| == 4 && s[3] == '=' then Some(Unpack(a, b, 0, 0)[..1]) else None
      else
        var c :- SymbolValue(s[2]);
        if s[3] == '=' then if |s| == 4 then Some(Unpack(a, b, c, 0)[..2]) else None
        else
          var d :- SymbolValue(s[3]);
          var rest :- Decode(s[4..]);
          Some(Unpack(a, b, c, d) + rest)
  }

  lemma GroupValues(x: Byte, y: Byte, z: Byte)
    ensures var g := Group(x, y, z);
      && SymbolValue(g[0]) == Some(x / 4) && SymbolValue(g[1]) == Some(x % 4 * 16 + y / 16)
      && SymbolValue(g[2]) == Some(y % 16 * 4 + z / 64) && SymbolValue(g[3]) == Some(z % 64)
  {
    SymbolRoundTrip(x / 4);
    SymbolRoundTrip(x % 4 * 16 + y / 16);
    SymbolRoundTrip(y % 16 * 4 + z / 64);
    SymbolRoundTrip(z % 64);
  }

  lemma DecodeGroup(x: Byte, y: Byte, z: Byte, s: string, rest: seq<Byte>)
    requires Decode(s) == Some(rest)
    ensures Decode(Group(x, y, z) + s) == Some([x, y, z] + rest)
  {
    GroupValues(x, y, z);
    UnpackGroup(x, y, z);
    assert (Group(x, y, z) + s)[4..] == s;
  }

  lemma DecodeLastByte(x: Byte)
    ensures Decode(Group(x, 0, 0)[..2] + Padding(2)) == Some([x])
  {
    GroupValues(x, 0, 0);
    UnpackGroup(x, 0, 0);
    assert Padding(2) == "==" && [x, 0, 0][..1] == [x];
  }

  lemma DecodeLastTwoBytes(x: Byte, y: Byte)
    ensures Decode(Group(x, y, 0)[..3] + Padding(1)) == Some([x, y])
  {
    GroupValues(x, y, 0);
    UnpackGroup(x, y, 0);
    assert Padding(1) == "=" && [x, y, 0][..2] == [x, y];
  }

  /** Decoding undoes encoding. */
  lemma {:induction false} DecodeEncode(b: seq<Byte>)
    ensures Decode(Encode(b)) == Some(b)
  {
    if |b| == 1 {
      DecodeLastByte(b[0]);
      assert b == [b[0]];
    } else if |b| == 2 {
      DecodeLastTwoBytes(b[0], b[1]);
      assert b == [b[0], b[1]];
    } else if 3 <= |b| {
      DecodeEncode(b[3..]);
      DecodeGroup(b[0], b[1], b[2], Encode(b[3..]), b[3..]);
      assert [b[0], b[1], b[2]] + b[3..] == b;
    }
  }

  lemma {:induction false} StripPadding(head: string, n: nat)
    requires head != "" && head[|head| - 1] != '='
    ensures Strip(head + Padding(n)) == head
  {
    if n == 0 {
      assert head + Padding(0) == head;
    } else {
      PaddingGrows(n);
      assert (head + Padding(n))[..|head| + n - 1] == head + Padding(n - 1);
      StripPadding(head, n - 1);
    }
  }

  lemma {:induction false} PaddingGrows(n: nat)
    requires n > 0
    ensures Padding(n) == Padding(n - 1) + "="
  {
    if n > 1 { PaddingGrows(n - 1); }
  }

  /** Stripping leaves exactly the symbols, so `-len % 4` says what was stripped. */
  lemma {:induction false} StripEncode(b: seq<Byte>)
    ensures Pad(Strip(Encode(b))) == Encode(b)
    ensures forall c <- Strip(Encode(b)) :: c != '.' && c != '='
  {
    if |b| == 1 {
      StripPadding(Group(b[0], 0, 0)[..2], 2);
    } else if |b| == 2 {
      StripPadding(Group(b[0], b[1], 0)[..3], 1);
    } else if 3 <= |b| {
      StripEncode(b[3..]);
      StripAfter(Group(b[0], b[1], b[2]), Encode(b[3..]));
      PadAfter(Group(b[0], b[1], b[2]), Strip(Encode(b[3..])));
    }
  }

  lemma PadAfter(head: string, s: string)
    requires |head| == 4
    ensures Pad(head + s) == head + Pad(s)
  {
    assert (4 - |head + s| % 4) % 4 == (4 - |s| % 4) % 4;
  }

  lemma {:induction false} StripAfter(head: string, s: string)
    requires head != "" && head[|head| - 1] != '='
    ensures Strip(head + s) == head + Strip(s)
  {
    if s == "" {
      assert head + s == head;
    } else if s[|s| - 1] == '=' {
      assert (head + s)[..|head + s| - 1] == head + s[..|s| - 1];
      StripAfter(head, s[..|s| - 1]);
    }
  }

  /** The whole trip, for every byte string of every length. */
  lemma RoundTrip(b: seq<Byte>)
    ensures Decode(Pad(Strip(Encode(b)))) == Some(b)
    ensures '.' !in Strip(Encode(b))
  {
    DecodeEncode(b);
    StripEncode(b);
  }
}
