/**
 The opaque page cursor: a JSON payload in unpadded base64url, a dot, and the
 hexadecimal HMAC of the encoded payload. The HMAC under the server's key is a
 parameter `sign`; nothing is assumed of it here.
 */
module Cursor {
  import opened Wrappers
  import opened Text
  import opened Json
  import Base64Url

  /** What a page sorts by, and what its cursor carries. */
  datatype Key = Key(at: Timestamp, id: Uuid)

  type Sign = string -> string

  function ToBytes(s: string): (b: seq<Base64Url.Byte>)
    requires Ascii(s)
    ensures |b| == |s|
    ensures forall i :: 0 <= i < |s| ==> b[i] == s[i] as int
  {
    if s == "" then []
    else
      assert s[0] in s && forall c <- s[1..] :: c in s;
      var first: Base64Url.Byte := s[0] as int;
      [first] + ToBytes(s[1..])
  }

  function FromBytes(b: seq<Base64Url.Byte>): Option<string> {
    if forall x <- b :: x < 128 then Some(seq(|b|, i requires 0 <= i < |b| => b[i] as char)) else None
  }

  lemma BytesRoundTrip(s: string)
    requires Ascii(s)
    ensures FromBytes(ToBytes(s)) == Some(s)
  {
    var b := ToBytes(s);
    forall i | 0 <= i < |b| ensures b[i] < 128 { assert s[i] in s; }
    assert FromBytes(b).value == s;
  }

  function Payload(resource: string, scope: string, key: Key): (fields: seq<Field>)
    ensures fields != []
  {
    [("v", Number(1)), ("resource", String(resource)), ("created_at", String(IsoFormat(key.at))),
     ("id", String(UuidText(key.id))), ("scope", String(scope))]
  }

  function Body(resource: string, scope: string, key: Key): string {
    DumpsIsAscii(Payload(resource, scope, key));
    Base64Url.Strip(Base64Url.Encode(ToBytes(Dumps(Payload(resource, scope, key)))))
  }

  function Encode(sign: Sign, resource: string, scope: string, key: Key): string {
    var body := Body(resource, scope, key);
    body + "." + sign(body)
  }

  /** `value.split(".", 1)` */
  function Split(value: string): (r: Option<(string, string)>)
    ensures r.Some? ==> '.' !in r.value.0 && value == r.value.0 + "." + r.value.1
  {
    if value == "" then None
    else if value[0] == '.' then Some(("", value[1..]))
    else
      var (head, tail) :- Split(value[1..]);
      Some(([value[0]] + head, tail))
  }

  lemma {:induction false} SplitAtFirstDot(head: string, tail: string)
    requires '.' !in head
    ensures Split(head + "." + tail) == Some((head, tail))
  {
    var s := head + "." + tail;
    if head == "" {
      assert s[0] == '.' && s[1..] == tail;
    } else {
      assert s[0] == head[0] && s[1..] == head[1..] + "." + tail;
      SplitAtFirstDot(head[1..], tail);
      assert [head[0]] + head[1..] == head;
    }
  }

  function ReadPayload(fields: seq<Field>, resource: string, scope: string): Option<Key> {
    if Lookup(fields, "v") != Some(Number(1)) || Lookup(fields, "resource") != Some(String(resource))
       || Lookup(fields, "scope") != Some(String(scope)) then None
    else
      var at :- Lookup(fields, "created_at");
      var id :- Lookup(fields, "id");
      if !at.String? || !id.String? then None
      else
        var t :- FromIsoFormat(at.text);
        var u :- ReadUuid(id.text);
        Some(Key(t, u))
  }

  function ReadBody(body: string, resource: string, scope: string): Option<Key> {
    var bytes :- Base64Url.Decode(Base64Url.Pad(body));
    var text :- FromBytes(bytes);
    var fields :- Loads(text);
    ReadPayload(fields, resource, scope)
  }

  /** None stands for the one INVALID_CURSOR error every failure becomes. */
  function Decode(sign: Sign, resource: string, scope: string, value: string): Option<Key> {
    var (body, signature) :- Split(value);
    if signature != sign(body) then None else ReadBody(body, resource, scope)
  }

  lemma PayloadRoundTrip(resource: string, scope: string, key: Key, resource': string, scope': string)
    ensures ReadPayload(Payload(resource, scope, key), resource', scope')
         == if resource == resource' && scope == scope' then Some(key) else None
  {
    IsoRoundTrip(key.at);
    UuidRoundTrip(key.id);
    var f := Payload(resource, scope, key);
    var at, id := String(IsoFormat(key.at)), String(UuidText(key.id));
    assert f[..4] == [("v", Number(1)), ("resource", String(resource)), ("created_at", at), ("id", id)];
    assert f[..4][..3] == [("v", Number(1)), ("resource", String(resource)), ("created_at", at)];
    assert f[..4][..3][..2] == [("v", Number(1)), ("resource", String(resource))];
    LookupLast(f, 4);
    LookupSkips(f, "id");
    LookupLast(f[..4], 3);
    LookupSkips(f, "created_at");
    LookupSkips(f[..4], "created_at");
    LookupLast(f[..4][..3], 2);
    LookupSkips(f, "resource");
    LookupSkips(f[..4], "resource");
    LookupSkips(f[..4][..3], "resource");
    LookupLast(f[..4][..3][..2], 1);
    LookupSkips(f, "v");
    LookupSkips(f[..4], "v");
    LookupSkips(f[..4][..3], "v");
    LookupSkips(f[..4][..3][..2], "v");
  }

  lemma LookupLast(f: seq<Field>, k: nat)
    requires |f| == k + 1
    ensures Lookup(f, f[k].0) == Some(f[k].1)
  {
  }

  lemma LookupSkips(f: seq<Field>, name: string)
    requires f != [] && f[|f| - 1].0 != name
    ensures Lookup(f, name) == Lookup(f[..|f| - 1], name)
  {
  }

  lemma BodyRoundTrip(resource: string, scope: string, key: Key, resource': string, scope': string)
    ensures '.' !in Body(resource, scope, key)
    ensures ReadBody(Body(resource, scope, key), resource', scope')
         == if resource == resource' && scope == scope' then Some(key) else None
  {
    var fields := Payload(resource, scope, key);
    DumpsIsAscii(fields);
    Base64Url.RoundTrip(ToBytes(Dumps(fields)));
    BytesRoundTrip(Dumps(fields));
    Json.RoundTrip(fields);
    PayloadRoundTrip(resource, scope, key, resource', scope');
  }

  /**
   A cursor decodes to the key it was made from, and it decodes at all only for
   the resource and the scope it was made for, whatever the HMAC is.
   */
  lemma RoundTrip(sign: Sign, resource: string, scope: string, key: Key, resource': string, scope': string)
    ensures Decode(sign, resource', scope', Encode(sign, resource, scope, key))
         == if resource == resource' && scope == scope' then Some(key) else None
  {
    var body := Body(resource, scope, key);
    BodyRoundTrip(resource, scope, key, resource', scope');
    SplitAtFirstDot(body, sign(body));
  }

  /** Every accepted value carries the server's own signature of its first part. */
  lemma AcceptedIsSigned(sign: Sign, resource: string, scope: string, value: string)
    requires Decode(sign, resource, scope, value).Some?
    ensures exists body :: '.' !in body && value == body + "." + sign(body)
  {
    var parts := Split(value).value;
    assert value == parts.0 + "." + sign(parts.0);
  }

  /**
   When the signed part of an accepted value was written by the server (which is
   what an unforgeable signature grants), it was written for this very resource
   and scope, and the key returned is the key it was written for.
   */
  lemma AcceptedWasIssued(sign: Sign, resource: string, scope: string, value: string,
                          resource': string, scope': string, key': Key)
    requires Decode(sign, resource, scope, value).Some?
    requires Split(value).value.0 == Body(resource', scope', key')
    ensures resource' == resource && scope' == scope
    ensures Decode(sign, resource, scope, value) == Some(key')
    ensures value == Encode(sign, resource, scope, key')
  {
    BodyRoundTrip(resource', scope', key', resource, scope);
  }
}
