/** The text that the authentication middleware keeps in Redis for a validated key:
    `digest:key_id:org_id:flag`, written on a cache miss and taken apart again on a hit.

    `Digest` stands for SHA-256.  All that any proof uses is that it is injective and that it
    never produces a colon; the escape code below is the simplest function with both properties.
 */
module CacheCodec {

  /** Canonical 8-4-4-4-12 lower-case form, the one `str(uuid)` writes. */
  type Uuid = s: string | IsUuid(s) witness NIL_UUID

  const NIL_UUID: string := "00000000-0000-0000-0000-000000000000"

  predicate IsUuid(s: string) {
    |s| == 36 && forall i | 0 <= i < 36 :: if i in {8, 13, 18, 23} then s[i] == '-' else IsHex(s[i])
  }

  predicate IsHex(c: char) {
    '0' <= c <= '9' || 'a' <= c <= 'f'
  }

  datatype KeyInfo = KeyInfo(keyId: Uuid, orgId: Uuid, debug: bool)

  /** What Redis may hand back: bytes that are not UTF-8, or text. */
  datatype Blob = Undecodable | Text(text: string)

  /** Reading a cached blob on behalf of one token. */
  datatype Lookup = Hit(info: KeyInfo) | Mismatch | Corrupt | Unusable

  // ---------- splitting on the colon ----------

  predicate ColonFree(s: string) {
    ':' !in s
  }

  /** Python's `s.split(":")`. */
  function Split(s: string): (parts: seq<string>)
    ensures |parts| >= 1
  {
    if s == [] then [[]]
    else
      var rest := Split(s[1..]);
      if s[0] == ':' then [[]] + rest else [[s[0]] + rest[0]] + rest[1..]
  }

  function Join(parts: seq<string>): string
    requires |parts| >= 1
  {
    if |parts| == 1 then parts[0] else parts[0] + ":" + Join(parts[1..])
  }

  lemma {:induction false} SplitOfColonFree(s: string)
    requires ColonFree(s)
    ensures Split(s) == [s]
  {
    if s != [] {
      SplitOfColonFree(s[1..]);
      assert [s[0]] + s[1..] == s;
    }
  }

  lemma {:induction false} SplitAtFirstColon(head: string, tail: string)
    requires ColonFree(head)
    ensures Split(head + ":" + tail) == [head] + Split(tail)
  {
    var s := head + ":" + tail;
    if head == [] {
      assert s[1..] == tail;
    } else {
      assert s[1..] == head[1..] + ":" + tail;
      SplitAtFirstColon(head[1..], tail);
      assert s[0] == head[0] && [head[0]] + head[1..] == head;
      assert ([head[1..]] + Split(tail))[1..] == Split(tail);
    }
  }

  /** Splitting undoes joining, whatever the number of fields. */
  lemma {:induction false} SplitInvertsJoin(parts: seq<string>)
    requires |parts| >= 1
    requires forall i | 0 <= i < |parts| :: ColonFree(parts[i])
    ensures Split(Join(parts)) == parts
  {
    if |parts| == 1 {
      SplitOfColonFree(parts[0]);
    } else {
      SplitAtFirstColon(parts[0], Join(parts[1..]));
      SplitInvertsJoin(parts[1..]);
    }
  }

  // ---------- the digest ----------

  function Digest(token: string): string {
    if token == [] then [] else Escape(token[0]) + Digest(token[1..])
  }

  function Escape(c: char): string {
    if c == ':' then "%c" else if c == '%' then "%%" else [c]
  }

  lemma {:induction false} DigestIsColonFree(token: string)
    ensures ColonFree(Digest(token))
  {
    if token != [] {
      DigestIsColonFree(token[1..]);
    }
  }

  lemma {:induction false} DigestIsInjective(a: string, b: string)
    requires Digest(a) == Digest(b)
    ensures a == b
  {
    if a != [] && b != [] {
      var x, y := Escape(a[0]), Escape(b[0]);
      assert Digest(a)[0] == x[0] && Digest(b)[0] == y[0];
      if x[0] == '%' {
        assert Digest(a)[1] == x[1] && Digest(b)[1] == y[1];
      }
      assert a[0] == b[0];
      assert Digest(a)[|x|..] == Digest(a[1..]) && Digest(b)[|x|..] == Digest(b[1..]);
      DigestIsInjective(a[1..], b[1..]);
    }
  }

  // ---------- building and reading a value ----------

  function Encode(token: string, info: KeyInfo): Blob {
    Text(Join([Digest(token), info.keyId, info.orgId, if info.debug then "1" else "0"]))
  }

  /** The branches of the cache-hit path: fewer than three fields is ignored, the digest is compared
      before the ids are parsed, and a missing fourth field means debug mode is off. */
  function Decode(token: string, blob: Blob): Lookup {
    match blob
    case Undecodable => Corrupt
    case Text(text) =>
      var parts := Split(text);
      if |parts| < 3 then Unusable
      else if parts[0] != Digest(token) then Mismatch
      else if !IsUuid(parts[1]) || !IsUuid(parts[2]) then Corrupt
      else Hit(KeyInfo(parts[1], parts[2], |parts| > 3 && parts[3] == "1"))
  }

  /** Reading undoes writing for the token it was written for, and any other token is refused. */
  lemma DecodeInvertsEncode(writer: string, reader: string, info: KeyInfo)
    ensures Decode(reader, Encode(writer, info)) == if reader == writer then Hit(info) else Mismatch
  {
    var parts := [Digest(writer), info.keyId, info.orgId, if info.debug then "1" else "0"];
    DigestIsColonFree(writer);
    UuidIsColonFree(info.keyId);
    UuidIsColonFree(info.orgId);
    SplitInvertsJoin(parts);
    if Digest(reader) == Digest(writer) {
      DigestIsInjective(reader, writer);
    }
  }

  /** What each shape of a cached text means to a reader. */
  lemma DecodeReads(token: string, parts: seq<string>)
    requires parts != [] && forall p | p in parts :: ColonFree(p)
    ensures var found := Decode(token, Text(Join(parts)));
      && (|parts| <= 2 ==> found == Unusable)
      && (|parts| >= 3 && parts[0] != Digest(token) ==> found == Mismatch)
      && (|parts| >= 3 && parts[0] == Digest(token) && !(IsUuid(parts[1]) && IsUuid(parts[2])) ==> found == Corrupt)
      && (|parts| >= 3 && parts[0] == Digest(token) && IsUuid(parts[1]) && IsUuid(parts[2]) ==>
            && found.Hit? && found.info.keyId == parts[1] && found.info.orgId == parts[2]
            && (found.info.debug <==> |parts| >= 4 && parts[3] == "1"))
  {
    SplitInvertsJoin(parts);
  }

  lemma UuidIsColonFree(s: string)
    requires IsUuid(s)
    ensures ColonFree(s)
  {
    forall i | 0 <= i < |s| ensures s[i] != ':' {
      assert if i in {8, 13, 18, 23} then s[i] == '-' else IsHex(s[i]);
    }
  }
}
