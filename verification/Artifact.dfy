/** The assertion artifact: built by the identity provider, carried by query or form, read and
    resolved to its issuer by the service provider. */
module Artifact {
  import opened Wrappers
  import opened Base64
  import opened UrlQuery
  import opened IdFf
  import opened LoginModel

  type Digest = d: seq<Byte> | |d| == 20 witness seq(20, _ => 0)

  /* ----- building and sending ----- */

  // Type code 0x0003, the succinct identifier of the issuer, a random handle: section 3.2.2.2
  // of the Liberty ID-FF Bindings and Profiles Specification.
  function ArtifactBytes(succinctId: Digest, handle: Digest): (r: seq<Byte>)
    ensures |r| == 42 && r[..2] == [0, 3] && r[2..22] == succinctId && r[22..] == handle
  {
    var typeCode: seq<Byte> := [0, 3];
    typeCode + succinctId + handle
  }

  function ArtifactText(succinctId: Digest, handle: Digest): string {
    Encode(ArtifactBytes(succinctId, handle))
  }

  const ARTIFACT_KEY := "SAMLart="

  function ArtifactQuery(text: string, relay: Option<string>): string {
    if relay.None? then ARTIFACT_KEY + Escape(text)
    else ARTIFACT_KEY + Escape(text) + "&" + (RELAY_KEY + Escape(relay.value))
  }

  // What reaches the service provider: the query of the redirection, or the form field.
  function Message(via: HttpMethod, text: string, relay: Option<string>): string {
    if via == Redirect then ArtifactQuery(text, relay) else text
  }

  /* ----- reading ----- */

  predicate HasPrefix(s: string, prefix: string) {
    |prefix| <= |s| && s[..|prefix|] == prefix
  }

  // The value of the last field with a key.
  function LastWith(key: string, fields: seq<string>): Option<string> {
    if fields == [] then None
    else
      var n := |fields| - 1;
      if HasPrefix(fields[n], key) then Some(fields[n][|key|..]) else LastWith(key, fields[..n])
  }

  function ReadText(via: HttpMethod, message: string): Option<string> {
    if via == Redirect then LastWith(ARTIFACT_KEY, Fields(message)) else Some(message)
  }

  // The relay state that travels in the query; the form has a field of its own for it.
  function ReadRelay(via: HttpMethod, message: string): Option<string> {
    if via == Redirect then LastWith(RELAY_KEY, Fields(message)) else None
  }

  // A buffer of 43 bytes after a successful decoding: what lies beyond the decoded bytes is
  // what the buffer held before.
  function Decoded(data: seq<Byte>, buffer: seq<Byte>): (r: seq<Byte>)
    requires |data| <= 42 && |buffer| == 43
    ensures |r| == 43
  {
    data + buffer[|data|..]
  }

  // The table of known providers is searched in the order of its traversal.
  function FindByHash(order: seq<string>, sha1: string -> Digest, hash: string): Option<string> {
    if order == [] then None
    else if Encode(sha1(order[0])) == hash then Some(order[0])
    else FindByHash(order[1..], sha1, hash)
  }

  function ReadIssuer(text: string, buffer: seq<Byte>, order: seq<string>, sha1: string -> Digest):
    Result<Option<string>, int>
    requires |buffer| == 43
  {
    var data := Decode(text);
    if data.None? || |data.value| > 42 then Err(PROFILE_INVALID_ARTIFACT)
    else
      var artifact := Decoded(data.value, buffer);
      if artifact[0] != 0 || artifact[1] != 3 then Err(PROFILE_INVALID_ARTIFACT)
      else Ok(FindByHash(order, sha1, Encode(artifact[2..22])))
  }

  function ReadMessage(via: HttpMethod, message: string, buffer: seq<Byte>, order: seq<string>, sha1: string -> Digest):
    Result<Option<string>, int>
    requires |buffer| == 43
  {
    match ReadText(via, message)
    case None => Err(PROFILE_MISSING_ARTIFACT)
    case Some(text) => ReadIssuer(text, buffer, order, sha1)
  }

  /* ----- transport ----- */

  predicate IsKey(key: string) {
    IsText(key) && NoSeparator(key) && '%' !in key
  }

  // A field that is sent escaped under a key is read back.
  lemma FieldReadBack(key: string, value: string)
    requires IsKey(key) && IsText(value)
    ensures Field(key + Escape(value)) == key + value && NoSeparator(key + Escape(value))
  {
    EscapedHasNoSeparator(value);
    UnescapePlain(key, Escape(value));
    UnescapeEscape(value);
    TextIsCString(key + value);
  }

  lemma OneFieldReadBack(key: string, value: string)
    requires IsKey(key) && IsText(value)
    ensures Fields(key + Escape(value)) == [key + value]
  {
    FieldReadBack(key, value);
    PiecesOfPlain(key + Escape(value));
  }

  lemma TwoFieldsReadBack(key1: string, value1: string, key2: string, value2: string)
    requires IsKey(key1) && IsText(value1) && IsKey(key2) && IsText(value2)
    ensures Fields(key1 + Escape(value1) + "&" + (key2 + Escape(value2))) == [key1 + value1, key2 + value2]
  {
    FieldReadBack(key1, value1);
    FieldReadBack(key2, value2);
    PiecesSplit(key1 + Escape(value1), '&', key2 + Escape(value2));
    PiecesOfPlain(key2 + Escape(value2));
  }

  lemma Prefixed(key: string, value: string)
    ensures HasPrefix(key + value, key) && (key + value)[|key|..] == value
  {
  }

  lemma KeysAreKeys()
    ensures IsKey(ARTIFACT_KEY) && IsKey(RELAY_KEY)
    ensures |ARTIFACT_KEY| == 8 && |RELAY_KEY| == 11 && ARTIFACT_KEY[0] != RELAY_KEY[0]
  {
  }

  // The query as it is written.
  lemma QueryExample()
    ensures ArtifactQuery("x", Some("/")) == "SAMLart=x" + "&" + "RelayState=%2F"
  {
    assert Escape("") == "" && "x"[1..] == "" && "/"[1..] == "";
    assert Escape("x") == "x" && Escape("/") == "%2F";
  }

  /** The artifact and the relay state arrive as they were sent, whatever bytes the relay state
      is made of. */
  lemma QueryReadBack(text: string, relay: Option<string>)
    requires IsText(text) && (relay.Some? ==> IsText(relay.value))
    ensures var fields := Fields(ArtifactQuery(text, relay));
            LastWith(ARTIFACT_KEY, fields) == Some(text) && LastWith(RELAY_KEY, fields) == relay
  {
    KeysAreKeys();
    Prefixed(ARTIFACT_KEY, text);
    var field := ARTIFACT_KEY + text;
    assert field[0] == ARTIFACT_KEY[0];
    if relay.None? {
      OneFieldReadBack(ARTIFACT_KEY, text);
    } else {
      TwoFieldsReadBack(ARTIFACT_KEY, text, RELAY_KEY, relay.value);
      Prefixed(RELAY_KEY, relay.value);
      var second := RELAY_KEY + relay.value;
      assert second[0] == RELAY_KEY[0];
      assert [field, second][..1] == [field];
    }
  }

  lemma EncodedIsText(data: seq<Byte>)
    ensures IsText(Encode(data))
  {
    EncodedAlphabet(data);
    var text := Encode(data);
    forall i | 0 <= i < |text|
      ensures 0 < text[i] as int < 256
    {
      assert text[i] in text;
    }
  }

  /* ----- resolution ----- */

  // No other known provider has the succinct identifier of the issuer.
  ghost predicate Unambiguous(known: set<string>, sha1: string -> Digest, issuer: string) {
    forall p :: p in known && sha1(p) == sha1(issuer) ==> p == issuer
  }

  lemma {:induction false} FindByHashFinds(order: seq<string>, sha1: string -> Digest, issuer: string)
    requires issuer in order
    requires forall p :: p in order && sha1(p) == sha1(issuer) ==> p == issuer
    ensures FindByHash(order, sha1, Encode(sha1(issuer))) == Some(issuer)
  {
    if order[0] != issuer {
      if Encode(sha1(order[0])) == Encode(sha1(issuer)) {
        EncodeInjective(sha1(order[0]), sha1(issuer));
      }
      FindByHashFinds(order[1..], sha1, issuer);
    }
  }

  lemma {:induction false} FindByHashSound(order: seq<string>, sha1: string -> Digest, digest: Digest)
    ensures var r := FindByHash(order, sha1, Encode(digest));
            if r.Some? then r.value in order && sha1(r.value) == digest else forall p :: p in order ==>
                sha1(p) != digest
  {
    if order != [] {
      FindByHashSound(order[1..], sha1, digest);
      if Encode(sha1(order[0])) == Encode(digest) {
        EncodeInjective(sha1(order[0]), digest);
      }
    }
  }

  // A set can be listed with any of its elements first.
  lemma {:induction false} ListingFrom(keys: set<string>, first: string) returns (order: seq<string>)
    requires first in keys
    ensures Enumerates(order, keys) && order[0] == first
    decreases keys
  {
    var rest := keys - {first};
    if rest == {} {
      order := [first];
      assert keys == {first};
    } else {
      var next :| next in rest;
      var tail := ListingFrom(rest, next);
      order := [first] + tail;
      forall k
        ensures k in order <==> k in keys
      {
        assert k in order <==> k == first || k in tail;
      }
    }
  }

  /* ----- the round trip ----- */

  lemma ReadBackBytes(succinctId: Digest, handle: Digest)
    ensures Decode(ArtifactText(succinctId, handle)) == Some(ArtifactBytes(succinctId, handle))
  {
    DecodeEncode(ArtifactBytes(succinctId, handle));
  }

  // The artifact resolves to whatever known provider is found first under the issuer's hash.
  lemma ReadsSuccinctId(via: HttpMethod, relay: Option<string>, succinctId: Digest, handle: Digest,
                        buffer: seq<Byte>, order: seq<string>, sha1: string -> Digest)
    requires relay.Some? ==> IsText(relay.value)
    requires |buffer| == 43
    ensures var text := ArtifactText(succinctId, handle);
            && ReadText(via, Message(via, text, relay)) == Some(text)
            && ReadMessage(via, Message(via, text, relay), buffer, order, sha1)
               == Ok(FindByHash(order, sha1, Encode(succinctId)))
  {
    var bytes := ArtifactBytes(succinctId, handle);
    var text := ArtifactText(succinctId, handle);
    EncodedIsText(bytes);
    QueryReadBack(text, relay);
    ReadBackBytes(succinctId, handle);
    var artifact := Decoded(bytes, buffer);
    assert artifact[..42] == bytes;
    assert artifact[0] == bytes[..2][0] && artifact[1] == bytes[..2][1];
    assert artifact[2..22] == bytes[2..22];
  }

  /** The artifact round trip. For every issuer, handle, relay state, earlier content of the
      buffer and traversal order of the provider table: the request for the assertion goes to
      the issuer and carries the artifact that the issuer has built, and a relay state sent in
      the query is back. */
  lemma ArtifactRoundTrip(s: Login, via: HttpMethod, relay: Option<string>, issuer: string, handle: Digest,
                          buffer: seq<Byte>, known: set<string>, order: seq<string>, sha1: string -> Digest,
                          freshId: string)
    requires via == Redirect || via == Post
    requires relay.Some? ==> IsText(relay.value)
    requires |buffer| == 43
    requires Enumerates(order, known) && issuer in known && Unambiguous(known, sha1, issuer)
    ensures var text := ArtifactText(sha1(issuer), handle);
            var message := Message(via, text, relay);
            && Decode(text) == Some(ArtifactBytes(sha1(issuer), handle))
            && ReadText(via, message) == Some(text)
            && InitArtifactRequest(s, via, ReadRelay(via, message), ReadMessage(via, message, buffer, order, sha1),
               text,
                                   freshId)
               == (s.(relayState := if via == Redirect && relay.Some? then relay else s.relayState,
                      remote := Some(issuer), request := Some(ArtifactRequest(freshId, text))), 0)
  {
    EncodedIsText(ArtifactBytes(sha1(issuer), handle));
    QueryReadBack(ArtifactText(sha1(issuer), handle), relay);
    ReadsSuccinctId(via, relay, sha1(issuer), handle, buffer, order, sha1);
    ReadBackBytes(sha1(issuer), handle);
    FindByHashFinds(order, sha1, issuer);
  }

  // Whatever the traversal order, the artifact is resolved to its issuer.
  ghost predicate AlwaysResolves(via: HttpMethod, message: string, buffer: seq<Byte>, known: set<string>,
                                 sha1: string -> Digest, issuer: string)
    requires |buffer| == 43
  {
    forall order :: Enumerates(order, known) ==> ReadMessage(via, message, buffer, order, sha1) == Ok(Some(issuer))
  }

  /** Resolution does not depend on the traversal order exactly when the issuer is known and no
      other known provider shares its succinct identifier. */
  lemma ResolvesExactly(via: HttpMethod, relay: Option<string>, issuer: string, handle: Digest,
                        buffer: seq<Byte>, known: set<string>, sha1: string -> Digest)
    requires relay.Some? ==> IsText(relay.value)
    requires |buffer| == 43
    ensures AlwaysResolves(via, Message(via, ArtifactText(sha1(issuer), handle), relay), buffer, known, sha1, issuer)
            <==> issuer in known && Unambiguous(known, sha1, issuer)
  {
    var message := Message(via, ArtifactText(sha1(issuer), handle), relay);
    if issuer in known && Unambiguous(known, sha1, issuer) {
      forall order | Enumerates(order, known)
        ensures ReadMessage(via, message, buffer, order, sha1) == Ok(Some(issuer))
      {
        ReadsSuccinctId(via, relay, sha1(issuer), handle, buffer, order, sha1);
        FindByHashFinds(order, sha1, issuer);
      }
    } else {
      var order := [];
      if issuer in known {
        var first :| first in known && sha1(first) == sha1(issuer) && first != issuer;
        order := ListingFrom(known, first);
      } else if known != {} {
        var first :| first in known;
        order := ListingFrom(known, first);
      }
      ReadsSuccinctId(via, relay, sha1(issuer), handle, buffer, order, sha1);
      FindByHashSound(order, sha1, sha1(issuer));
    }
  }

  /* ----- the earlier content of the buffer ----- */

  // What a text is read as depends on nothing that the buffer held before.
  ghost predicate Independent(text: string) {
    forall b1: seq<Byte>, b2: seq<Byte>, order: seq<string>, sha1: string -> Digest ::
      |b1| == |b2| == 43 ==> ReadIssuer(text, b1, order, sha1) == ReadIssuer(text, b2, order, sha1)
  }

  // The text is refused whatever follows, or gives the whole succinct identifier.
  predicate Settled(text: string) {
    match Decode(text)
    case None => true
    case Some(data) => |data| >= 22 || (|data| >= 1 && data[0] != 0) || (|data| >= 2 && data[1] != 3)
  }

  lemma SettledReads(text: string, b1: seq<Byte>, b2: seq<Byte>, order: seq<string>, sha1: string -> Digest)
    requires Settled(text) && |b1| == |b2| == 43
    ensures ReadIssuer(text, b1, order, sha1) == ReadIssuer(text, b2, order, sha1)
  {
    var data := Decode(text);
    if data.Some? && 22 <= |data.value| <= 42 {
      var a1, a2 := Decoded(data.value, b1), Decoded(data.value, b2);
      assert a1[..22] == data.value[..22] == a2[..22];
      assert a1[2..22] == a1[..22][2..] && a2[2..22] == a2[..22][2..];
    }
  }

  // A buffer of zeros but for the type code and one byte.
  function Filled(last: Byte): (b: seq<Byte>)
    ensures |b| == 43 && b[0] == 0 && b[1] == 3 && b[21] == last
  {
    [0, 3] + seq(19, _ => 0) + [last] + seq(21, _ => 0)
  }

  // The one known provider has the hash that the first buffer completes.
  lemma UnsettledHash(text: string, data: seq<Byte>) returns (sha1: string -> Digest)
    requires Decode(text) == Some(data) && 2 <= |data| < 22 && data[0] == 0 && data[1] == 3
    ensures ReadIssuer(text, Filled(1), [""], sha1) != ReadIssuer(text, Filled(2), [""], sha1)
  {
    var a1, a2 := Decoded(data, Filled(1)), Decoded(data, Filled(2));
    assert a1[21] == 1 && a2[21] == 2;
    var hash: Digest, other: Digest := a1[2..22], a2[2..22];
    assert hash[19] != other[19];
    sha1 := _ => hash;
    if Encode(hash) == Encode(other) {
      EncodeInjective(hash, other);
    }
    assert FindByHash([""], sha1, Encode(hash)) == Some("");
    assert FindByHash([""], sha1, Encode(other)) == None;
  }

  lemma UnsettledReads(text: string) returns (b1: seq<Byte>, b2: seq<Byte>, order: seq<string>, sha1: string -> Digest)
    requires !Settled(text)
    ensures |b1| == |b2| == 43
    ensures ReadIssuer(text, b1, order, sha1) != ReadIssuer(text, b2, order, sha1)
  {
    var data := Decode(text).value;
    b1 := Filled(1);
    if |data| < 2 {
      b2 := seq(43, _ => 0);
      order, sha1 := [], _ => seq(20, _ => 0);
      assert Decoded(data, b1)[0] == 0 && Decoded(data, b1)[1] == 3 && Decoded(data, b2)[1] == 0;
    } else {
      b2, order := Filled(2), [""];
      sha1 := UnsettledHash(text, data);
    }
  }

  /** What the buffer held before plays no part if and only if the text cannot be decoded, decodes
      to too many bytes or to at least 22, or has a wrong byte in its type code. The empty text is
      one that is read from the buffer alone. */
  lemma EarlierContentExactly(text: string)
    ensures Independent(text) <==> Settled(text)
    ensures !Independent("")
  {
    if Settled(text) {
      forall b1: seq<Byte>, b2: seq<Byte>, order: seq<string>, sha1: string -> Digest | |b1| == |b2| == 43
        ensures ReadIssuer(text, b1, order, sha1) == ReadIssuer(text, b2, order, sha1)
      {
        SettledReads(text, b1, b2, order, sha1);
      }
    } else {
      var b1, b2, order, sha1 := UnsettledReads(text);
    }
    var b1, b2, order, sha1 := UnsettledReads("");
  }

  /* ----- the calls ----- */

  method CopyBytes(target: array<Byte>, at: nat, data: seq<Byte>)
    requires at + |data| <= target.Length
    modifies target
    ensures target[..] == old(target[..at]) + data + old(target[at + |data|..])
  {
    var i := 0;
    while i < |data|
      invariant 0 <= i <= |data|
      invariant forall k :: 0 <= k < at || at + i <= k < target.Length ==> target[k] == old(target[k])
      invariant forall k :: 0 <= k < i ==> target[at + k] == data[k]
    {
      target[at + i] := data[i];
      i := i + 1;
    }
    assert target[at..at + |data|] == data;
    assert target[..] == target[..at] + target[at..at + |data|] + target[at + |data|..];
  }

  /** Copying the three parts into the buffer of 42 bytes. */
  method BuildArtifact(succinctId: Digest, handle: Digest) returns (text: string)
    ensures text == ArtifactText(succinctId, handle)
  {
    var samlArt := new Byte[42](_ => 0);
    CopyBytes(samlArt, 0, [0, 3]);
    CopyBytes(samlArt, 2, succinctId);
    CopyBytes(samlArt, 22, handle);
    assert samlArt[..] == ArtifactBytes(succinctId, handle);
    text := Encode(samlArt[..]);
  }

  lemma LastWithNext(key: string, fields: seq<string>, i: nat)
    requires i < |fields|
    ensures LastWith(key, fields[..i + 1]) ==
            if HasPrefix(fields[i], key) then Some(fields[i][|key|..]) else LastWith(key, fields[..i])
  {
    assert fields[..i + 1][..i] == fields[..i];
  }

  /** The scan of the fields of a query: the last field of each key counts. */
  method ReadQuery(message: string) returns (text: Option<string>, relay: Option<string>)
    ensures text == LastWith(ARTIFACT_KEY, Fields(message))
    ensures relay == LastWith(RELAY_KEY, Fields(message))
  {
    var fields := UrlencodedToStrings(message);
    text, relay := None, None;
    var i := 0;
    ghost var all, list := Fields(message), fields[..];
    while fields[i].Some?
      invariant 0 <= i <= |all| && fields[..] == list
      invariant text == LastWith(ARTIFACT_KEY, all[..i])
      invariant relay == LastWith(RELAY_KEY, all[..i])
      decreases |all| - i
    {
      assert fields[i] == list[i];
      var field := fields[i].value;
      LastWithNext(ARTIFACT_KEY, all, i);
      LastWithNext(RELAY_KEY, all, i);
      if HasPrefix(field, ARTIFACT_KEY) {
        text := Some(field[|ARTIFACT_KEY|..]);
      }
      if HasPrefix(field, RELAY_KEY) {
        relay := Some(field[|RELAY_KEY|..]);
      }
      i := i + 1;
    }
    assert fields[i] == list[i];
    assert all[..i] == all;
  }

  method GetProviderIDFromHash(order: seq<string>, sha1: string -> Digest, hash: string) returns (id: Option<string>)
    ensures id == FindByHash(order, sha1, hash)
  {
    var i := 0;
    while i < |order|
      invariant 0 <= i <= |order|
      invariant FindByHash(order, sha1, hash) == FindByHash(order[i..], sha1, hash)
    {
      if Encode(sha1(order[i])) == hash {
        return Some(order[i]);
      }
      assert order[i..][1..] == order[i + 1..];
      i := i + 1;
    }
    return None;
  }

  /** Decoding into the buffer, then resolving. */
  method ResolveArtifact(text: string, artifact: array<Byte>, order: seq<string>, sha1: string -> Digest)
    returns (issuer: Result<Option<string>, int>)
    requires artifact.Length == 43
    modifies artifact
    ensures issuer == ReadIssuer(text, old(artifact[..]), order, sha1)
  {
    var data := Decode(text);
    if data.None? || |data.value| > 42 {
      return Err(PROFILE_INVALID_ARTIFACT);
    }
    CopyBytes(artifact, 0, data.value);
    assert artifact[..] == Decoded(data.value, old(artifact[..]));
    if artifact[0] != 0 || artifact[1] != 3 {
      return Err(PROFILE_INVALID_ARTIFACT);
    }
    var id := GetProviderIDFromHash(order, sha1, Encode(artifact[2..22]));
    assert artifact[2..22] == artifact[..][2..22];
    return Ok(id);
  }

  /** Reading a message into a new buffer of 43 bytes, which holds 'earlier' at first. */
  method ReadArtifact(via: HttpMethod, message: string, earlier: seq<Byte>, order: seq<string>, sha1: string -> Digest)
    returns (text: Option<string>, relay: Option<string>, issuer: Result<Option<string>, int>)
    requires |earlier| == 43
    ensures text == ReadText(via, message) && relay == ReadRelay(via, message)
    ensures issuer == ReadMessage(via, message, earlier, order, sha1)
  {
    text, relay := Some(message), None;
    if via == Redirect {
      text, relay := ReadQuery(message);
      if text.None? {
        return text, relay, Err(PROFILE_MISSING_ARTIFACT);
      }
    }
    var artifact := new Byte[43](i requires 0 <= i < 43 => earlier[i]);
    assert artifact[..] == earlier;
    issuer := ResolveArtifact(text.value, artifact, order, sha1);
  }
}
