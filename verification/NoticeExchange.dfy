/** A termination notice between the two sides: which name it carries, what the receiver makes of
    it, and what becomes of the relay state on the way back. */
module NoticeExchange {
  import opened Wrappers
  import opened IdFf
  import opened UrlQuery
  import opened Artifact
  import opened DefederationModel
  import opened FederationProperties

  /* ----- the notice ----- */

  function FedOf(s: Defederation, other: string): Option<Federation> {
    if s.identity.Some? && other in s.identity.value then Some(s.identity.value[other]) else None
  }

  function SessionName(s: Defederation, other: string): Option<NameId> {
    if s.session.Some? && other in s.session.value.assertions
    then NameIdOf(s.session.value.assertions[other].authn) else None
  }

  // Some name is known for the principal: by the session, or by the federation.
  predicate HasName(s: Defederation, other: string) {
    || SessionName(s, other).Some?
    || (FedOf(s, other).Some? && (FedOf(s, other).value.local.Some? || FedOf(s, other).value.remote.Some?))
  }

  /** Exactly when a notice can be sent. */
  lemma SentExactly(s: Defederation, server: Server, other: string, first: Option<string>, via: HttpMethod,
                    md: Metadata)
    requires Knows(server, other)
    ensures InitNotification(s, server, Some(other), first, via, md).1 == 0 <==>
            FedOf(s, other).Some? && HasName(s, other) && (via == AnyMethod || md.accepts)
  {
  }

  /** The name in a notice: that of the session; else, between mirrored federations, the name that
      the receiver gave the principal, if it gave one, and the sender's own name for it if not. */
  lemma NoticeNames(s: Defederation, server: Server, other: string, first: Option<string>, via: HttpMethod,
                    md: Metadata, theirs: Federation)
    requires Knows(server, other) && InitNotification(s, server, Some(other), first, via, md).1 == 0
    requires FedOf(s, other).Some? && Mirrors(FedOf(s, other).value, theirs)
    ensures var sent := InitNotification(s, server, Some(other), first, via, md).0;
            && sent.request.Some? && sent.request.value.providerID == Some(server.me)
            && sent.request.value.nameId ==
                 (if SessionName(s, other).Some? then SessionName(s, other)
                  else if theirs.local.Some? then theirs.local else theirs.remote)
            && sent.nameId == (if theirs.remote.Some? then theirs.remote else sent.request.value.nameId)
  {
  }

  /* ----- at the receiver ----- */

  // The receiver processes a notice and then validates it.
  function Handle(r: Defederation, server: Server, n: Notification, format: MessageFormat, returnUrl: Option<string>)
    : (Defederation, int)
  {
    var (b, rc) := ProcessNotification(r, server, NotificationMsg(format, true, n, 0));
    if rc != 0 then (b, rc) else ValidateNotification(b, server, returnUrl)
  }

  // The way in which a notice has come.
  function CameBy(r: Defederation, format: MessageFormat): HttpMethod {
    match format
    case SoapFormat => Soap
    case QueryFormat => Redirect
    case OtherFormat => r.via
  }

  /** Exactly when a verified notice is accepted, and what the receiver then is: the sender is gone
      from its identity and session, and nobody else. */
  lemma NoticeAcceptedExactly(r: Defederation, server: Server, n: Notification, format: MessageFormat,
                              returnUrl: Option<string>)
    requires n.providerID.Some?
    ensures var from := n.providerID.value;
            var (b, rc) := Handle(r, server, n, format, returnUrl);
            && (rc == 0 <==>
                && GetProvider(server, Some(from)).Some?
                && (CameBy(r, format) == Redirect ==> returnUrl.Some?)
                && n.nameId.Some? && FedOf(r, from).Some? && Verifies(FedOf(r, from).value, n.nameId.value))
            && (rc == 0 ==>
                && b.remote == Some(from) && b.nameId == n.nameId && b.signatureStatus == 0
                && (n.relayState.Some? ==> b.relayState == n.relayState)
                && (forall q :: FedOf(b, q) == if q == from then None else FedOf(r, q))
                && (r.session.None? ==> b.session.None?)
                && (r.session.Some? ==> b.session == Some(RemoveAssertion(r.session.value, from))))
            && (rc != 0 ==> b.identity == r.identity && b.session == r.session)
  {
  }

  // A notice without a verified signature leaves the identity and the session as they are.
  lemma UnverifiedNotice(r: Defederation, server: Server, msg: NotificationMsg)
    requires msg.signature != 0
    ensures var (b, rc) := ProcessNotification(r, server, msg);
            && rc != 0 && b.identity == r.identity && b.session == r.session
            && (msg.wellFormed && GetProvider(server, msg.notification.providerID).Some? ==>
                rc == msg.signature && b.signatureStatus == msg.signature)
  {
  }

  /** A redirected notice sends the principal back with the relay state that the sender holds; a
      notice by SOAP carries none and sends nobody anywhere. */
  lemma NoticeReturns(s: Defederation, server: Server, other: Server, first: Option<string>, via: HttpMethod,
                      md: Metadata, r: Defederation, url: string)
    requires Knows(server, other.me) && Knows(other, server.me)
    requires InitNotification(s, server, Some(other.me), first, via, md).1 == 0
    requires r.relayState.None?
    ensures var sent := InitNotification(s, server, Some(other.me), first, via, md).0;
            && sent.via == (if via == AnyMethod then md.first else via)
            && (sent.via == Redirect ==>
                Handle(r, other, sent.request.value, QueryFormat, Some(url)).0.url ==
                Some(ReturnAddress(url, s.relayState)))
            && (sent.via == Soap ==>
                && sent.request.value.relayState.None?
                && Handle(r, other, sent.request.value, SoapFormat, Some(url)).0.url.None?)
  {
  }

  /* ----- the return address ----- */

  // The query of an address: what follows the first question mark.
  function QueryOf(url: string): (q: Option<string>)
    ensures q.Some? <==> '?' in url
  {
    if url == "" then None
    else if url[0] == '?' then Some(url[1..])
    else QueryOf(url[1..])
  }

  lemma {:induction false} QueryThen(url: string, tail: string)
    ensures '?' in url ==> QueryOf(url + tail) == Some(QueryOf(url).value + tail)
    ensures '?' !in url ==> QueryOf(url + tail) == QueryOf(tail)
  {
    if url == "" {
      assert url + tail == tail;
    } else {
      assert (url + tail)[0] == url[0] && (url + tail)[1..] == url[1..] + tail;
      QueryThen(url[1..], tail);
      assert [url[0]] + url[1..] == url;
    }
  }

  // The relay state that the sender reads from the address.
  function ReadBack(address: string): Option<string> {
    if QueryOf(address).None? then None else LastWith(RELAY_KEY, Fields(QueryOf(address).value))
  }

  lemma {:induction false} PiecesConcat(a: string, sep: char, b: string)
    requires Separator(sep)
    ensures Pieces(a + [sep] + b) == Pieces(a) + Pieces(b)
  {
    var s := a + [sep] + b;
    if a == "" {
      assert s[1..] == b;
    } else {
      assert s[0] == a[0] && s[1..] == a[1..] + [sep] + b;
      PiecesConcat(a[1..], sep, b);
      var rest, after := Pieces(a[1..]), Pieces(b);
      Fronted(rest, after, if Separator(s[0]) then "" else [s[0]] + rest[0]);
    }
  }

  lemma Fronted(rest: seq<string>, after: seq<string>, first: string)
    requires rest != []
    ensures (rest + after)[0] == rest[0]
    ensures [first] + (rest + after)[1..] == [first] + rest[1..] + after
    ensures [first] + (rest + after) == [first] + rest + after
  {
  }

  lemma {:induction false} LastOfTwo(key: string, a: seq<string>, b: seq<string>)
    requires LastWith(key, b).Some?
    ensures LastWith(key, a + b) == LastWith(key, b)
  {
    var n := |b| - 1;
    assert (a + b)[|a + b| - 1] == b[n];
    if !HasPrefix(b[n], key) {
      assert (a + b)[..|a + b| - 1] == a + b[..n];
      LastOfTwo(key, a, b[..n]);
    }
  }

  // The value read is the end of one of the fields.
  lemma {:induction false} LastIsOne(key: string, fields: seq<string>) returns (k: nat)
    requires LastWith(key, fields).Some?
    ensures k < |fields| && HasPrefix(fields[k], key) && LastWith(key, fields).value == fields[k][|key|..]
  {
    var n := |fields| - 1;
    if HasPrefix(fields[n], key) {
      k := n;
    } else {
      k := LastIsOne(key, fields[..n]);
    }
  }

  lemma {:induction false} FirstCounts(key: string, fields: seq<string>)
    requires fields != [] && HasPrefix(fields[0], key)
    ensures LastWith(key, fields).Some?
  {
    var n := |fields| - 1;
    if n > 0 {
      FirstCounts(key, fields[..n]);
    }
  }

  /* ----- what unescaping changes ----- */

  predicate EscapeAt(s: string, i: nat) {
    i + 2 < |s| && s[i] == '%' && HexValue(s[i + 1]).Some? && HexValue(s[i + 2]).Some?
  }

  predicate NoEscape(s: string) {
    forall i :: 0 <= i < |s| ==> !EscapeAt(s, i)
  }

  lemma {:induction false} UnescapeShortens(s: string)
    ensures |Unescape(s)| <= |s| && (|Unescape(s)| == |s| ==> NoEscape(s))
    ensures NoEscape(s) ==> Unescape(s) == s
    decreases |s|
  {
    if s != "" {
      if EscapeAt(s, 0) {
        UnescapeShortens(s[3..]);
      } else {
        UnescapeShortens(s[1..]);
        ShiftEscapes(s);
        assert Unescape(s) == [s[0]] + Unescape(s[1..]);
        assert [s[0]] + s[1..] == s;
      }
    }
  }

  lemma ShiftEscapes(s: string)
    requires s != "" && !EscapeAt(s, 0)
    ensures NoEscape(s) <==> NoEscape(s[1..])
  {
    if NoEscape(s[1..]) {
      forall i | 0 <= i < |s| ensures !EscapeAt(s, i) {
        assert i > 0 ==> !EscapeAt(s[1..], i - 1);
      }
    }
    if NoEscape(s) {
      forall i | 0 <= i < |s[1..]| ensures !EscapeAt(s[1..], i) {
        assert !EscapeAt(s, i + 1);
      }
    }
  }

  lemma {:induction false} CStringShortens(s: string)
    ensures |CString(s)| <= |s|
  {
    if s != "" && s[0] != '\0' {
      CStringShortens(s[1..]);
    }
  }

  lemma FieldShortens(piece: string)
    ensures |Field(piece)| <= |piece|
  {
    UnescapeShortens(piece);
    CStringShortens(Unescape(piece));
  }

  lemma {:induction false} PiecesShorten(s: string)
    ensures forall k :: 0 <= k < |Pieces(s)| ==> |Pieces(s)[k]| <= |s|
    ensures !NoSeparator(s) ==> forall k :: 0 <= k < |Pieces(s)| ==> |Pieces(s)[k]| < |s|
  {
    if s != "" {
      PiecesShorten(s[1..]);
    }
  }

  lemma {:induction false} CStringStart(s: string, rest: string)
    requires IsText(s)
    ensures CString(s + rest) == s + CString(rest)
  {
    if s == "" {
      assert s + rest == rest;
    } else {
      assert (s + rest)[0] == s[0] && (s + rest)[1..] == s[1..] + rest;
      CStringStart(s[1..], rest);
      assert [s[0]] + (s[1..] + CString(rest)) == s + CString(rest);
    }
  }

  // The first piece keeps what stands before the first separator.
  lemma {:induction false} FirstPiece(key: string, rest: string)
    requires NoSeparator(key)
    ensures Pieces(key + rest)[0] == key + Pieces(rest)[0]
  {
    if key == "" {
      assert key + rest == rest;
      assert key + Pieces(rest)[0] == Pieces(rest)[0];
    } else {
      assert (key + rest)[0] == key[0] && (key + rest)[1..] == key[1..] + rest;
      FirstPiece(key[1..], rest);
      assert [key[0]] + (key[1..] + Pieces(rest)[0]) == key + Pieces(rest)[0];
    }
  }

  lemma KeyedField(key: string, rest: string)
    requires IsKey(key)
    ensures Field(key + rest) == key + Field(rest)
  {
    UnescapePlain(key, rest);
    CStringStart(key, Unescape(rest));
  }

  lemma TailHasKey(relay: string)
    ensures LastWith(RELAY_KEY, Fields(RELAY_KEY + relay)).Some?
  {
    var first := Pieces(relay)[0];
    KeysAreKeys();
    FirstPiece(RELAY_KEY, relay);
    KeyedField(RELAY_KEY, first);
    Prefixed(RELAY_KEY, Field(first));
    FirstCounts(RELAY_KEY, Fields(RELAY_KEY + relay));
  }

  lemma ReadBehindQuery(query: string, tail: string)
    requires LastWith(RELAY_KEY, Fields(tail)).Some?
    ensures LastWith(RELAY_KEY, Fields(query + "&" + tail)) == LastWith(RELAY_KEY, Fields(tail))
  {
    PiecesConcat(query, '&', tail);
    assert Fields(query + "&" + tail) == Fields(query) + Fields(tail);
    LastOfTwo(RELAY_KEY, Fields(query), Fields(tail));
  }

  lemma QueryJoined(url: string, tail: string)
    ensures '?' in url ==> QueryOf(ConcatUrlQuery(url, tail)) == Some(QueryOf(url).value + "&" + tail)
    ensures '?' !in url ==> QueryOf(ConcatUrlQuery(url, tail)) == Some(tail)
  {
    var sep := if '?' in url then "&" else "?";
    Regroup(url, sep, tail);
    QueryThen(url, sep + tail);
    if '?' in url {
      Regroup(QueryOf(url).value, sep, tail);
    } else {
      assert (sep + tail)[0] == '?' && (sep + tail)[1..] == tail;
    }
  }

  // The relay state of an address is read from the fields that come with it.
  lemma ReadFromTail(url: string, relay: string)
    ensures var fields := Fields(RELAY_KEY + relay);
            LastWith(RELAY_KEY, fields).Some? &&
            ReadBack(ReturnAddress(url, Some(relay))) == LastWith(RELAY_KEY, fields)
  {
    var tail := RELAY_KEY + relay;
    TailHasKey(relay);
    QueryJoined(url, tail);
    if '?' in url {
      ReadBehindQuery(QueryOf(url).value, tail);
    }
  }

  /** The relay state stands in the return address as it is. The sender reads it back if and only
      if it has no separator and no escape sequence. */
  lemma ReturnAddressExactly(url: string, relay: string)
    requires IsText(relay)
    ensures ReadBack(ReturnAddress(url, Some(relay))) == Some(relay) <==> NoSeparator(relay) && NoEscape(relay)
  {
    var tail := RELAY_KEY + relay;
    ReadFromTail(url, relay);
    KeysAreKeys();
    UnescapeShortens(relay);
    if NoSeparator(relay) {
      PiecesOfPlain(tail);
      KeyedField(RELAY_KEY, relay);
      Prefixed(RELAY_KEY, Field(relay));
      assert LastWith(RELAY_KEY, Fields(tail)) == Some(Field(relay));
      CStringShortens(Unescape(relay));
      if NoEscape(relay) {
        TextIsCString(relay);
      }
    } else {
      var k := LastIsOne(RELAY_KEY, Fields(tail));
      var i :| 0 <= i < |relay| && Separator(relay[i]);
      assert tail[|RELAY_KEY| + i] == relay[i];
      PiecesShorten(tail);
      FieldShortens(Pieces(tail)[k]);
    }
  }

  // Without a relay state the address is the metadata's.
  lemma PlainReturn(url: string)
    ensures ReturnAddress(url, None) == url
    ensures ReturnAddress("a", Some("b")) == "a?RelayState=b" && ReturnAddress("a?c", Some("b")) == "a?c&RelayState=b"
  {
  }
}
