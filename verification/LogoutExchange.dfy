/** A logout request between the two sides: what the asker builds is what the receiver validates,
    and what the receiver answers is what logs it out at the asker. */
module LogoutExchange {
  import opened Wrappers
  import opened IdFf
  import opened LogoutModel
  import opened LogoutProperties
  import opened LogoutPropagation

  /* ----- the request ----- */

  // The asker can send a request to the provider: it is known, has a name identifier entry and
  // supports the method.
  predicate CanRequest(s: Logout, server: Server, p: string, via: HttpMethod, md: Metadata) {
    && s.session.Some? && p in s.session.value.nids && s.session.value.nids[p] != []
    && GetProvider(server, Some(p)).Some? && (via == AnyMethod || md.accepts)
  }

  // The name that the asker's session has for the provider.
  function NameFor(s: Logout, p: string): NameId
    requires s.session.Some? && p in s.session.value.nids && s.session.value.nids[p] != []
  {
    s.session.value.nids[p][0].0
  }

  /** The request: it is issued by the asker, names the principal as the asker's session does for
      the receiver, and carries the new identifier and the asker's relay state. */
  lemma RequestBuilt(s: Logout, server: Server, p: string, via: HttpMethod, md: Metadata, order: seq<string>,
                     freshId: string)
    requires CanRequest(s, server, p, via, md)
    ensures var (a, rc) := InitRequest(s, server, Some(p), via, md, order, freshId);
            && rc == 0 && a.remote == Some(p) && a.nameId == Some(NameFor(s, p))
            && a.request == Some(Request(freshId, Some(server.me), Some(NameFor(s, p)), s.relayState))
            && a.initialMethod == (if via == AnyMethod then md.first else via)
  {
  }

  // Without a provider named, the first of the session's list is asked.
  lemma FirstIsAsked(s: Logout, server: Server, via: HttpMethod, md: Metadata, order: seq<string>, freshId: string)
    requires order != [] && CanRequest(s, server, order[0], via, md) && s.session.value.providerIDs == []
    ensures var (a, rc) := InitRequest(s, server, None, via, md, order, freshId);
            && rc == 0 && a.remote == Some(order[0])
            && a.request == Some(Request(freshId, Some(server.me), Some(NameFor(s, order[0])), s.relayState))
  {
  }

  /* ----- at the receiver ----- */

  // What the receiver holds about the asker: its assertion, and for a federated name the
  // federation that knows it.
  ghost predicate Recognises(r: Logout, asker: string, name: NameId) {
    && r.session.Some? && asker in r.session.value.assertions
    && (name.format == Federated ==>
          r.identity.Some? && asker in r.identity.value && Verifies(r.identity.value[asker], name))
  }

  // A service provider's request by SOAP must not strand providers without SOAP logout.
  ghost predicate Gate(r: Logout, server: Server, asker: string, format: MessageFormat)
    requires GetProvider(server, Some(asker)).Some? && r.session.Some?
  {
    server.providers[asker].role == Sp && format == SoapFormat ==>
      forall p :: p in server.providers && p != asker && p in r.session.value.assertions ==>
        server.providers[p].soapLogout
  }

  // The receiver processes the request and then validates it.
  ghost function Handle(r: Logout, server: Server, request: Request, format: MessageFormat, signature: int)
    : (Logout, int)
  {
    var (b, rc) := ProcessRequest(r, server, RequestMsg(format, true, request, signature));
    if rc != 0 then (b, rc) else ValidateRequest(b, server)
  }

  /** Exactly when a request that an asker has built is accepted by its receiver. */
  lemma HandledExactly(r: Logout, server: Server, request: Request, format: MessageFormat, signature: int)
    requires request.providerID.Some? && request.nameId.Some?
    ensures var asker, name := request.providerID.value, request.nameId.value;
            Handle(r, server, request, format, signature).1 == 0 <==>
            && GetProvider(server, Some(asker)).Some? && format != OtherFormat && signature == 0
            && Recognises(r, asker, name) && Gate(r, server, asker, format)
  {
    var (b, rc) := ProcessRequest(r, server, RequestMsg(format, true, request, signature));
    if rc == 0 {
      ValidateExactly(b, server);
    }
  }

  /** A request whose signature is not verified is not accepted, even if the application validates
      it in spite of the error that processing it has returned; it is answered by saying so. */
  lemma OnlyVerified(r: Logout, server: Server, request: Request, format: MessageFormat, signature: int)
    requires GetProvider(server, request.providerID).Some? && request.nameId.Some? && signature != 0
    ensures var (b, rc) := ProcessRequest(r, server, RequestMsg(format, true, request, signature));
            var (v, rc2) := ValidateRequest(b, server);
            && rc != 0 && rc2 != 0
            && (format != OtherFormat ==>
                  && rc == signature && rc2 == signature
                  && v.response == Some(Refusal(server.me, request, InvalidSignature)))
  {
    ValidateExactly(ProcessRequest(r, server, RequestMsg(format, true, request, signature)).0, server);
  }

  /** What the receiver of an accepted request holds: the asker is gone from the session, and the
      answer, in place or saved, is a Success to that request with its relay state. */
  lemma HandledAnswer(r: Logout, server: Server, request: Request, format: MessageFormat, signature: int)
    requires request.providerID.Some? && request.nameId.Some?
    requires Handle(r, server, request, format, signature).1 == 0
    ensures var b := Handle(r, server, request, format, signature).0;
            var answer := Response(Some(request.id), request.providerID, Some(server.me), Some(StatusOf(Success)),
                                   request.relayState);
            && r.session.Some? && b.session == Some(RemoveAssertion(r.session.value, request.providerID.value))
            && b.nameId == request.nameId && b.relayState == request.relayState
            && (if server.providers[request.providerID.value].role == Sp && b.session.value.assertions != map[]
                then b.initialResponse == Some(answer) && b.initialRequest == Some(request)
                else b.response == Some(answer) && b.request == Some(request))
  {
    HandledExactly(r, server, request, format, signature);
    CountsNone(Some(RemoveAssertion(r.session.value, request.providerID.value)));
  }

  /* ----- the whole exchange ----- */

  /** The two-party law. A request that the asker builds for p, received at p with a verified
      signature, is accepted exactly when p knows and recognises the asker; then p has logged the
      asker out, and p's answer, processed by the asker, logs p out there. */
  lemma RequestIsAccepted(s: Logout, sServer: Server, r: Logout, rServer: Server, via: HttpMethod, md: Metadata,
                          freshId: string, format: MessageFormat)
    requires CanRequest(s, sServer, rServer.me, via, md) && format != OtherFormat
    requires GetProvider(rServer, Some(sServer.me)).Some? && r.session.Some?
    ensures var p, asker := rServer.me, sServer.me;
            var a := InitRequest(s, sServer, Some(p), via, md, [], freshId).0;
            && a.request.Some?
            && (Handle(r, rServer, a.request.value, format, 0).1 == 0 <==>
                Recognises(r, asker, NameFor(s, p)) && Gate(r, rServer, asker, format))
  {
    RequestBuilt(s, sServer, rServer.me, via, md, [], freshId);
    var a := InitRequest(s, sServer, Some(rServer.me), via, md, [], freshId).0;
    HandledExactly(r, rServer, a.request.value, format, 0);
  }

  lemma AnswerLogsOut(s: Logout, sServer: Server, r: Logout, rServer: Server, via: HttpMethod, md: Metadata,
                      freshId: string, format: MessageFormat, rc: int)
    requires CanRequest(s, sServer, rServer.me, via, md) && format != OtherFormat
    requires sServer.providers[rServer.me].role == Sp
    requires GetProvider(rServer, Some(sServer.me)).Some? && rServer.providers[sServer.me].role != Sp
    requires Recognises(r, sServer.me, NameFor(s, rServer.me))
    ensures var p, asker := rServer.me, sServer.me;
            var a := InitRequest(s, sServer, Some(p), via, md, [], freshId).0;
            && a.request.Some?
            && var (b, rc1) := Handle(r, rServer, a.request.value, format, 0);
               && rc1 == 0 && b.session == Some(RemoveAssertion(r.session.value, asker)) && b.response.Some?
               && var msg := ResponseMsg(format, b.response.value, DS_SIGNATURE_NOT_FOUND);
                  var (f, rc2) := ProcessResponse(a, sServer, msg, rc);
                  rc2 == 0 && f.session == Some(RemoveAssertion(s.session.value, p))
  {
    var p := rServer.me;
    RequestBuilt(s, sServer, p, via, md, [], freshId);
    var a := InitRequest(s, sServer, Some(p), via, md, [], freshId).0;
    assert a.session == s.session;
    HandledExactly(r, rServer, a.request.value, format, 0);
    HandledAnswer(r, rServer, a.request.value, format, 0);
    var answer := Handle(r, rServer, a.request.value, format, 0).0.response.value;
    AnswerEffect(a, sServer, ResponseMsg(format, answer, DS_SIGNATURE_NOT_FOUND), rc, p);
  }

  /* ----- refusals ----- */

  // The answer of a receiver that refuses with a code.
  function Refusal(me: string, request: Request, code: Code): Response {
    Answer(me, request).(status := Some(StatusOf(code)))
  }

  /** Why a receiver refuses, and what its refusal says. */
  lemma RefusedBecause(r: Logout, server: Server, request: Request, format: MessageFormat)
    requires request.providerID.Some? && request.nameId.Some? && format != OtherFormat
    requires GetProvider(server, request.providerID).Some?
    ensures var asker, name := request.providerID.value, request.nameId.value;
            var (b, rc) := Handle(r, server, request, format, 0);
            && (r.session.None? ==>
                  rc == PROFILE_SESSION_NOT_FOUND && b.response == Some(Refusal(server.me, request, RequestDenied)))
            && (r.session.Some? && asker !in r.session.value.assertions ==>
                  rc == PROFILE_MISSING_ASSERTION && b.response == Some(Refusal(server.me, request, RequestDenied)))
            && (r.session.Some? && asker in r.session.value.assertions && !Recognises(r, asker, name) ==>
                  rc != 0 && b.response == Some(Refusal(server.me, request, FederationDoesNotExist)))
            && (Recognises(r, asker, name) && !Gate(r, server, asker, format) ==>
                  && rc == LOGOUT_UNSUPPORTED_PROFILE
                  && b.response == Some(Refusal(server.me, request, UnsupportedProfile)))
  {
  }

  /** What a refusal does at the asker: a provider that denies, or does not know the federation, is
      forgotten with an error that says so; one that supports no SOAP is forgotten when it is an
      identity provider that can be asked by redirect; any other refusal changes nothing. */
  lemma RefusalArrives(s: Logout, server: Server, p: string, request: Request, code: Code, format: MessageFormat,
                       redirectRc: int)
    requires s.session.Some? && GetProvider(server, Some(p)).Some? && format != OtherFormat && code != Success
    ensures var msg := ResponseMsg(format, Refusal(p, request, code), DS_SIGNATURE_NOT_FOUND);
            var (f, rc) := ProcessResponse(s, server, msg, redirectRc);
            var gone := Some(RemoveAssertion(s.session.value, p));
            && f.remote == Some(p) && f.relayState == request.relayState
            && match code
            case RequestDenied => rc == LOGOUT_REQUEST_DENIED && f.session == gone
            case FederationDoesNotExist => rc == LOGOUT_FEDERATION_NOT_FOUND && f.session == gone
            case UnsupportedProfile =>
              if server.providers[p].role == Idp && s.initialMethod == Soap then
                if redirectRc == 0 then rc == LOGOUT_UNSUPPORTED_PROFILE && f.session == gone
                else rc == redirectRc && f.session == s.session
              else rc == PROFILE_STATUS_NOT_SUCCESS && f.session == s.session
            case _ => rc == PROFILE_STATUS_NOT_SUCCESS && f.session == s.session
  {
  }

  /** A provider that supports no redirect when that is wanted is given up: it is forgotten, and if
      a first requester waits, the Success answer to its request is in place. */
  lemma GivingUpAnswers(s: Logout, server: Server, p: string, md: Metadata, freshId: string)
    requires CanRequest(s, server, p, AnyMethod, md) && !md.accepts
    ensures var (f, rc) := InitRequest(s, server, Some(p), Redirect, md, [], freshId);
            && rc == PROFILE_UNSUPPORTED_PROFILE
            && f.session == Some(RemoveAssertion(s.session.value, p)) && f.request == s.request
            && (s.initialRemote.Some? && s.initialRequest.Some? ==>
                  && f.remote == s.initialRemote
                  && f.response.Some? && Answers(f.response.value, s.initialRequest.value, server.me))
  {
  }
}
