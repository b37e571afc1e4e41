/** The login object itself: the calls that change its fields in place. */
module LoginProfile {
  import opened Wrappers
  import opened IdFf
  import opened LoginModel
  import opened LoginProperties
  import LoginExchange
  import Artifact
  import Base64

  class LoginProfile {
    const server: Server
    var identity: Option<Identity>
    var session: Option<Session>
    var remote: Option<string>
    var request: Option<Request>
    var response: Option<Response>
    var nameId: Option<NameId>
    var policy: Option<Policy>
    var signatureStatus: int
    var requestId: Option<string>
    var relayState: Option<string>
    // The identifier of the last authentication request that was successfully initialised.
    ghost var lastRequest: Option<string>

    constructor (server: Server, identity: Option<Identity>, session: Option<Session>)
      requires session.Some? ==> SessionOk(session.value)
      ensures this.server == server && Valid() && lastRequest == None
      ensures View() == Login(identity, session, None, None, None, None, None, 0, None, None)
    {
      this.server, this.identity, this.session := server, identity, session;
      remote, request, response, nameId, policy, requestId := None, None, None, None, None, None;
      signatureStatus, relayState, lastRequest := 0, None, None;
    }

    ghost predicate Valid()
      reads this
    {
      requestId == lastRequest && (session.Some? ==> SessionOk(session.value))
    }

    // What acceptance means, once a request has been initialised: the assertion answers the last
    // one, a signature has been verified, and the name identifier is the assertion's own.
    ghost predicate AcceptedLast(rc: int)
      reads this
    {
      rc == 0 && response.Some? && response.value.assertion.Some? ==>
        var a := response.value.assertion.value;
        && (lastRequest.Some? ==> a.inResponseTo == lastRequest)
        && signatureStatus == 0
        && nameId == AssertedNameId(a) && nameId.Some?
    }

    ghost function View(): Login
      reads this
    {
      Login(identity, session, remote, request, response, nameId, policy, signatureStatus, requestId, relayState)
    }

    method SetResponseStatus(code: Code)
      requires response.Some?
      modifies `response
      ensures View() == WithStatus(old(View()), code)
    {
      response := Some(response.value.(status := Some(StatusOf(code))));
    }

    /* ----- at the identity provider ----- */

    method DecideFederation(consentGiven: bool, freshId: string) returns (rc: int)
      requires Requested(View())
      modifies `identity, `policy, `nameId, `response
      ensures (View(), rc) == ProcessFederation(old(View()), server.me, consentGiven, freshId)
    {
      if identity.None? {
        identity := Some(map[]);
      }
      var wanted := if request.value.policy.None? then NoPolicy else request.value.policy.value;
      policy := Some(wanted);
      if wanted == OneTimePolicy {
        return 0;
      }
      var federated := remote.value in identity.value;
      if wanted == NoPolicy {
        if !federated {
          SetResponseStatus(FederationDoesNotExist);
          return LOGIN_FEDERATION_NOT_FOUND;
        }
        nameId := identity.value[remote.value].local;
        return 0;
      }
      if wanted != FederatedPolicy && wanted != AnyPolicy {
        return LOGIN_INVALID_NAMEIDPOLICY;
      }
      var ask := AskForConsent();
      if ask && !consentGiven {
        if wanted == AnyPolicy {
          policy := Some(OneTimePolicy);
          return 0;
        }
        SetResponseStatus(FederationDoesNotExist);
        return LOGIN_CONSENT_NOT_OBTAINED;
      }
      if !federated {
        identity := Some(identity.value[remote.value := NewFederation(server.me, freshId)]);
      }
      nameId := identity.value[remote.value].local;
      return 0;
    }

    method AskForConsent() returns (ask: bool)
      requires Requested(View())
      ensures ask == MustAskForConsent(View())
    {
      var wanted := request.value.policy;
      if wanted.None? || wanted.value == NoPolicy {
        return false;
      }
      if wanted.value == OneTimePolicy {
        return false;
      }
      if wanted.value != FederatedPolicy && wanted.value != AnyPolicy {
        return true;
      }
      if identity.Some? && remote.value in identity.value {
        return false;
      }
      var consent := request.value.consent;
      if consent.None? {
        return true;
      }
      match consent.value
      case Obtained => return false;
      case ObtainedPrior => return false;
      case ObtainedImplicit => return false;
      case ObtainedExplicit => return false;
      case _ => return true;
    }

    method ValidateRequestMsg(authenticated: bool, consentGiven: bool, freshId: string) returns (rc: int)
      requires Valid() && Requested(View())
      modifies this
      ensures Valid() && lastRequest == old(lastRequest)
      ensures (View(), rc) == ValidateRequest(old(View()), server.me, authenticated, consentGiven, freshId)
      ensures forall p :: p in Federations(View()) && p !in Federations(old(View())) ==>
                Consents(old(View()), Validate(authenticated, consentGiven, freshId), p)
    {
      forall p
        ensures var e := Validate(authenticated, consentGiven, freshId);
                var after := Federations(ApplyIdp(View(), server.me, e));
                p in after && p !in Federations(View()) ==> Consents(View(), e, p)
      {
        CallRespectsConsent(View(), server.me, Validate(authenticated, consentGiven, freshId), p);
      }
      if !authenticated {
        SetResponseStatus(UnknownPrincipal);
        return LOGIN_REQUEST_DENIED;
      }
      if signatureStatus == DS_INVALID_SIGNATURE {
        SetResponseStatus(InvalidSignature);
        return LOGIN_INVALID_SIGNATURE;
      }
      if signatureStatus == DS_SIGNATURE_NOT_FOUND {
        SetResponseStatus(UnsignedAuthnRequest);
        return LOGIN_UNSIGNED_AUTHN_REQUEST;
      }
      rc := 0;
      if signatureStatus == 0 {
        rc := DecideFederation(consentGiven, freshId);
        if rc != 0 {
          return;
        }
      }
      SetResponseStatus(Success);
    }

    method BuildAssertionMsg(onceId: string, assertionId: string, logout: bool) returns (rc: int)
      requires Valid() && Requested(View()) && policy.Some?
      modifies this
      ensures Valid() && lastRequest == old(lastRequest)
      ensures (View(), rc) == BuildAssertion(old(View()), server.me, onceId, assertionId, logout)
    {
      if identity.None? {
        return PROFILE_IDENTITY_NOT_FOUND;
      }
      var subject;
      if policy.value == OneTimePolicy || remote.value !in identity.value {
        var once := NameId(onceId, OneTime, server.me);
        subject := Subject(Some(once), None);
        nameId := Some(once);
      } else {
        var f := identity.value[remote.value];
        subject := if f.remote.None? then Subject(f.local, None) else Subject(f.remote, f.local);
      }
      var statement := Statement(Some(subject), if logout then Some(assertionId) else None);
      var assertion := Assertion(assertionId, Some(server.me), request.value.id, Some(statement), None);
      response := Some(WithAssertion(response.value, assertion));
      if session.None? {
        session := Some(EMPTY_SESSION);
      }
      SessionOkKept(session.value, remote.value, assertion);
      session := Some(AddAssertion(session.value, remote.value, assertion));
      return 0;
    }

    /* ----- at the service provider ----- */

    method AcceptSsoMsg() returns (rc: int)
      requires Valid() && Acceptable(View())
      modifies this
      ensures Valid() && lastRequest == old(lastRequest)
      ensures (View(), rc) == AcceptSso(old(View()))
    {
      if identity.None? {
        identity := Some(map[]);
      }
      if session.None? {
        session := Some(EMPTY_SESSION);
      }
      if response.None? {
        return PROFILE_MISSING_RESPONSE;
      }
      if response.value.assertion.None? {
        return PROFILE_MISSING_ASSERTION;
      }
      var assertion := response.value.assertion.value;
      SessionOkKept(session.value, remote.value, assertion);
      session := Some(AddAssertion(session.value, remote.value, assertion));
      var subject := assertion.authn.value.subject;
      if subject.None? || subject.value.nameId.None? {
        return PROFILE_NAME_IDENTIFIER_NOT_FOUND;
      }
      var n, idpProvided := subject.value.nameId.value, subject.value.idpProvided;
      if n.format == Federated {
        var f;
        if idpProvided.Some? {
          f := Federation(Some(n), idpProvided);
        } else {
          f := Federation(None, Some(n));
        }
        identity := Some(identity.value[remote.value := f]);
      }
      return 0;
    }

    method InitAuthn(remoteID: Option<string>, firstIdp: Option<string>, via: HttpMethod, freshId: string)
      returns (rc: int)
      requires Valid()
      modifies this
      ensures Valid() && lastRequest == if rc == 0 then Some(freshId) else old(lastRequest)
      ensures (View(), rc) == InitAuthnRequest(old(View()), server, remoteID, firstIdp, via, freshId)
    {
      remote := None;
      request := None;
      if remoteID.Some? {
        remote := remoteID;
      } else {
        remote := firstIdp;
        if remote.None? {
          return PROFILE_MISSING_REMOTE_PROVIDERID;
        }
      }
      if GetProvider(server, remote).None? {
        return SERVER_PROVIDER_NOT_FOUND;
      }
      if via != Redirect && via != Post {
        return PROFILE_INVALID_HTTP_METHOD;
      }
      request := Some(AuthnRequest(Some(freshId), server.me, None, None));
      requestId := Some(freshId);
      lastRequest := requestId;
      return 0;
    }

    // 'earlier' is what the memory of the artifact buffer holds before the call.
    method InitRequest(message: string, via: HttpMethod, earlier: seq<Base64.Byte>, order: seq<string>,
                       sha1: string -> Artifact.Digest, freshId: string)
      returns (rc: int)
      requires Valid() && |earlier| == 43
      modifies this
      ensures Valid() && lastRequest == old(lastRequest)
      ensures var text := Artifact.ReadText(via, message);
              (View(), rc) == InitArtifactRequest(old(View()), via, Artifact.ReadRelay(via, message),
                                                  Artifact.ReadMessage(via, message, earlier, order, sha1),
                                                  if text.Some? then text.value else "", freshId)
    {
      if via != Redirect && via != Post {
        return PROFILE_INVALID_HTTP_METHOD;
      }
      var text, relay, issuer := Artifact.ReadArtifact(via, message, earlier, order, sha1);
      if relay.Some? {
        relayState := relay;
      }
      if issuer.Err? {
        return issuer.error;
      }
      remote := issuer.value;
      if remote.None? {
        return PROFILE_MISSING_REMOTE_PROVIDERID;
      }
      request := Some(ArtifactRequest(freshId, text.value));
      return 0;
    }

    method ProcessStatusAndAssertion(assertionSignature: int) returns (rc: int)
      requires response.Some?
      modifies `signatureStatus, `nameId
      ensures (View(), rc) == CheckResponse(old(View()), server, assertionSignature)
    {
      if response.value.status.None? {
        return PROFILE_MISSING_STATUS_CODE;
      }
      var status := response.value.status.value;
      if status.code != Success {
        if status.code == RequestDenied {
          return LOGIN_REQUEST_DENIED;
        }
        if status.code == Responder && status.second.Second? && status.second.code.Some? {
          if status.second.code.value == FederationDoesNotExist {
            return LOGIN_FEDERATION_NOT_FOUND;
          }
          if status.second.code.value == UnknownPrincipal {
            return LOGIN_UNKNOWN_PRINCIPAL;
          }
        }
        return LOGIN_STATUS_NOT_SUCCESS;
      }
      if response.value.assertion.None? {
        return 0;
      }
      rc := ProcessAssertion(response.value.assertion.value, assertionSignature);
    }

    method ProcessAssertion(a: Assertion, assertionSignature: int) returns (rc: int)
      modifies `signatureStatus, `nameId
      ensures (View(), rc) == CheckAssertion(old(View()), server, a, assertionSignature)
    {
      if GetProvider(server, remote).None? {
        return SERVER_PROVIDER_NOT_FOUND;
      }
      if requestId.Some? {
        if a.inResponseTo.None? || a.inResponseTo.value != requestId.value {
          return LOGIN_ASSERTION_DOES_NOT_MATCH_REQUEST_ID;
        }
      }
      if signatureStatus != 0 {
        if a.issuer.None? {
          return PROFILE_MISSING_ISSUER;
        }
        if a.issuer.value != remote.value {
          return PROFILE_INVALID_ISSUER;
        }
        signatureStatus := assertionSignature;
        if signatureStatus != 0 {
          return signatureStatus;
        }
      }
      nameId := None;
      if a.authn.Some? && a.authn.value.subject.Some? {
        nameId := a.authn.value.subject.value.nameId;
      }
      if nameId.None? && a.attribute.Some? && a.attribute.value.subject.Some? {
        nameId := a.attribute.value.subject.value.nameId;
      }
      return if nameId.None? then PROFILE_NAME_IDENTIFIER_NOT_FOUND else 0;
    }

    method ProcessAuthnResponseMsg(wellFormed: bool, message: Response, signature: int, assertionSignature: int)
      returns (rc: int)
      requires Valid()
      modifies this
      ensures Valid() && lastRequest == old(lastRequest) && AcceptedLast(rc)
      ensures (View(), rc)
              == ProcessAuthnResponse(old(View()), server, wellFormed, message, signature, assertionSignature)
      ensures rc == 0 <==> LoginExchange.AuthnAcceptable(lastRequest, server, wellFormed, message, signature)
    {
      LoginExchange.AuthnAcceptedExactly(View(), server, wellFormed, message, signature, assertionSignature);
      AcceptedResponse(View(), server, OnAuthnResponse(wellFormed, message, signature, assertionSignature));
      remote := None;
      response := Some(message);
      if !wellFormed {
        return PROFILE_INVALID_MSG;
      }
      remote := message.providerID;
      if remote.None? {
        return SERVER_PROVIDER_NOT_FOUND;
      }
      if GetProvider(server, remote).None? {
        return SERVER_PROVIDER_NOT_FOUND;
      }
      relayState := message.relayState;
      signatureStatus := signature;
      if signatureStatus != 0 {
        return signatureStatus;
      }
      rc := ProcessStatusAndAssertion(assertionSignature);
    }

    method ProcessResponseMsg(strict: bool, message: Option<Response>, signature: Option<int>, assertionSignature: int)
      returns (rc: int)
      requires Valid()
      modifies this
      ensures Valid() && lastRequest == old(lastRequest) && AcceptedLast(rc)
      ensures (View(), rc) == ProcessSoapResponse(old(View()), server, strict, message, signature, assertionSignature)
      ensures rc == 0 <==>
              LoginExchange.SoapAcceptable(old(View()), server, strict, message, signature, assertionSignature)
    {
      LoginExchange.SoapAcceptedExactly(View(), server, strict, message, signature, assertionSignature);
      AcceptedResponse(View(), server, OnSoapResponse(strict, message, signature, assertionSignature));
      rc := CheckSoapResponse(strict, message, signature, assertionSignature);
    }

    method CheckSoapResponse(strict: bool, message: Option<Response>, signature: Option<int>, assertionSignature: int)
      returns (rc: int)
      modifies `response, `signatureStatus, `nameId
      ensures (View(), rc) == ProcessSoapResponse(old(View()), server, strict, message, signature, assertionSignature)
    {
      response := message;
      if response.None? {
        return PROFILE_INVALID_MSG;
      }
      if request.Some? || strict {
        var id: Option<string> := None;
        if request.Some? && request.value.ArtifactRequest? {
          id := Some(request.value.rid);
        }
        var responseTo := response.value.inResponseTo;
        if (id.None? && responseTo.Some?) || (request.Some? && responseTo.None?)
           || (id.Some? && responseTo.Some? && id.value != responseTo.value) {
          return PROFILE_RESPONSE_DOES_NOT_MATCH_REQUEST;
        }
      }
      signatureStatus := DS_SIGNATURE_VERIFICATION_FAILED;
      if signature.Some? && remote.Some? {
        signatureStatus := signature.value;
      }
      rc := ProcessStatusAndAssertion(assertionSignature);
    }
  }
}
