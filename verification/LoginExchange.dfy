/** Single sign-on between the two sides: exactly which requests an identity provider grants,
    exactly which responses a service provider accepts, and that what the one sends is what the
    other accepts. */
module LoginExchange {
  import opened Wrappers
  import opened IdFf
  import opened LoginModel

  /* ----- granting a request ----- */

  // The principal has consented, to the identity provider or as the request reports.
  predicate Consented(request: Request, consentGiven: bool)
    requires request.AuthnRequest?
  {
    || consentGiven
    || request.consent == Some(Obtained) || request.consent == Some(ObtainedPrior)
    || request.consent == Some(ObtainedImplicit) || request.consent == Some(ObtainedExplicit)
  }

  // What a policy asks for: a one-time name always, a federation that is there, or one that is
  // there or consented to; under the policy 'any' a one-time name stands in for it.
  predicate Grants(request: Request, federated: bool, consentGiven: bool)
    requires request.AuthnRequest?
  {
    match request.policy
    case None => federated
    case Some(NoPolicy) => federated
    case Some(OneTimePolicy) => true
    case Some(FederatedPolicy) => federated || Consented(request, consentGiven)
    case Some(AnyPolicy) => true
    case Some(OtherPolicy(_)) => false
  }

  // The principal ends up federated.
  predicate Federates(request: Request, federated: bool, consentGiven: bool)
    requires request.AuthnRequest?
  {
    || federated
    || (request.policy == Some(FederatedPolicy) && Consented(request, consentGiven))
    || (request.policy == Some(AnyPolicy) && Consented(request, consentGiven))
  }

  /** Exactly when an identity provider grants a request with a verified signature, whether the
      principal is federated then, and by which name the requester will know the principal. */
  lemma GrantedExactly(s: Login, me: string, authenticated: bool, consentGiven: bool, freshId: string)
    requires Requested(s) && s.signatureStatus == 0
    ensures var (s', rc) := ValidateRequest(s, me, authenticated, consentGiven, freshId);
            var request, sp := s.request.value, s.remote.value;
            var federated := FederationWith(s, sp).Some?;
            && (rc == 0 <==> authenticated && Grants(request, federated, consentGiven))
            && (authenticated ==> (FederationWith(s', sp).Some? <==> Federates(request, federated, consentGiven)))
            && (rc == 0 ==>
                  && s'.policy.Some? && s'.identity.Some?
                  && (s'.policy == Some(OneTimePolicy) <==>
                        || request.policy == Some(OneTimePolicy)
                        || (request.policy == Some(AnyPolicy) && !federated && !Consented(request, consentGiven))))
  {
  }

  /** What a granted request leaves: the other federations and one that was there are as they were,
      a new one names the principal by the new identifier, and the session is untouched. */
  lemma GrantLeaves(s: Login, me: string, authenticated: bool, consentGiven: bool, freshId: string)
    requires Requested(s) && s.signatureStatus == 0
    ensures var (s', rc) := ValidateRequest(s, me, authenticated, consentGiven, freshId);
            var sp := s.remote.value;
            var f, f' := FederationWith(s, sp), FederationWith(s', sp);
            && s'.session == s.session && s'.remote == s.remote && s'.request == s.request
            && (forall q :: q != sp ==> FederationWith(s', q) == FederationWith(s, q))
            && (f.Some? ==> f' == f)
            && (f.None? && f'.Some? ==> f' == Some(Federation(Some(NameId(freshId, Federated, me)), None)))
            && (rc == 0 && s'.policy != Some(OneTimePolicy) ==> f'.Some? && s'.nameId == f'.value.local)
  {
  }

  /** The principal must be asked for consent exactly when consent makes a difference to the
      answer. Under a policy that is none of the four, asking is in vain: it is refused anyway. */
  lemma AskedExactly(s: Login, me: string, freshId: string)
    requires Requested(s) && s.signatureStatus == 0
    ensures var granted := ValidateRequest(s, me, true, true, freshId);
            var refused := ValidateRequest(s, me, true, false, freshId);
            if s.request.value.policy.Some? && s.request.value.policy.value.OtherPolicy? then
              MustAskForConsent(s) && granted == refused && granted.1 == LOGIN_INVALID_NAMEIDPOLICY
            else MustAskForConsent(s) <==> granted != refused
  {
  }

  /* ----- accepting a response ----- */

  predicate IsSuccess(response: Response) {
    response.status.Some? && response.status.value.code == Success
  }

  // The assertion answers the request that was sent, if one was, and names the principal.
  predicate Answers(a: Assertion, requestId: Option<string>) {
    (requestId.Some? ==> a.inResponseTo == requestId) && AssertedNameId(a).Some?
  }

  // A response to the request for an artifact's assertion answers that request; without any
  // request it answers none.
  predicate Matches(request: Option<Request>, responseTo: Option<string>) {
    match request
    case None => responseTo.None?
    case Some(ArtifactRequest(rid, _)) => responseTo == Some(rid)
    case Some(AuthnRequest(_, _, _, _)) => false
  }

  // A well-formed Success of a known provider with a verified signature, whose assertion, if it
  // has one, answers the request that was sent and names the principal.
  predicate AuthnAcceptable(requestId: Option<string>, server: Server, wellFormed: bool, response: Response,
                            signature: int)
  {
    && wellFormed && GetProvider(server, response.providerID).Some? && signature == 0 && IsSuccess(response)
    && (response.assertion.Some? ==> Answers(response.assertion.value, requestId))
  }

  // A Success that matches the request, whose assertion, if it has one, answers the authentication
  // request, names the principal and comes from the remote provider, by the signature of the
  // response or by its own.
  predicate SoapAcceptable(s: Login, server: Server, strict: bool, message: Option<Response>, signature: Option<int>,
                           assertionSignature: int)
  {
    && message.Some? && IsSuccess(message.value)
    && (s.request.Some? || strict ==> Matches(s.request, message.value.inResponseTo))
    && (message.value.assertion.Some? ==>
          var a := message.value.assertion.value;
          && GetProvider(server, s.remote).Some? && Answers(a, s.requestId)
          && (signature == Some(0) || (a.issuer == s.remote && assertionSignature == 0)))
  }

  /** Exactly which authentication responses are accepted. */
  lemma AuthnAcceptedExactly(s: Login, server: Server, wellFormed: bool, response: Response, signature: int,
                             assertionSignature: int)
    ensures ProcessAuthnResponse(s, server, wellFormed, response, signature, assertionSignature).1 == 0 <==>
            AuthnAcceptable(s.requestId, server, wellFormed, response, signature)
  {
  }

  /** Exactly which responses to an artifact are accepted. */
  lemma SoapAcceptedExactly(s: Login, server: Server, strict: bool, message: Option<Response>, signature: Option<int>,
                            assertionSignature: int)
    ensures ProcessSoapResponse(s, server, strict, message, signature, assertionSignature).1 == 0 <==>
            SoapAcceptable(s, server, strict, message, signature, assertionSignature)
  {
  }

  /** Why a service provider refuses an answer that the identity provider has refused to grant. */
  lemma RefusalArrives(idp: Login, me: string, authenticated: bool, consentGiven: bool, freshId: string, sp: Login,
                       server: Server, assertionSignature: int)
    requires Requested(idp) && idp.response.value.providerID == Some(me) && GetProvider(server, Some(me)).Some?
    ensures var (idp', rc) := ValidateRequest(idp, me, authenticated, consentGiven, freshId);
            var arrived := ProcessAuthnResponse(sp, server, true, idp'.response.value, 0, assertionSignature).1;
            && (rc == LOGIN_REQUEST_DENIED ==> arrived == LOGIN_UNKNOWN_PRINCIPAL)
            && (rc == LOGIN_FEDERATION_NOT_FOUND || rc == LOGIN_CONSENT_NOT_OBTAINED ==>
                  arrived == LOGIN_FEDERATION_NOT_FOUND)
            && (rc == LOGIN_INVALID_SIGNATURE || rc == LOGIN_UNSIGNED_AUTHN_REQUEST ==>
                  arrived == LOGIN_STATUS_NOT_SUCCESS)
  {
  }

  /* ----- a whole sign-on ----- */

  // The identity provider's login when it has received a request: the response to fill is its own.
  function Received(identity: Option<Identity>, session: Option<Session>, me: string, request: Request,
                    signature: int): Login
    requires request.AuthnRequest?
  {
    var response := Response(request.id, Some(me), None, None, None);
    Login(identity, session, Some(request.providerID), Some(request), Some(response), None, None, signature, None, None)
  }

  // The request as the application completes it.
  function Under(request: Request, policy: Option<Policy>, consent: Option<Consent>): Request
    requires request.AuthnRequest?
  {
    request.(policy := policy, consent := consent)
  }

  // The choices of both sides in a sign-on.
  datatype Choices = Choices(
    policy: Option<Policy>, consent: Option<Consent>, authenticated: bool, consentGiven: bool,
    requestId: string, freshId: string, onceId: string, assertionId: string, logout: bool)

  // The identity provider's login after it has answered the request.
  function Answered(idp: Login, me: string, c: Choices): (Login, int)
    requires Requested(idp)
  {
    var (s, rc) := ValidateRequest(idp, me, c.authenticated, c.consentGiven, c.freshId);
    if rc != 0 || s.policy.None? then (s, rc) else BuildAssertion(s, me, c.onceId, c.assertionId, c.logout)
  }

  // The name by which the identity provider's answer knows the principal.
  function NameGiven(idp: Login, me: string, sp: string, c: Choices): Option<NameId>
    requires Requested(idp)
  {
    var s := ValidateRequest(idp, me, c.authenticated, c.consentGiven, c.freshId).0;
    var f := FederationWith(s, sp);
    if s.policy == Some(OneTimePolicy) || f.None? then Some(NameId(c.onceId, OneTime, me))
    else if f.value.remote.Some? then f.value.remote
    else f.value.local
  }

  lemma BuiltAnswer(s: Login, me: string, c: Choices)
    requires Requested(s) && s.policy.Some? && s.identity.Some? && s.response.value.assertion.None?
    ensures var (s', rc) := BuildAssertion(s, me, c.onceId, c.assertionId, c.logout);
            && rc == 0 && s'.response.Some? && s'.response.value.assertion.Some?
            && s'.response == Some(s.response.value.(assertion := s'.response.value.assertion))
            && var a := s'.response.value.assertion.value;
               && a.id == c.assertionId && a.issuer == Some(me) && a.inResponseTo == s.request.value.id
               && a.authn.Some? && a.authn.value.sessionIndex == (if c.logout then Some(c.assertionId) else None)
               && a.authn.value.subject.Some? && a.attribute.None?
               && s'.session == Some(AddAssertion(if s.session.None? then EMPTY_SESSION else s.session.value,
                                                  s.remote.value, a))
  {
  }

  /** What a granted answer says: Success, and an assertion of the identity provider that answers
      the request and gives the name. */
  lemma AnswerOf(idp: Login, me: string, c: Choices)
    requires Requested(idp) && idp.signatureStatus == 0 && idp.response.value.assertion.None?
    ensures var (idp', rc) := Answered(idp, me, c);
            var request, sp := idp.request.value, idp.remote.value;
            && (rc == 0 <==> c.authenticated && Grants(request, FederationWith(idp, sp).Some?, c.consentGiven))
            && (rc == 0 ==>
                  && idp'.response.Some? && IsSuccess(idp'.response.value)
                  && idp'.response.value.providerID == idp.response.value.providerID
                  && idp'.response.value.assertion.Some?
                  && var a := idp'.response.value.assertion.value;
                     && a.issuer == Some(me) && a.inResponseTo == request.id
                     && AssertedNameId(a) == NameGiven(idp, me, sp, c))
  {
    GrantedExactly(idp, me, c.authenticated, c.consentGiven, c.freshId);
    var (s, rc) := ValidateRequest(idp, me, c.authenticated, c.consentGiven, c.freshId);
    if rc == 0 {
      BuiltAnswer(s, me, c);
    }
  }

  // A principal who is federated by identifiers is given a name.
  lemma NameIsGiven(idp: Login, me: string, c: Choices)
    requires Requested(idp) && idp.signatureStatus == 0
    requires var f := FederationWith(idp, idp.remote.value); f.Some? ==> f.value.local.Some? || f.value.remote.Some?
    ensures NameGiven(idp, me, idp.remote.value, c).Some?
  {
  }

  /** A sign-on as a whole. The service provider's own request, completed by the application and
      received with a verified signature, is answered exactly when the identity provider grants
      it; the answer, received with a verified signature, is then accepted, and the service
      provider knows the principal by the name that was given. */
  lemma SignOnIsAccepted(sp: Login, spServer: Server, idpIdentity: Option<Identity>, idpSession: Option<Session>,
                         me: string, via: HttpMethod, c: Choices, assertionSignature: int)
    requires GetProvider(spServer, Some(me)).Some? && (via == Redirect || via == Post)
    requires idpIdentity.Some? && spServer.me in idpIdentity.value ==>
               idpIdentity.value[spServer.me].local.Some? || idpIdentity.value[spServer.me].remote.Some?
    ensures var (sp1, rc1) := InitAuthnRequest(sp, spServer, Some(me), None, via, c.requestId);
            && rc1 == 0 && sp1.request.Some? && sp1.request.value.AuthnRequest?
            && sp1.request.value.providerID == spServer.me
            && var idp := Received(idpIdentity, idpSession, me, Under(sp1.request.value, c.policy, c.consent), 0);
               var federated := FederationWith(idp, spServer.me).Some?;
               var (idp', rc2) := Answered(idp, me, c);
               && (rc2 == 0 <==> c.authenticated && Grants(idp.request.value, federated, c.consentGiven))
               && (rc2 == 0 ==>
                     && idp'.response.Some?
                     && var (sp2, rc3) :=
                          ProcessAuthnResponse(sp1, spServer, true, idp'.response.value, 0, assertionSignature);
                        && rc3 == 0 && sp2.remote == Some(me)
                        && sp2.nameId == NameGiven(idp, me, spServer.me, c))
  {
    var sp1 := InitAuthnRequest(sp, spServer, Some(me), None, via, c.requestId).0;
    var idp := Received(idpIdentity, idpSession, me, Under(sp1.request.value, c.policy, c.consent), 0);
    AnswerOf(idp, me, c);
    NameIsGiven(idp, me, c);
    var (idp', rc) := Answered(idp, me, c);
    if rc == 0 {
      AuthnIsAccepted(sp1, spServer, idp'.response.value, assertionSignature);
    }
  }

  /** Exactly when a request can be sent, to the provider named or to the first identity provider;
      then it is the one whose answer will be accepted. */
  lemma RequestSentExactly(s: Login, server: Server, remoteID: Option<string>, firstIdp: Option<string>,
                           via: HttpMethod, freshId: string)
    ensures var (s', rc) := InitAuthnRequest(s, server, remoteID, firstIdp, via, freshId);
            var to := if remoteID.Some? then remoteID else firstIdp;
            && (rc == 0 <==> GetProvider(server, to).Some? && (via == Redirect || via == Post))
            && s'.remote == to
            && (rc == 0 ==> s'.requestId == Some(freshId) && s'.request.Some? && s'.request.value.AuthnRequest?
                            && s'.request.value.id == s'.requestId)
            && (rc != 0 ==> s'.requestId == s.requestId && s'.request.None?)
  {
  }

  // What the service provider holds when it has accepted a signed answer.
  lemma AuthnIsAccepted(s: Login, server: Server, response: Response, assertionSignature: int)
    requires GetProvider(server, response.providerID).Some? && IsSuccess(response)
    requires response.assertion.Some? && Answers(response.assertion.value, s.requestId)
    ensures var (s', rc) := ProcessAuthnResponse(s, server, true, response, 0, assertionSignature);
            && rc == 0 && s'.remote == response.providerID && s'.nameId == AssertedNameId(response.assertion.value)
            && (var named := NameIdOf(response.assertion.value.authn); named.Some? ==> s'.nameId == named)
            && s'.response == Some(response) && s'.relayState == response.relayState
            && s'.identity == s.identity && s'.session == s.session
  {
  }

  /** The same by artifact: the assertion of a granted answer, fetched by the request for the
      artifact in an unsigned response, is accepted by its own signature because its issuer is the
      provider that the artifact resolved to. */
  lemma ArtifactSignOnIsAccepted(sp: Login, spServer: Server, idp: Login, me: string, via: HttpMethod, c: Choices,
                                 relay: Option<string>, artifact: string, rid: string)
    requires GetProvider(spServer, Some(me)).Some? && (via == Redirect || via == Post)
    requires Requested(idp) && idp.signatureStatus == 0 && idp.response.value.assertion.None?
    requires Answered(idp, me, c).1 == 0 && idp.request.value.id == sp.requestId
    requires NameGiven(idp, me, idp.remote.value, c).Some?
    ensures var (sp1, rc1) := InitArtifactRequest(sp, via, relay, Ok(Some(me)), artifact, rid);
            var answer := Answered(idp, me, c).0.response;
            && rc1 == 0 && answer.Some?
            && var fetched := Response(Some(rid), None, Some(StatusOf(Success)), answer.value.assertion, None);
               var (sp2, rc2) := ProcessSoapResponse(sp1, spServer, true, Some(fetched), None, 0);
               && rc2 == 0 && sp2.remote == Some(me) && sp2.nameId == NameGiven(idp, me, idp.remote.value, c)
               && sp2.response == Some(fetched) && sp2.relayState == (if relay.Some? then relay else sp.relayState)
  {
    AnswerOf(idp, me, c);
    var sp1 := InitArtifactRequest(sp, via, relay, Ok(Some(me)), artifact, rid).0;
    SoapIsAccepted(sp1, spServer, rid, Answered(idp, me, c).0.response.value.assertion.value);
  }

  // The unsigned response to an artifact is accepted by the signature of its assertion.
  lemma SoapIsAccepted(s: Login, server: Server, rid: string, a: Assertion)
    requires s.request.Some? && s.request.value.ArtifactRequest? && s.request.value.rid == rid
    requires GetProvider(server, s.remote).Some? && a.issuer == s.remote && Answers(a, s.requestId)
    ensures var fetched := Response(Some(rid), None, Some(StatusOf(Success)), Some(a), None);
            var (s', rc) := ProcessSoapResponse(s, server, true, Some(fetched), None, 0);
            && rc == 0 && s'.remote == s.remote && s'.nameId == AssertedNameId(a)
            && (NameIdOf(a.authn).Some? ==> s'.nameId == NameIdOf(a.authn))
            && s'.response == Some(fetched) && s'.relayState == s.relayState
            && s'.identity == s.identity && s'.session == s.session
  {
  }
}
