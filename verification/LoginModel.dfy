/** Single sign-on and federation: the calls on a login object as functions of its state. */
module LoginModel {
  import opened Wrappers
  import opened IdFf

  datatype Policy = NoPolicy | OneTimePolicy | FederatedPolicy | AnyPolicy | OtherPolicy(name: string)

  datatype Consent = Obtained | ObtainedPrior | ObtainedImplicit | ObtainedExplicit | Unavailable | Inapplicable
                   | OtherConsent(name: string)

  // The request of a login: an authentication request, or the request for the assertion
  // that an artifact stands for.
  datatype Request =
    | AuthnRequest(id: Option<string>, providerID: string, policy: Option<Policy>, consent: Option<Consent>)
    | ArtifactRequest(rid: string, artifact: string)

  datatype Response = Response(
    inResponseTo: Option<string>, providerID: Option<string>, status: Option<Status>, assertion: Option<Assertion>,
    relayState: Option<string>)

  datatype Login = Login(
    identity: Option<Identity>,
    session: Option<Session>,
    remote: Option<string>,
    request: Option<Request>,
    response: Option<Response>,
    nameId: Option<NameId>,
    policy: Option<Policy>,
    signatureStatus: int,
    requestId: Option<string>,
    relayState: Option<string>)

  function WithStatus(s: Login, code: Code): Login
    requires s.response.Some?
  {
    s.(response := Some(s.response.value.(status := Some(StatusOf(code)))))
  }

  function FederationWith(s: Login, provider: string): Option<Federation> {
    if s.identity.Some? && provider in s.identity.value then Some(s.identity.value[provider]) else None
  }

  /* ----- the identity provider: deciding about a federation ----- */

  // An authentication request has been received: there is a requester and a response to fill.
  predicate Requested(s: Login) {
    s.remote.Some? && s.response.Some? && s.request.Some? && s.request.value.AuthnRequest?
  }

  predicate ConsentObtained(consent: Option<Consent>) {
    consent in [Some(Obtained), Some(ObtainedPrior), Some(ObtainedImplicit), Some(ObtainedExplicit)]
  }

  function MustAskForConsent(s: Login): bool
    requires Requested(s)
  {
    match s.request.value.policy
    case None => false
    case Some(NoPolicy) => false
    case Some(OneTimePolicy) => false
    case Some(OtherPolicy(_)) => true
    case Some(_) =>
      if FederationWith(s, s.remote.value).Some? then false
      else !ConsentObtained(s.request.value.consent)
  }

  // A federation that the identity provider starts, with a new identifier of its own.
  function NewFederation(me: string, freshId: string): Federation {
    Federation(Some(NameId(freshId, Federated, me)), None)
  }

  function ProcessFederation(s: Login, me: string, consentGiven: bool, freshId: string): (Login, int)
    requires Requested(s)
  {
    var identity := if s.identity.None? then map[] else s.identity.value;
    var policy := if s.request.value.policy.None? then NoPolicy else s.request.value.policy.value;
    var remote := s.remote.value;
    var s1 := s.(identity := Some(identity), policy := Some(policy));
    match policy
    case OneTimePolicy => (s1, 0)
    case NoPolicy =>
      if remote !in identity then (WithStatus(s1, FederationDoesNotExist), LOGIN_FEDERATION_NOT_FOUND)
      else (s1.(nameId := identity[remote].local), 0)
    case OtherPolicy(_) => (s1, LOGIN_INVALID_NAMEIDPOLICY)
    case _ =>
      if MustAskForConsent(s1) && !consentGiven then
        if policy == AnyPolicy then (s1.(policy := Some(OneTimePolicy)), 0)
        else (WithStatus(s1, FederationDoesNotExist), LOGIN_CONSENT_NOT_OBTAINED)
      else
        var identity' := if remote in identity then identity else identity[remote := NewFederation(me, freshId)];
        (s1.(identity := Some(identity'), nameId := identity'[remote].local), 0)
  }

  function ValidateRequest(s: Login, me: string, authenticated: bool, consentGiven: bool,
                           freshId: string): (r: (Login, int))
    requires Requested(s)
  {
    if !authenticated then (WithStatus(s, UnknownPrincipal), LOGIN_REQUEST_DENIED)
    else if s.signatureStatus == DS_INVALID_SIGNATURE then (WithStatus(s, InvalidSignature), LOGIN_INVALID_SIGNATURE)
    else if s.signatureStatus == DS_SIGNATURE_NOT_FOUND then
      (WithStatus(s, UnsignedAuthnRequest), LOGIN_UNSIGNED_AUTHN_REQUEST)
    else if s.signatureStatus == 0 then
      var (s', rc) := ProcessFederation(s, me, consentGiven, freshId);
      if rc != 0 then (s', rc) else (WithStatus(s', Success), 0)
    else (WithStatus(s, Success), 0)
  }

  /* ----- the identity provider: building the assertion ----- */

  // The subject that names the principal to the service provider: its own identifier, with
  // the identity provider's beside it, or the identity provider's alone.
  function FederatedSubject(f: Federation): Subject {
    if f.remote.Some? then Subject(f.remote, f.local) else Subject(f.local, None)
  }

  // Assertions are appended to the response, and its reader takes the first.
  function WithAssertion(response: Response, a: Assertion): Response {
    if response.assertion.Some? then response else response.(assertion := Some(a))
  }

  // 'logout' says whether the service provider supports single logout.
  function BuildAssertion(s: Login, me: string, freshId: string, assertionId: string, logout: bool): (Login, int)
    requires Requested(s) && s.policy.Some?
  {
    if s.identity.None? then (s, PROFILE_IDENTITY_NOT_FOUND)
    else
      var remote := s.remote.value;
      var oneTime := s.policy == Some(OneTimePolicy) || remote !in s.identity.value;
      var once := NameId(freshId, OneTime, me);
      var subject := if oneTime then Subject(Some(once), None) else FederatedSubject(s.identity.value[remote]);
      var statement := Statement(Some(subject), if logout then Some(assertionId) else None);
      var assertion := Assertion(assertionId, Some(me), s.request.value.id, Some(statement), None);
      var session := if s.session.None? then EMPTY_SESSION else s.session.value;
      (s.(nameId := if oneTime then Some(once) else s.nameId,
          response := Some(WithAssertion(s.response.value, assertion)),
          session := Some(AddAssertion(session, remote, assertion))), 0)
  }

  /* ----- the service provider: accepting the sign-on ----- */

  // 'accept' needs an assertion that carries an authentication statement, if there is one.
  predicate Acceptable(s: Login) {
    s.response.Some? && s.response.value.assertion.Some? ==>
      s.remote.Some? && s.response.value.assertion.value.authn.Some?
  }

  function AcceptedFederation(subject: Subject): Option<Federation> {
    match subject.nameId
    case Some(n) =>
      if n.format != Federated then None
      else if subject.idpProvided.Some? then Some(Federation(Some(n), subject.idpProvided))
      else Some(Federation(None, Some(n)))
    case None => None
  }

  function AcceptSso(s: Login): (Login, int)
    requires Acceptable(s)
  {
    var identity := if s.identity.None? then map[] else s.identity.value;
    var session := if s.session.None? then EMPTY_SESSION else s.session.value;
    var s1 := s.(identity := Some(identity), session := Some(session));
    if s.response.None? then (s1, PROFILE_MISSING_RESPONSE)
    else if s.response.value.assertion.None? then (s1, PROFILE_MISSING_ASSERTION)
    else
      var assertion := s.response.value.assertion.value;
      var s2 := s1.(session := Some(AddAssertion(session, s.remote.value, assertion)));
      if NameIdOf(assertion.authn).None? then (s2, PROFILE_NAME_IDENTIFIER_NOT_FOUND)
      else
        match AcceptedFederation(assertion.authn.value.subject.value)
        case None => (s2, 0)
        case Some(f) => (s2.(identity := Some(identity[s.remote.value := f])), 0)
  }

  /* ----- the service provider: requests and responses ----- */

  function InitAuthnRequest(s: Login, server: Server, remoteID: Option<string>, firstIdp: Option<string>,
                            via: HttpMethod, freshId: string): (Login, int)
  {
    var remote := if remoteID.Some? then remoteID else firstIdp;
    var s1 := s.(remote := remote, request := None);
    if remote.None? then (s1, PROFILE_MISSING_REMOTE_PROVIDERID)
    else if GetProvider(server, remote).None? then (s1, SERVER_PROVIDER_NOT_FOUND)
    else if via != Redirect && via != Post then (s1, PROFILE_INVALID_HTTP_METHOD)
    else (s1.(request := Some(AuthnRequest(Some(freshId), server.me, None, None)), requestId := Some(freshId)), 0)
  }

  // 'relay' is the relay state that the message carries, and 'issuer' is the provider that its
  // artifact resolves to, or the error of reading it.
  function InitArtifactRequest(s: Login, via: HttpMethod, relay: Option<string>, issuer: Result<Option<string>, int>,
                               artifact: string, freshId: string): (Login, int)
  {
    if via != Redirect && via != Post then (s, PROFILE_INVALID_HTTP_METHOD)
    else
      var s1 := s.(relayState := if relay.Some? then relay else s.relayState);
      if issuer.Err? then (s1, issuer.error)
      else
        var s2 := s1.(remote := issuer.value);
        if issuer.value.None? then (s2, PROFILE_MISSING_REMOTE_PROVIDERID)
        else (s2.(request := Some(ArtifactRequest(freshId, artifact))), 0)
  }

  function StatusError(status: Status): int {
    if status.code == Success then 0
    else if status.code == RequestDenied then LOGIN_REQUEST_DENIED
    else if status.code == Responder && status.second == Second(Some(FederationDoesNotExist)) then
      LOGIN_FEDERATION_NOT_FOUND
    else if status.code == Responder && status.second == Second(Some(UnknownPrincipal)) then LOGIN_UNKNOWN_PRINCIPAL
    else LOGIN_STATUS_NOT_SUCCESS
  }

  // The name identifier of an assertion: of its authentication statement if it names one,
  // else of its attribute statement.
  function AssertedNameId(a: Assertion): Option<NameId> {
    if NameIdOf(a.authn).Some? then NameIdOf(a.authn) else NameIdOf(a.attribute)
  }

  // 'assertionSignature' is what verifying the signature of the assertion itself gives.
  function CheckResponse(s: Login, server: Server, assertionSignature: int): (Login, int)
    requires s.response.Some?
  {
    var response := s.response.value;
    if response.status.None? then (s, PROFILE_MISSING_STATUS_CODE)
    else if StatusError(response.status.value) != 0 then (s, StatusError(response.status.value))
    else if response.assertion.None? then (s, 0)
    else CheckAssertion(s, server, response.assertion.value, assertionSignature)
  }

  function CheckAssertion(s: Login, server: Server, a: Assertion, assertionSignature: int): (Login, int) {
    if GetProvider(server, s.remote).None? then (s, SERVER_PROVIDER_NOT_FOUND)
    else if s.requestId.Some? && a.inResponseTo != s.requestId then (s, LOGIN_ASSERTION_DOES_NOT_MATCH_REQUEST_ID)
    else if s.signatureStatus != 0 && a.issuer.None? then (s, PROFILE_MISSING_ISSUER)
    else if s.signatureStatus != 0 && a.issuer != s.remote then (s, PROFILE_INVALID_ISSUER)
    else
      var s1 := if s.signatureStatus != 0 then s.(signatureStatus := assertionSignature) else s;
      if s1.signatureStatus != 0 then (s1, s1.signatureStatus)
      else
        var s2 := s1.(nameId := AssertedNameId(a));
        (s2, if s2.nameId.None? then PROFILE_NAME_IDENTIFIER_NOT_FOUND else 0)
  }

  function ProcessAuthnResponse(s: Login, server: Server, wellFormed: bool, response: Response,
                                signature: int, assertionSignature: int): (Login, int)
  {
    var s1 := s.(remote := None, response := Some(response));
    if !wellFormed then (s1, PROFILE_INVALID_MSG)
    else
      var s2 := s1.(remote := response.providerID);
      if GetProvider(server, s2.remote).None? then (s2, SERVER_PROVIDER_NOT_FOUND)
      else
        var s3 := s2.(relayState := response.relayState, signatureStatus := signature);
        if signature != 0 then (s3, signature) else CheckResponse(s3, server, assertionSignature)
  }

  predicate Mismatched(request: Option<Request>, responseTo: Option<string>) {
    var id := if request.Some? && request.value.ArtifactRequest? then Some(request.value.rid) else None;
    || (id.None? && responseTo.Some?)
    || (request.Some? && responseTo.None?)
    || (id.Some? && responseTo.Some? && id != responseTo)
  }

  // 'response' is absent when the message does not hold one; 'signature' is absent when the
  // message keeps no signed XML.
  function ProcessSoapResponse(s: Login, server: Server, strict: bool, response: Option<Response>,
                               signature: Option<int>, assertionSignature: int): (Login, int)
  {
    if response.None? then (s.(response := None), PROFILE_INVALID_MSG)
    else
      var s1 := s.(response := response);
      if (s.request.Some? || strict) && Mismatched(s.request, response.value.inResponseTo) then
        (s1, PROFILE_RESPONSE_DOES_NOT_MATCH_REQUEST)
      else
        var status := if signature.Some? && s.remote.Some? then signature.value else DS_SIGNATURE_VERIFICATION_FAILED;
        CheckResponse(s1.(signatureStatus := status), server, assertionSignature)
  }
}
