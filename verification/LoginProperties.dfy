/** What every run of a login keeps: at the identity provider federations only appear with
    consent, and at the service provider only the answer to the last request is accepted. */
module LoginProperties {
  import opened Wrappers
  import opened IdFf
  import opened LoginModel

  /* ----- consent at the identity provider ----- */

  datatype IdpEvent =
    | Receive(remote: string, request: Request, response: Response, signature: int)
    | Validate(authenticated: bool, consentGiven: bool, freshId: string)
    | Build(onceId: string, assertionId: string, logout: bool)

  function ApplyIdp(s: Login, me: string, e: IdpEvent): Login {
    match e
    case Receive(remote, request, response, signature) =>
      s.(remote := Some(remote), request := Some(request), response := Some(response), signatureStatus := signature)
    case Validate(authenticated, consentGiven, freshId) =>
      if Requested(s) then ValidateRequest(s, me, authenticated, consentGiven, freshId).0 else s
    case Build(onceId, assertionId, logout) =>
      if Requested(s) && s.policy.Some? then BuildAssertion(s, me, onceId, assertionId, logout).0 else s
  }

  function RunIdp(s: Login, me: string, es: seq<IdpEvent>): Login
    decreases |es|
  {
    if es == [] then s else ApplyIdp(RunIdp(s, me, es[..|es| - 1]), me, es[|es| - 1])
  }

  function Federations(s: Login): Identity {
    if s.identity.None? then map[] else s.identity.value
  }

  // The call federates the requester with the consent of the principal.
  predicate Consents(s: Login, e: IdpEvent, provider: string) {
    && e.Validate? && e.authenticated
    && Requested(s) && s.remote == Some(provider) && s.signatureStatus == 0
    && (s.request.value.policy == Some(FederatedPolicy) || s.request.value.policy == Some(AnyPolicy))
    && (e.consentGiven || ConsentObtained(s.request.value.consent))
  }

  /** One call: no federation is changed or removed, and one that appears is the new one of a
      call that consents to it. */
  lemma CallRespectsConsent(s: Login, me: string, e: IdpEvent, provider: string)
    ensures var before, after := Federations(s), Federations(ApplyIdp(s, me, e));
            && (provider in before ==> provider in after && after[provider] == before[provider])
            && (provider in after && provider !in before ==>
                  Consents(s, e, provider) && after[provider] == NewFederation(me, e.freshId))
  {
  }

  /** Over every run: each federation at the end was there at the start, or a call of the run
      consented to it and made it. */
  lemma {:induction false} RunRespectsConsent(s: Login, me: string, es: seq<IdpEvent>, provider: string)
    requires provider in Federations(RunIdp(s, me, es))
    ensures var f := Federations(RunIdp(s, me, es))[provider];
            || (provider in Federations(s) && f == Federations(s)[provider])
            || (exists k :: 0 <= k < |es| && Consents(RunIdp(s, me, es[..k]), es[k], provider)
                            && f == NewFederation(me, es[k].freshId))
    decreases |es|
  {
    if es != [] {
      var n := |es| - 1;
      var front := es[..n];
      var mid := RunIdp(s, me, front);
      CallRespectsConsent(mid, me, es[n], provider);
      if provider in Federations(mid) {
        RunRespectsConsent(s, me, front, provider);
        var f := Federations(mid)[provider];
        if !(provider in Federations(s) && f == Federations(s)[provider]) {
          var k :| 0 <= k < n && Consents(RunIdp(s, me, front[..k]), front[k], provider)
                   && f == NewFederation(me, front[k].freshId);
          assert front[..k] == es[..k] && front[k] == es[k];
        }
      }
    }
  }

  /** What a successful validation means. With a verified signature, either the requester is
      federated and named by the local identifier of that federation, or the policy has become
      one-time and the federations are as before. With a status that is neither zero nor one
      of the two refused ones, nothing at all has been decided. */
  lemma ValidationMeans(s: Login, me: string, authenticated: bool, consentGiven: bool, freshId: string)
    requires Requested(s)
    ensures var (s', rc) := ValidateRequest(s, me, authenticated, consentGiven, freshId);
            rc == 0 ==>
              && authenticated
              && s'.response.value.status == Some(StatusOf(Success))
              && (if s.signatureStatus == 0 then
                    || (FederationWith(s', s.remote.value).Some?
                       && s'.nameId == FederationWith(s', s.remote.value).value.local)
                    || (s'.policy == Some(OneTimePolicy) && Federations(s') == Federations(s))
                  else
                    s' == s.(response := s'.response))
  {
  }

  /* ----- responses at the service provider ----- */

  datatype SpEvent =
    | InitAuthn(remoteID: Option<string>, firstIdp: Option<string>, via: HttpMethod, freshId: string)
    | InitArtifact(via: HttpMethod, relay: Option<string>, issuer: Result<Option<string>, int>, artifact: string,
                   freshId: string)
    | OnAuthnResponse(wellFormed: bool, response: Response, signature: int, assertionSignature: int)
    | OnSoapResponse(strict: bool, message: Option<Response>, signed: Option<int>, assertionSignature: int)
    | Accept

  function ApplySp(s: Login, server: Server, e: SpEvent): (Login, int) {
    match e
    case InitAuthn(remoteID, firstIdp, via, freshId) => InitAuthnRequest(s, server, remoteID, firstIdp, via, freshId)
    case InitArtifact(via, relay, issuer, artifact, freshId) =>
      InitArtifactRequest(s, via, relay, issuer, artifact, freshId)
    case OnAuthnResponse(wellFormed, response, signature, assertionSignature) =>
      ProcessAuthnResponse(s, server, wellFormed, response, signature, assertionSignature)
    case OnSoapResponse(strict, message, signed, assertionSignature) =>
      ProcessSoapResponse(s, server, strict, message, signed, assertionSignature)
    case Accept => if Acceptable(s) then AcceptSso(s) else (s, 0)
  }

  function RunSp(s: Login, server: Server, es: seq<SpEvent>): Login
    decreases |es|
  {
    if es == [] then s else ApplySp(RunSp(s, server, es[..|es| - 1]), server, es[|es| - 1]).0
  }

  // The identifier of the last authentication request that a run has initialised.
  function LastRequestId(s: Login, server: Server, es: seq<SpEvent>): Option<string>
    decreases |es|
  {
    if es == [] then s.requestId
    else
      var e, front := es[|es| - 1], es[..|es| - 1];
      if e.InitAuthn? && ApplySp(RunSp(s, server, front), server, e).1 == 0 then Some(e.freshId)
      else LastRequestId(s, server, front)
  }

  lemma {:induction false} RequestIdIsLast(s: Login, server: Server, es: seq<SpEvent>)
    ensures RunSp(s, server, es).requestId == LastRequestId(s, server, es)
    decreases |es|
  {
    if es != [] {
      var front, e := es[..|es| - 1], es[|es| - 1];
      RequestIdIsLast(s, server, front);
      OnlyInitSetsRequestId(RunSp(s, server, front), server, e);
    }
  }

  lemma OnlyInitSetsRequestId(s: Login, server: Server, e: SpEvent)
    ensures var (s', rc) := ApplySp(s, server, e);
            s'.requestId == if e.InitAuthn? && rc == 0 then Some(e.freshId) else s.requestId
  {
  }

  // What an accepted response amounts to.
  lemma AcceptedResponse(s: Login, server: Server, e: SpEvent)
    requires e.OnAuthnResponse? || e.OnSoapResponse?
    ensures var (s', rc) := ApplySp(s, server, e);
            rc == 0 && s'.response.value.assertion.Some? ==>
              var a := s'.response.value.assertion.value;
              && (s.requestId.Some? ==> a.inResponseTo == s.requestId)
              && s'.signatureStatus == 0
              && s'.nameId == AssertedNameId(a) && s'.nameId.Some?
  {
  }

  /** Over every run at the service provider: when processing a response that carries an
      assertion returns 0, and a request has been initialised, the assertion answers the last
      request that was successfully initialised, a signature has been verified, and the name
      identifier is the one that the assertion states. */
  lemma AcceptsOnlyTheLastAnswer(s: Login, server: Server, es: seq<SpEvent>)
    requires es != [] && (es[|es| - 1].OnAuthnResponse? || es[|es| - 1].OnSoapResponse?)
    ensures var front := es[..|es| - 1];
            var (s', rc) := ApplySp(RunSp(s, server, front), server, es[|es| - 1]);
            rc == 0 && s'.response.value.assertion.Some? && LastRequestId(s, server, es).Some? ==>
              var a := s'.response.value.assertion.value;
              && a.inResponseTo == LastRequestId(s, server, es)
              && s'.signatureStatus == 0
              && s'.nameId == AssertedNameId(a) && s'.nameId.Some?
  {
    var front, e := es[..|es| - 1], es[|es| - 1];
    RequestIdIsLast(s, server, front);
    AcceptedResponse(RunSp(s, server, front), server, e);
  }
}
