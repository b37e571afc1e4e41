/** The ID-FF 1.2 entities that the protocol profiles share. */
module IdFf {
  import opened Wrappers

  /* ----- return codes ----- */

  const DS_SIGNATURE_NOT_FOUND := 101
  const DS_INVALID_SIGNATURE := 102
  const DS_SIGNATURE_VERIFICATION_FAILED := -111
  const SERVER_PROVIDER_NOT_FOUND := -201
  const LOGOUT_UNSUPPORTED_PROFILE := -301
  const LOGOUT_REQUEST_DENIED := 302
  const LOGOUT_FEDERATION_NOT_FOUND := 303
  const PROFILE_MISSING_REQUEST := -404
  const PROFILE_INVALID_HTTP_METHOD := -405
  const PROFILE_INVALID_MSG := -407
  const PROFILE_MISSING_REMOTE_PROVIDERID := -408
  const PROFILE_UNSUPPORTED_PROFILE := -409
  const PROFILE_UNKNOWN_PROFILE_URL := -410
  const PROFILE_IDENTITY_NOT_FOUND := -411
  const PROFILE_FEDERATION_NOT_FOUND := -412
  const PROFILE_NAME_IDENTIFIER_NOT_FOUND := -413
  const PROFILE_BUILDING_RESPONSE_FAILED := -417
  const PROFILE_SESSION_NOT_FOUND := -418
  const PROFILE_MISSING_RESPONSE := -421
  const PROFILE_MISSING_STATUS_CODE := -422
  const PROFILE_MISSING_ARTIFACT := -423
  const PROFILE_MISSING_ASSERTION := -427
  const PROFILE_MISSING_NAME_IDENTIFIER := -429
  const PROFILE_INVALID_ARTIFACT := -430
  const PROFILE_STATUS_NOT_SUCCESS := -432
  const PROFILE_MISSING_ISSUER := -433
  const PROFILE_INVALID_ISSUER := -437
  const PROFILE_RESPONSE_DOES_NOT_MATCH_REQUEST := -442
  const LOGIN_FEDERATION_NOT_FOUND := 601
  const LOGIN_CONSENT_NOT_OBTAINED := 602
  const LOGIN_INVALID_NAMEIDPOLICY := -603
  const LOGIN_REQUEST_DENIED := 604
  const LOGIN_INVALID_SIGNATURE := 605
  const LOGIN_UNSIGNED_AUTHN_REQUEST := 606
  const LOGIN_STATUS_NOT_SUCCESS := 607
  const LOGIN_UNKNOWN_PRINCIPAL := 608
  const LOGIN_ASSERTION_DOES_NOT_MATCH_REQUEST_ID := 611
  const DEFEDERATION_MISSING_NAME_IDENTIFIER := -700

  /* ----- status codes ----- */

  datatype Code =
    | Success
    | RequestDenied
    | Responder
    | FederationDoesNotExist
    | InvalidSignature
    | UnknownPrincipal
    | UnsignedAuthnRequest
    | UnsupportedProfile
    | OtherCode(value: string)

  // A second-level status code may be absent, or present without a value.
  datatype Second = NoSecond | Second(code: Option<Code>)

  datatype Status = Status(code: Code, second: Second)

  // The top-level codes are those of the samlp: namespace; any other code becomes the
  // second level of a responder error.
  function StatusOf(code: Code): Status {
    if code == Success || code == RequestDenied || code == Responder then Status(code, NoSecond)
    else Status(Responder, Second(Some(code)))
  }

  /* ----- providers ----- */

  datatype Role = Sp | Idp | OtherRole

  datatype HttpMethod = NoMethod | AnyMethod | Get | Post | Redirect | Soap | OtherMethod

  datatype MessageFormat = SoapFormat | QueryFormat | OtherFormat

  // A known provider: its role, whether it lists the SOAP profile of single logout, and the
  // affiliation that it belongs to.
  datatype Provider = Provider(role: Role, soapLogout: bool, affiliation: Option<string>)

  datatype Server = Server(me: string, providers: map<string, Provider>)

  function GetProvider(server: Server, id: Option<string>): Option<Provider> {
    if id.Some? && id.value != "" && id.value in server.providers then Some(server.providers[id.value]) else None
  }

  // What the metadata say about a protocol with a provider: whether the wanted method is
  // accepted, and the method to use when none is named.
  datatype Metadata = Metadata(accepts: bool, first: HttpMethod)

  // A hash table is traversed in some order of its keys.
  ghost predicate Enumerates(order: seq<string>, keys: set<string>) {
    && (forall k :: k in order <==> k in keys)
    && (forall i, j :: 0 <= i < j < |order| ==> order[i] != order[j])
  }

  /* ----- addresses ----- */

  const RELAY_KEY := "RelayState="

  function ConcatUrlQuery(url: string, query: string): string {
    url + (if '?' in url then "&" else "?") + query
  }

  /* ----- name identifiers and federations ----- */

  datatype Format = Federated | OneTime | OtherFormatName(name: string)

  datatype NameId = NameId(content: string, format: Format, qualifier: string)

  datatype Federation = Federation(local: Option<NameId>, remote: Option<NameId>)

  type Identity = map<string, Federation>

  // lasso_federation_verify_name_identifier compares contents only.
  predicate Verifies(f: Federation, n: NameId) {
    (f.local.Some? && f.local.value.content == n.content) || (f.remote.Some? && f.remote.value.content == n.content)
  }

  /* ----- assertions and sessions ----- */

  datatype Subject = Subject(nameId: Option<NameId>, idpProvided: Option<NameId>)

  datatype Statement = Statement(subject: Option<Subject>, sessionIndex: Option<string>)

  datatype Assertion = Assertion(
    id: string, issuer: Option<string>, inResponseTo: Option<string>,
    authn: Option<Statement>, attribute: Option<Statement>)

  // The assertions by provider, the name identifiers of the assertions that have a session
  // index, the list of providers last taken from that second table ([] when there is none),
  // and the number of entries in the other tables.
  datatype Session = Session(
    assertions: map<string, Assertion>,
    nids: map<string, seq<(NameId, string)>>,
    providerIDs: seq<string>,
    others: nat)

  const EMPTY_SESSION := Session(map[], map[], [], 0)

  function NameIdOf(st: Option<Statement>): Option<NameId> {
    if st.Some? && st.value.subject.Some? then st.value.subject.value.nameId else None
  }

  // The name identifier entry that an assertion adds to the session.
  function NidEntry(a: Assertion): Option<(NameId, string)> {
    if NameIdOf(a.authn).Some? && a.authn.value.sessionIndex.Some?
    then Some((NameIdOf(a.authn).value, a.authn.value.sessionIndex.value))
    else None
  }

  function AddAssertion(s: Session, provider: string, a: Assertion): Session {
    var s' := s.(assertions := s.assertions[provider := a]);
    match NidEntry(a)
    case None => s'
    case Some(entry) =>
      var earlier := if provider in s.nids then s.nids[provider] else [];
      if entry in earlier then s' else s'.(nids := s.nids[provider := earlier + [entry]])
  }

  function RemoveAssertion(s: Session, provider: string): Session {
    s.(assertions := s.assertions - {provider}, nids := s.nids - {provider})
  }

  // Every provider with name identifier entries has an assertion, and no list of entries is
  // empty.
  ghost predicate SessionOk(s: Session) {
    s.nids.Keys <= s.assertions.Keys && forall p :: p in s.nids ==> s.nids[p] != []
  }

  lemma SessionOkKept(s: Session, provider: string, a: Assertion)
    requires SessionOk(s)
    ensures SessionOk(AddAssertion(s, provider, a))
    ensures SessionOk(RemoveAssertion(s, provider))
  {
  }
}
