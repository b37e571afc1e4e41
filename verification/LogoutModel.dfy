/** Single logout: the calls on a logout object as functions of its state. */
module LogoutModel {
  import opened Wrappers
  import opened IdFf

  datatype Request = Request(id: string, providerID: Option<string>, nameId: Option<NameId>, relayState: Option<string>)

  datatype Response = Response(
    inResponseTo: Option<string>, recipient: Option<string>, providerID: Option<string>,
    status: Option<Status>, relayState: Option<string>)

  datatype Logout = Logout(
    session: Option<Session>,
    identity: Option<Identity>,
    remote: Option<string>,
    request: Option<Request>,
    response: Option<Response>,
    nameId: Option<NameId>,
    relayState: Option<string>,
    signatureStatus: int,
    via: HttpMethod,
    initialRemote: Option<string>,
    initialRequest: Option<Request>,
    initialResponse: Option<Response>,
    initialMethod: HttpMethod,
    index: nat,
    allSoap: bool)

  /* ----- the session seen by a logout ----- */

  function Drop(s: Option<Session>, provider: string): Option<Session> {
    match s
    case None => None
    case Some(session) => Some(RemoveAssertion(session, provider))
  }

  function Count(s: Option<Session>): int {
    match s
    case None => -1
    case Some(session) => |session.assertions|
  }

  function IsEmpty(s: Session): bool {
    s.assertions == map[] && s.nids == map[] && s.others == 0
  }

  // lasso_session_get_provider_index: nothing when no provider has a name identifier entry;
  // otherwise the n-th of the list, which is taken in the given order if there is none yet.
  function ProviderAt(s: Session, n: nat, order: seq<string>): (Session, Option<string>) {
    if s.nids == map[] then (s, None)
    else
      var ids := if s.providerIDs == [] then order else s.providerIDs;
      (s.(providerIDs := ids), if n < |ids| then Some(ids[n]) else None)
  }

  /* ----- responses ----- */

  function Answer(me: string, request: Request): Response {
    Response(Some(request.id), request.providerID, Some(me), Some(StatusOf(Success)), request.relayState)
  }

  function WithStatus(s: Logout, code: Code): Logout
    requires s.response.Some?
  {
    s.(response := Some(s.response.value.(status := Some(StatusOf(code)))))
  }

  /* ----- the calls ----- */

  // What parsing and signature verification make of a received message.
  datatype RequestMsg = RequestMsg(format: MessageFormat, wellFormed: bool, request: Request, signature: int)

  datatype ResponseMsg = ResponseMsg(format: MessageFormat, response: Response, signature: int)

  function ProcessRequest(s: Logout, server: Server, msg: RequestMsg): (Logout, int) {
    var s1 := s.(request := Some(msg.request));
    if !msg.wellFormed || msg.request.providerID.None? || msg.request.nameId.None? then (s1, PROFILE_INVALID_MSG)
    else
      var s2 := s1.(relayState := msg.request.relayState, remote := msg.request.providerID);
      if GetProvider(server, s2.remote).None? then (s2, SERVER_PROVIDER_NOT_FOUND)
      else
        var s3 := s2.(signatureStatus := msg.signature);
        match msg.format
        case OtherFormat => (s3, PROFILE_INVALID_MSG)
        case _ =>
          (s3.(via := if msg.format == SoapFormat then Soap else Redirect, nameId := msg.request.nameId), msg.signature)
  }

  // The gate on SOAP logout: every other provider with an assertion supports it.
  ghost predicate AllSoap(s: Logout, server: Server)
    requires s.session.Some?
  {
    forall p :: p in server.providers && Some(p) != s.remote && p in s.session.value.assertions
      ==> server.providers[p].soapLogout
  }

  ghost function ValidateRequest(s: Logout, server: Server): (Logout, int) {
    var (s1, rc1) := PrepareAnswer(s, server);
    if rc1 != 0 then (s1, rc1)
    else
      var (s2, rc2) := CheckRequest(s1, server);
      if rc2 != 0 then (s2, rc2) else (Accept(s2, server), 0)
  }

  // The state in which the answer to a request of a known provider has been prepared.
  ghost predicate Prepared(s: Logout, server: Server) {
    s.request.Some? && s.response.Some? && GetProvider(server, s.remote).Some?
  }

  function PrepareAnswer(s: Logout, server: Server): (r: (Logout, int))
    ensures r.1 == 0 ==> Prepared(r.0, server)
  {
    if s.request.None? then (s, PROFILE_MISSING_REQUEST)
    else
      var request := s.request.value;
      var s1 := s.(remote := request.providerID);
      if GetProvider(server, s1.remote).None? then (s1, SERVER_PROVIDER_NOT_FOUND)
      else if s.via != Soap && s.via != Redirect then (s1.(response := None), PROFILE_BUILDING_RESPONSE_FAILED)
      else (s1.(response := Some(Answer(server.me, request).(relayState := s.relayState))), 0)
  }

  ghost function CheckRequest(s: Logout, server: Server): (r: (Logout, int))
    requires Prepared(s, server)
    ensures r.1 == 0 ==> Prepared(r.0, server) && r.0.session.Some?
  {
    var provider := GetProvider(server, s.remote).value;
    var nameId := s.request.value.nameId;
    if s.signatureStatus != 0 then (WithStatus(s, InvalidSignature), s.signatureStatus)
    else if nameId.None? then (WithStatus(s, FederationDoesNotExist), PROFILE_NAME_IDENTIFIER_NOT_FOUND)
    else if s.session.None? then (WithStatus(s, RequestDenied), PROFILE_SESSION_NOT_FOUND)
    else if s.remote.value !in s.session.value.assertions then
      (WithStatus(s, RequestDenied), PROFILE_MISSING_ASSERTION)
    else if FederationCheck(s, nameId.value) != 0 then
      (WithStatus(s, FederationDoesNotExist), FederationCheck(s, nameId.value))
    else if provider.role == Sp && s.via == Soap then
      if AllSoap(s, server) then (s.(allSoap := true), 0)
      else (WithStatus(s.(allSoap := false), UnsupportedProfile), LOGOUT_UNSUPPORTED_PROFILE)
    else (s, 0)
  }

  function Accept(s: Logout, server: Server): Logout
    requires GetProvider(server, s.remote).Some?
  {
    var s' := s.(session := Drop(s.session, s.remote.value));
    if GetProvider(server, s.remote).value.role == Sp && Count(s'.session) >= 1 then SaveInitial(s') else s'
  }

  // A federated name identifier must be one of the federation with the requester.
  function FederationCheck(s: Logout, nameId: NameId): int
    requires s.remote.Some?
  {
    if nameId.format != Federated then 0
    else if s.identity.None? then PROFILE_IDENTITY_NOT_FOUND
    else if s.remote.value !in s.identity.value then PROFILE_FEDERATION_NOT_FOUND
    else if !Verifies(s.identity.value[s.remote.value], nameId) then LOGOUT_FEDERATION_NOT_FOUND
    else 0
  }

  function SaveInitial(s: Logout): Logout {
    s.(initialRemote := s.remote, initialRequest := s.request, initialResponse := s.response,
       remote := None, request := None, response := None)
  }

  function RestoreInitial(s: Logout): Logout {
    s.(remote := s.initialRemote, request := s.initialRequest, response := s.initialResponse,
       initialRemote := None, initialRequest := None, initialResponse := None)
  }

  function ResetIndex(s: Logout, order: seq<string>): Logout {
    s.(session := if s.session.None? then None else Some(s.session.value.(providerIDs := order)), index := 0)
  }

  function NextProvider(s: Logout, order: seq<string>): (Logout, Option<string>) {
    if s.session.None? then (s, None)
    else
      var first := ProviderAt(s.session.value, s.index, order);
      if s.initialRemote.Some? && first.1 == s.initialRemote then
        var second := ProviderAt(first.0, s.index + 1, order);
        (s.(session := Some(second.0), index := s.index + 2), second.1)
      else (s.(session := Some(first.0), index := s.index + 1), first.1)
  }

  function InitRequest(s: Logout, server: Server, remote: Option<string>, via: HttpMethod,
                       md: Metadata, order: seq<string>, freshId: string): (Logout, int)
  {
    var (s1, rc) := ChooseProvider(s, server, remote, order);
    if rc != 0 then (s1, rc) else AskProvider(s1, server, via, md, freshId)
  }

  // The state in which the provider to ask is known, and the name identifier to send it.
  predicate Chosen(s: Logout, server: Server) {
    s.nameId.Some? && GetProvider(server, s.remote).Some?
  }

  function ChooseProvider(s: Logout, server: Server, remote: Option<string>, order: seq<string>): (r: (Logout, int))
    ensures r.1 == 0 ==> Chosen(r.0, server)
  {
    if s.session.None? || IsEmpty(s.session.value) then (s, PROFILE_SESSION_NOT_FOUND)
    else
      var at := ProviderAt(s.session.value, 0, order);
      var s1 := if remote.Some? then s.(remote := remote) else s.(session := Some(at.0), remote := at.1);
      if s1.remote.None? then (s1, PROFILE_MISSING_REMOTE_PROVIDERID)
      else if GetProvider(server, s1.remote).None? then (s1, SERVER_PROVIDER_NOT_FOUND)
      else
        var nids := s1.session.value.nids;
        var id := s1.remote.value;
        if id !in nids || nids[id] == [] then (s1, PROFILE_MISSING_NAME_IDENTIFIER)
        else (s1.(nameId := Some(nids[id][0].0)), 0)
  }

  function AskProvider(s: Logout, server: Server, via: HttpMethod, md: Metadata, freshId: string): (Logout, int)
    requires Chosen(s, server)
  {
    var id := s.remote.value;
    if via != AnyMethod && !md.accepts then
      (if via == Redirect then GiveUpOn(s, server, id) else s, PROFILE_UNSUPPORTED_PROFILE)
    else
      var chosen := if via == AnyMethod then md.first else via;
      var drop := GetProvider(server, s.remote).value.role == Idp && chosen != Soap;
      (s.(session := if drop then Drop(s.session, id) else s.session,
          initialMethod := chosen,
          request := Some(Request(freshId, Some(server.me), s.nameId, s.relayState))), 0)
  }

  // The provider supports no logout at all: forget it, and prepare the answer to the first
  // requester if there is one.
  function GiveUpOn(s: Logout, server: Server, id: string): Logout {
    var s' := s.(session := Drop(s.session, id));
    if s.initialRemote.Some? && s.initialRequest.Some? then
      s'.(remote := s.initialRemote, response := Some(Answer(server.me, s.initialRequest.value)))
    else s'
  }

  // The code that decides what a failure answer means: the second level if there is one.
  function FailureCode(status: Status): Option<Code> {
    match status.second
    case NoSecond => Some(status.code)
    case Second(code) => code
  }

  // 'redirectRc' is the result of rebuilding the request for HTTP redirect.
  function ProcessResponse(s: Logout, server: Server, msg: ResponseMsg, redirectRc: int): (Logout, int) {
    var (s1, rc) := ReceiveResponse(s, server, msg);
    if rc != 0 then (s1, rc)
    else if msg.signature != DS_SIGNATURE_NOT_FOUND then (s1, msg.signature)
    else if msg.response.status.None? then (s1, PROFILE_MISSING_STATUS_CODE)
    else
      var provider := GetProvider(server, s1.remote).value;
      if msg.response.status.value.code != Success then
        FailedResponse(s1, provider, msg.response.status.value, redirectRc)
      else (LoggedOut(s1, provider, msg.format), 0)
  }

  function ReceiveResponse(s: Logout, server: Server, msg: ResponseMsg): (r: (Logout, int))
    ensures r.1 == 0 ==> GetProvider(server, r.0.remote).Some?
  {
    var s1 := s.(response := Some(msg.response));
    if msg.format == OtherFormat then (s1, PROFILE_INVALID_MSG)
    else
      var s2 := s1.(relayState := msg.response.relayState, remote := msg.response.providerID);
      if s2.remote.None? then (s2, PROFILE_MISSING_REMOTE_PROVIDERID)
      else if GetProvider(server, s2.remote).None? then (s2, SERVER_PROVIDER_NOT_FOUND)
      else (s2, 0)
  }

  // The provider has logged the principal out; once nobody is left, the first requester is
  // answered.
  function LoggedOut(s: Logout, provider: Provider, format: MessageFormat): Logout
    requires s.remote.Some?
  {
    var s' := if format == SoapFormat || provider.role == Sp then s.(session := Drop(s.session, s.remote.value)) else s;
    if s'.initialRemote.Some? && Count(s'.session) <= 0 && provider.role == Sp then RestoreInitial(s') else s'
  }

  function FailedResponse(s: Logout, provider: Provider, status: Status, redirectRc: int): (Logout, int)
    requires s.remote.Some?
  {
    var code := FailureCode(status);
    var dropped := s.(session := Drop(s.session, s.remote.value));
    if code == Some(UnsupportedProfile) && provider.role == Idp && s.initialMethod == Soap then
      if redirectRc != 0 then (s, redirectRc) else (dropped, LOGOUT_UNSUPPORTED_PROFILE)
    else if code == Some(RequestDenied) then (dropped, LOGOUT_REQUEST_DENIED)
    else if code == Some(FederationDoesNotExist) then (dropped, LOGOUT_FEDERATION_NOT_FOUND)
    else (s, PROFILE_STATUS_NOT_SUCCESS)
  }
}
