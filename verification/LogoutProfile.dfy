/** The logout object itself: the calls that change its fields in place. */
module LogoutProfile {
  import opened Wrappers
  import opened IdFf
  import opened LogoutModel
  import opened LogoutProperties
  import opened LogoutPropagation
  import LogoutExchange

  class LogoutProfile {
    const server: Server
    var session: Option<Session>
    var identity: Option<Identity>
    var remote: Option<string>
    var request: Option<Request>
    var response: Option<Response>
    var nameId: Option<NameId>
    var relayState: Option<string>
    var signatureStatus: int
    var via: HttpMethod
    var initialRemote: Option<string>
    var initialRequest: Option<Request>
    var initialResponse: Option<Response>
    var initialMethod: HttpMethod
    var index: nat
    var allSoap: bool

    constructor (server: Server, session: Option<Session>, identity: Option<Identity>)
      requires session.Some? ==> SessionOk(session.value)
      ensures Valid() && this.server == server && this.session == session && this.identity == identity
      ensures initialRemote.None? && initialRequest.None? && initialResponse.None? && index == 0
    {
      this.server, this.session, this.identity := server, session, identity;
      remote, request, response, nameId, relayState := None, None, None, None, None;
      initialRemote, initialRequest, initialResponse, initialMethod := None, None, None, NoMethod;
      signatureStatus, via, index, allSoap := 0, NoMethod, 0, false;
    }

    // The saved exchange and the tables of the session are consistent.
    ghost predicate Valid()
      reads this
    {
      InitialOk(View(), server.me) && TablesOk(View())
    }

    ghost function View(): Logout
      reads this
    {
      Logout(session, identity, remote, request, response, nameId, relayState, signatureStatus, via,
             initialRemote, initialRequest, initialResponse, initialMethod, index, allSoap)
    }

    method SetResponseStatus(code: Code)
      requires response.Some?
      modifies `response
      ensures View() == WithStatus(old(View()), code)
    {
      response := Some(response.value.(status := Some(StatusOf(code))));
    }

    method DropAssertion(provider: string)
      modifies `session
      ensures View() == old(View()).(session := Drop(old(session), provider))
    {
      if session.Some? {
        session := Some(RemoveAssertion(session.value, provider));
      }
    }

    method SaveExchange()
      modifies `remote, `request, `response, `initialRemote, `initialRequest, `initialResponse
      ensures View() == SaveInitial(old(View()))
    {
      initialRemote, remote := remote, None;
      initialRequest, request := request, None;
      initialResponse, response := response, None;
    }

    method RestoreExchange()
      modifies `remote, `request, `response, `initialRemote, `initialRequest, `initialResponse
      ensures View() == RestoreInitial(old(View()))
    {
      remote, initialRemote := initialRemote, None;
      request, initialRequest := initialRequest, None;
      response, initialResponse := initialResponse, None;
    }

    method ProcessRequestMsg(msg: RequestMsg) returns (rc: int)
      requires Valid()
      modifies this
      ensures Valid()
      ensures (View(), rc) == ProcessRequest(old(View()), server, msg)
    {
      CallKeeps(View(), server, OnRequest(msg));
      CallKeepsTables(View(), server, OnRequest(msg));
      rc := ReceiveRequest(msg);
    }

    method ReceiveRequest(msg: RequestMsg) returns (rc: int)
      modifies this
      ensures (View(), rc) == ProcessRequest(old(View()), server, msg)
    {
      request := Some(msg.request);
      if !msg.wellFormed {
        return PROFILE_INVALID_MSG;
      }
      if msg.request.providerID.None? || msg.request.nameId.None? {
        return PROFILE_INVALID_MSG;
      }
      relayState := msg.request.relayState;
      remote := msg.request.providerID;
      if GetProvider(server, remote).None? {
        return SERVER_PROVIDER_NOT_FOUND;
      }
      signatureStatus := msg.signature;
      match msg.format {
        case SoapFormat => via := Soap;
        case QueryFormat => via := Redirect;
        case OtherFormat => return PROFILE_INVALID_MSG;
      }
      nameId := msg.request.nameId;
      return signatureStatus;
    }

    /** The traversal of the provider table, in whatever order the table yields it: the flag
        ends true exactly when every other provider with an assertion supports SOAP logout. */
    method CheckSoapSupport(order: seq<string>)
      requires session.Some?
      requires Enumerates(order, server.providers.Keys)
      modifies `allSoap
      ensures allSoap == AllSoap(old(View()), server)
    {
      allSoap := true;
      var i := 0;
      while i < |order|
        invariant 0 <= i <= |order|
        invariant allSoap <==> forall k :: 0 <= k < i ==> Passes(order[k])
      {
        var p := order[i];
        if Some(p) == remote {
          // the requester itself
        } else if p !in session.value.assertions {
          // not authenticated with this provider
        } else if !server.providers[p].soapLogout {
          allSoap := false;
        }
        i := i + 1;
      }
      assert forall k :: 0 <= k < |order| ==> order[k] in server.providers;
    }

    ghost predicate Passes(p: string)
      requires session.Some? && p in server.providers
      reads `session, `remote
    {
      Some(p) != remote && p in session.value.assertions ==> server.providers[p].soapLogout
    }

    method Validate(order: seq<string>) returns (rc: int)
      requires Enumerates(order, server.providers.Keys)
      requires Valid()
      modifies this
      ensures Valid()
      ensures (View(), rc) == ValidateRequest(old(View()), server)
      ensures rc == 0 <==> MayLogOut(old(View()), server)
      ensures session == if rc == 0 then Drop(old(session), old(request).value.providerID.value) else old(session)
    {
      CallKeeps(View(), server, LogoutProperties.Validate);
      CallKeepsTables(View(), server, LogoutProperties.Validate);
      ValidateAllOrNothing(View(), server);
      rc := BuildAnswer();
      if rc != 0 {
        return;
      }
      rc := VerifyRequest(order);
      if rc != 0 {
        return;
      }
      AcceptRequest();
    }

    method AcceptRequest()
      requires GetProvider(server, remote).Some?
      modifies this
      ensures View() == Accept(old(View()), server)
    {
      var provider := GetProvider(server, remote).value;
      DropAssertion(remote.value);
      if provider.role == Sp && Count(session) >= 1 {
        SaveExchange();
      }
    }

    method BuildAnswer() returns (rc: int)
      modifies `remote, `response
      ensures (View(), rc) == PrepareAnswer(old(View()), server)
    {
      if request.None? {
        return PROFILE_MISSING_REQUEST;
      }
      remote := request.value.providerID;
      if GetProvider(server, remote).None? {
        return SERVER_PROVIDER_NOT_FOUND;
      }
      response := None;
      if via == Soap || via == Redirect {
        response := Some(Answer(server.me, request.value));
      }
      if response.None? {
        return PROFILE_BUILDING_RESPONSE_FAILED;
      }
      response := Some(response.value.(relayState := relayState));
      return 0;
    }

    method VerifyRequest(order: seq<string>) returns (rc: int)
      requires Enumerates(order, server.providers.Keys)
      requires Prepared(View(), server)
      modifies `response, `allSoap
      ensures (View(), rc) == CheckRequest(old(View()), server)
    {
      if signatureStatus != 0 {
        SetResponseStatus(InvalidSignature);
        return signatureStatus;
      }
      if request.value.nameId.None? {
        SetResponseStatus(FederationDoesNotExist);
        return PROFILE_NAME_IDENTIFIER_NOT_FOUND;
      }
      if session.None? {
        SetResponseStatus(RequestDenied);
        return PROFILE_SESSION_NOT_FOUND;
      }
      if remote.value !in session.value.assertions {
        SetResponseStatus(RequestDenied);
        return PROFILE_MISSING_ASSERTION;
      }
      rc := VerifyFederation(request.value.nameId.value);
      if rc != 0 {
        return;
      }
      if GetProvider(server, remote).value.role == Sp && via == Soap {
        CheckSoapSupport(order);
        if !allSoap {
          SetResponseStatus(UnsupportedProfile);
          return LOGOUT_UNSUPPORTED_PROFILE;
        }
      }
      return 0;
    }

    method VerifyFederation(requested: NameId) returns (rc: int)
      requires remote.Some? && response.Some?
      modifies `response
      ensures rc == FederationCheck(old(View()), requested)
      ensures View() == if rc == 0 then old(View()) else WithStatus(old(View()), FederationDoesNotExist)
    {
      if requested.format != Federated {
        return 0;
      }
      if identity.None? {
        SetResponseStatus(FederationDoesNotExist);
        return PROFILE_IDENTITY_NOT_FOUND;
      }
      if remote.value !in identity.value {
        SetResponseStatus(FederationDoesNotExist);
        return PROFILE_FEDERATION_NOT_FOUND;
      }
      if !Verifies(identity.value[remote.value], requested) {
        SetResponseStatus(FederationDoesNotExist);
        return LOGOUT_FEDERATION_NOT_FOUND;
      }
      return 0;
    }

    method ResetProviderIDIndex(order: seq<string>)
      requires Valid()
      modifies `session, `index
      ensures Valid()
      ensures View() == ResetIndex(old(View()), order)
    {
      CallKeeps(View(), server, Reset(order));
      CallKeepsTables(View(), server, Reset(order));
      if session.Some? {
        session := Some(session.value.(providerIDs := order));
      }
      index := 0;
    }

    method GetProviderIndex(n: nat, order: seq<string>) returns (id: Option<string>)
      requires session.Some?
      modifies `session
      ensures (session, id) == var at := ProviderAt(old(session).value, n, order); (Some(at.0), at.1)
    {
      if session.value.nids == map[] {
        return None;
      }
      if session.value.providerIDs == [] {
        session := Some(session.value.(providerIDs := order));
      }
      var ids := session.value.providerIDs;
      return if n < |ids| then Some(ids[n]) else None;
    }

    method GetNextProviderID(order: seq<string>) returns (id: Option<string>)
      requires Valid()
      modifies `session, `index
      ensures Valid()
      ensures (View(), id) == NextProvider(old(View()), order)
    {
      CallKeeps(View(), server, Next(order));
      CallKeepsTables(View(), server, Next(order));
      if session.None? {
        return None;
      }
      id := GetProviderIndex(index, order);
      index := index + 1;
      if initialRemote.Some? && id == initialRemote {
        id := GetProviderIndex(index, order);
        index := index + 1;
      }
    }

    method InitLogoutRequest(remoteID: Option<string>, httpMethod: HttpMethod, md: Metadata,
                             order: seq<string>, freshId: string) returns (rc: int)
      requires Valid()
      modifies this
      ensures Valid()
      ensures (View(), rc) == InitRequest(old(View()), server, remoteID, httpMethod, md, order, freshId)
      ensures remoteID.Some? && LogoutExchange.CanRequest(old(View()), server, remoteID.value, httpMethod, md) ==>
                var name := Some(LogoutExchange.NameFor(old(View()), remoteID.value));
                rc == 0 && request == Some(Request(freshId, Some(server.me), name, old(relayState)))
    {
      ghost var before := View();
      if remoteID.Some? && LogoutExchange.CanRequest(before, server, remoteID.value, httpMethod, md) {
        LogoutExchange.RequestBuilt(before, server, remoteID.value, httpMethod, md, order, freshId);
      }
      rc := PrepareRequest(remoteID, httpMethod, md, order, freshId);
      CallIsValid(before, View(), server, Init(remoteID, httpMethod, md, order, freshId));
    }

    method PrepareRequest(remoteID: Option<string>, httpMethod: HttpMethod, md: Metadata, order: seq<string>,
                          freshId: string) returns (rc: int)
      modifies this
      ensures (View(), rc) == InitRequest(old(View()), server, remoteID, httpMethod, md, order, freshId)
    {
      rc := FindProvider(remoteID, order);
      if rc == 0 {
        rc := BuildRequest(httpMethod, md, freshId);
      }
    }

    method FindProvider(remoteID: Option<string>, order: seq<string>) returns (rc: int)
      modifies `remote, `session, `nameId
      ensures (View(), rc) == ChooseProvider(old(View()), server, remoteID, order)
    {
      if session.None? || IsEmpty(session.value) {
        return PROFILE_SESSION_NOT_FOUND;
      }
      if remoteID.None? {
        remote := GetProviderIndex(0, order);
      } else {
        remote := remoteID;
      }
      if remote.None? {
        return PROFILE_MISSING_REMOTE_PROVIDERID;
      }
      if GetProvider(server, remote).None? {
        return SERVER_PROVIDER_NOT_FOUND;
      }
      if remote.value !in session.value.nids || session.value.nids[remote.value] == [] {
        return PROFILE_MISSING_NAME_IDENTIFIER;
      }
      nameId := Some(session.value.nids[remote.value][0].0);
      return 0;
    }

    method BuildRequest(httpMethod: HttpMethod, md: Metadata, freshId: string) returns (rc: int)
      requires Chosen(View(), server)
      modifies this
      ensures (View(), rc) == AskProvider(old(View()), server, httpMethod, md, freshId)
    {
      var chosen := httpMethod;
      if httpMethod == AnyMethod {
        chosen := md.first;
      } else if !md.accepts {
        if httpMethod == Redirect {
          DropAssertion(remote.value);
          if initialRemote.Some? && initialRequest.Some? {
            remote := initialRemote;
            response := Some(Answer(server.me, initialRequest.value));
          }
        }
        return PROFILE_UNSUPPORTED_PROFILE;
      }
      if GetProvider(server, remote).value.role == Idp && chosen != Soap {
        DropAssertion(remote.value);
      }
      initialMethod := chosen;
      request := Some(Request(freshId, Some(server.me), nameId, relayState));
      return 0;
    }

    method ProcessResponseMsg(msg: ResponseMsg, redirectRc: int) returns (rc: int)
      requires Valid()
      modifies this
      ensures Valid()
      ensures (View(), rc) == ProcessResponse(old(View()), server, msg, redirectRc)
    {
      CallKeeps(View(), server, OnResponse(msg, redirectRc));
      CallKeepsTables(View(), server, OnResponse(msg, redirectRc));
      rc := HandleResponse(msg, redirectRc);
    }

    method HandleResponse(msg: ResponseMsg, redirectRc: int) returns (rc: int)
      modifies this
      ensures (View(), rc) == ProcessResponse(old(View()), server, msg, redirectRc)
    {
      rc := AcceptMessage(msg);
      if rc != 0 {
        return;
      }
      if msg.signature != DS_SIGNATURE_NOT_FOUND {
        return msg.signature;
      }
      if msg.response.status.None? {
        return PROFILE_MISSING_STATUS_CODE;
      }
      var provider := GetProvider(server, remote).value;
      if msg.response.status.value.code != Success {
        rc := HandleFailure(provider, msg.response.status.value, redirectRc);
      } else {
        HandleSuccess(provider, msg.format);
      }
    }

    method AcceptMessage(msg: ResponseMsg) returns (rc: int)
      modifies `response, `relayState, `remote
      ensures (View(), rc) == ReceiveResponse(old(View()), server, msg)
    {
      response := Some(msg.response);
      if msg.format == OtherFormat {
        return PROFILE_INVALID_MSG;
      }
      relayState := msg.response.relayState;
      remote := msg.response.providerID;
      if remote.None? {
        return PROFILE_MISSING_REMOTE_PROVIDERID;
      }
      if GetProvider(server, remote).None? {
        return SERVER_PROVIDER_NOT_FOUND;
      }
      return 0;
    }

    method HandleSuccess(provider: Provider, format: MessageFormat)
      requires remote.Some?
      modifies this
      ensures View() == LoggedOut(old(View()), provider, format)
    {
      if format == SoapFormat || provider.role == Sp {
        DropAssertion(remote.value);
      }
      if initialRemote.Some? && Count(session) <= 0 && provider.role == Sp {
        RestoreExchange();
      }
    }

    method HandleFailure(provider: Provider, status: Status, redirectRc: int) returns (rc: int)
      requires remote.Some?
      modifies `session
      ensures (View(), rc) == FailedResponse(old(View()), provider, status, redirectRc)
    {
      var code := FailureCode(status);
      if code == Some(UnsupportedProfile) && provider.role == Idp && initialMethod == Soap {
        if redirectRc != 0 {
          return redirectRc;
        }
        DropAssertion(remote.value);
        return LOGOUT_UNSUPPORTED_PROFILE;
      } else if code == Some(RequestDenied) {
        DropAssertion(remote.value);
        return LOGOUT_REQUEST_DENIED;
      } else if code == Some(FederationDoesNotExist) {
        DropAssertion(remote.value);
        return LOGOUT_FEDERATION_NOT_FOUND;
      }
      return PROFILE_STATUS_NOT_SUCCESS;
    }

    /* ----- propagating ----- */

    /** The loop of an application that propagates a saved logout: take the list of providers,
        and exchange with each next one, whatever it answers. The session is the one that the
        visits leave, and the saved exchange is back in place if and only if some visit closes
        the session. Where every answer names its sender, exactly the providers that leave are
        gone, and the exchange is back if and only if everybody leaves and the last confirms. */
    method PropagateLogout(order: seq<string>, peers: Peers)
      requires Valid() && session.Some?
      requires initialRemote.Some? && initialRemote.value !in session.value.assertions
      requires Enumerates(order, session.value.nids.Keys)
      modifies this
      ensures Valid()
      ensures Outcome(ResetIndex(old(View()), order), View(), server, peers, order)
      ensures Honest(peers, old(session).value) ==>
                && session.value.assertions.Keys == old(session).value.assertions.Keys - Leavers(peers, server, order)
                && (if Answered(old(session).value, server, peers, order) then Restored(old(View()), View())
                    else SameSaved(old(View()), View()))
    {
      LogoutPropagates(View(), server, order, peers);
      if Honest(peers, session.value) {
        HonestLogoutPropagates(View(), server, order, peers);
      }
      VisitEveryone(order, peers);
    }

    method VisitEveryone(order: seq<string>, peers: Peers)
      requires Valid() && Listed(ResetIndex(View(), order))
      modifies this
      ensures Valid() && View() == Propagate(ResetIndex(old(View()), order), server, peers)
    {
      ResetProviderIDIndex(order);
      ghost var start := View();
      while true
        invariant Valid() && Listed(View())
        invariant Propagate(View(), server, peers) == Propagate(start, server, peers)
        decreases |session.value.providerIDs| - index
      {
        var next := GetNextProviderID([]);
        if next.None? {
          break;
        }
        ExchangeKeepsList(View(), server, peers, next.value);
        ExchangeWith(next.value, peers);
      }
    }

    method ExchangeWith(p: string, peers: Peers)
      requires Valid()
      modifies this
      ensures Valid() && View() == Exchange(old(View()), server, peers, p)
    {
      var rc := InitLogoutRequest(Some(p), peers.via, peers.md(p), [], peers.freshId(p));
      if rc == 0 {
        var _ := ProcessResponseMsg(peers.reply(p), peers.redirectRc(p));
      }
    }

    /** A whole single logout at the identity provider: validate the request, and if it has been
        accepted and saved, propagate it. Where every provider answers Success, the session ends
        without assertions if and only if every other provider has a session index entry; then
        the Success answer to the first requester is in place, and otherwise it stays saved. */
    method LogoutEverywhere(tableOrder: seq<string>, order: seq<string>, peers: Peers) returns (rc: int)
      requires Valid() && Enumerates(tableOrder, server.providers.Keys)
      requires session.Some? && request.Some? && request.value.providerID.Some?
      requires Cooperative(peers, server, RemoveAssertion(session.value, request.value.providerID.value))
      requires Enumerates(order, session.value.nids.Keys - {request.value.providerID.value})
      requires initialRemote.None?
      modifies this
      ensures Valid() && (rc == 0 <==> MayLogOut(old(View()), server))
      ensures rc != 0 ==> session == old(session)
      ensures rc == 0 && server.providers[old(request).value.providerID.value].role == Sp
              && old(session).value.assertions.Keys != {old(request).value.providerID.value} ==>
                Completed(old(session).value, old(request).value, server, View())
    {
      ghost var s0 := View();
      rc := Validate(tableOrder);
      if rc != 0 {
        return;
      }
      SavedExactly(s0, server);
      if initialRemote.Some? {
        SavedCompletes(s0.session.value, s0.request.value, View(), server, order, peers);
        VisitEveryone(order, peers);
      }
    }
  }

  lemma CallIsValid(s: Logout, s': Logout, server: Server, e: Event)
    requires InitialOk(s, server.me) && TablesOk(s) && s' == Apply(s, server, e)
    ensures InitialOk(s', server.me) && TablesOk(s')
  {
    CallKeeps(s, server, e);
    CallKeepsTables(s, server, e);
  }
}
