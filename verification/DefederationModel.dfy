/** Federation termination: the calls on a defederation object as functions of its state. */
module DefederationModel {
  import opened Wrappers
  import opened IdFf

  datatype Notification = Notification(providerID: Option<string>, nameId: Option<NameId>, relayState: Option<string>)

  datatype Defederation = Defederation(
    identity: Option<Identity>,
    session: Option<Session>,
    remote: Option<string>,
    request: Option<Notification>,
    nameId: Option<NameId>,
    relayState: Option<string>,
    signatureStatus: int,
    via: HttpMethod,
    url: Option<string>)

  datatype NotificationMsg = NotificationMsg(
    format: MessageFormat, wellFormed: bool, notification: Notification, signature: int)

  // The key under which the federation with a provider is looked up for its name identifiers.
  function NameQualifier(server: Server, id: string): Option<string> {
    match GetProvider(server, Some(id))
    case None => None
    case Some(provider) => if provider.affiliation.Some? then provider.affiliation else Some(id)
  }

  // lasso_profile_get_nameIdentifier: the identifier of the assertion in the session if there
  // is one, else the remote identifier of the federation, else its local one.
  function NameIdentifierFor(s: Defederation, server: Server, remote: string): Option<NameId> {
    if s.session.Some? && remote in s.session.value.assertions
      && NameIdOf(s.session.value.assertions[remote].authn).Some?
    then NameIdOf(s.session.value.assertions[remote].authn)
    else
      var qualifier := NameQualifier(server, remote);
      if s.identity.Some? && qualifier.Some? && qualifier.value in s.identity.value then
        var f := s.identity.value[qualifier.value];
        if f.remote.Some? then f.remote else f.local
      else None
  }

  // The federation and the assertion of a provider go together.
  function Forget(s: Defederation, provider: string): Defederation
    requires s.identity.Some?
  {
    s.(identity := Some(s.identity.value - {provider}),
       session := if s.session.None? then None else Some(RemoveAssertion(s.session.value, provider)))
  }

  function InitNotification(s: Defederation, server: Server, remoteID: Option<string>, firstProvider: Option<string>,
                            via: HttpMethod, md: Metadata): (Defederation, int)
  {
    var (s1, rc) := ChooseFederation(s, server, remoteID, firstProvider);
    if rc != 0 then (s1, rc) else SendNotice(s1, server, via, md)
  }

  // The state in which the federation to terminate is known, and what to send about it.
  predicate Chosen(s: Defederation) {
    s.identity.Some? && s.remote.Some? && s.remote.value in s.identity.value
  }

  // 'firstProvider' is the provider used when none is named.
  function ChooseFederation(s: Defederation, server: Server, remoteID: Option<string>, firstProvider: Option<string>)
    : (r: (Defederation, int))
    ensures r.1 == 0 ==> Chosen(r.0)
  {
    var remote := if remoteID.Some? then remoteID else firstProvider;
    var s1 := s.(remote := remote, request := None);
    if GetProvider(server, remote).None? then (s1, SERVER_PROVIDER_NOT_FOUND)
    else if s.identity.None? then (s1, PROFILE_IDENTITY_NOT_FOUND)
    else if remote.value !in s.identity.value then (s1, PROFILE_FEDERATION_NOT_FOUND)
    else
      var sent := NameIdentifierFor(s1, server, remote.value);
      if sent.None? then (s1, PROFILE_NAME_IDENTIFIER_NOT_FOUND)
      else
        var local := s.identity.value[remote.value].local;
        (s1.(nameId := if local.Some? then local else sent), 0)
  }

  function SendNotice(s: Defederation, server: Server, via: HttpMethod, md: Metadata): (Defederation, int)
    requires Chosen(s)
  {
    if via != AnyMethod && !md.accepts then (s, PROFILE_UNSUPPORTED_PROFILE)
    else
      var chosen := if via == AnyMethod then md.first else via;
      var relay := if chosen == Soap then None else s.relayState;
      var sent := NameIdentifierFor(s, server, s.remote.value);
      (Forget(s, s.remote.value).(request := Some(Notification(Some(server.me), sent, relay)), via := chosen), 0)
  }

  function ProcessNotification(s: Defederation, server: Server, msg: NotificationMsg): (Defederation, int) {
    var n := msg.notification;
    var s1 := s.(request := Some(n));
    if !msg.wellFormed then (s1, PROFILE_INVALID_MSG)
    else
      var s2 := s1.(remote := n.providerID, relayState := if msg.format == QueryFormat then n.relayState
        else s.relayState);
      if GetProvider(server, s2.remote).None? then (s2, SERVER_PROVIDER_NOT_FOUND)
      else
        (s2.(signatureStatus := msg.signature,
             via := match msg.format case SoapFormat => Soap case QueryFormat => Redirect case OtherFormat => s.via,
             nameId := n.nameId,
             relayState := if n.relayState.Some? then n.relayState else s2.relayState), msg.signature)
  }

  // Where the principal is sent back: the return address with the relay state, as it stands.
  function ReturnAddress(url: string, relayState: Option<string>): string {
    if relayState.None? then url else ConcatUrlQuery(url, RELAY_KEY + relayState.value)
  }

  // 'returnUrl' is the return address that the metadata give for redirected notices.
  function ValidateNotification(s: Defederation, server: Server, returnUrl: Option<string>): (Defederation, int) {
    if s.request.None? then (s, PROFILE_MISSING_REQUEST)
    else
      var s1 := s.(url := None);
      if s.via == Redirect && GetProvider(server, s.remote).None? then (s1, SERVER_PROVIDER_NOT_FOUND)
      else if s.via == Redirect && returnUrl.None? then (s1, PROFILE_UNKNOWN_PROFILE_URL)
      else
        var s2 := s1.(url := if s.via == Redirect then Some(ReturnAddress(returnUrl.value, s.relayState)) else None);
        if s.request.value.nameId.None? then (s2, DEFEDERATION_MISSING_NAME_IDENTIFIER)
        else if s.identity.None? then (s2, PROFILE_IDENTITY_NOT_FOUND)
        else if s.remote.None? || s.remote.value !in s.identity.value then (s2, PROFILE_FEDERATION_NOT_FOUND)
        else if !Verifies(s.identity.value[s.remote.value], s.request.value.nameId.value) then
          (s2, PROFILE_NAME_IDENTIFIER_NOT_FOUND)
        else (Forget(s2, s.remote.value), 0)
  }
}
