/** The defederation object itself: the calls that change its fields in place. */
module DefederationProfile {
  import opened Wrappers
  import opened IdFf
  import opened DefederationModel

  class DefederationProfile {
    const server: Server
    var identity: Option<Identity>
    var session: Option<Session>
    var remote: Option<string>
    var request: Option<Notification>
    var nameId: Option<NameId>
    var relayState: Option<string>
    var signatureStatus: int
    var via: HttpMethod
    var url: Option<string>

    constructor (server: Server, identity: Option<Identity>, session: Option<Session>)
      requires session.Some? ==> SessionOk(session.value)
      ensures this.server == server && Valid()
      ensures View() == Defederation(identity, session, None, None, None, None, 0, NoMethod, None)
    {
      this.server, this.identity, this.session := server, identity, session;
      remote, request, nameId, relayState, url := None, None, None, None, None;
      signatureStatus, via := 0, NoMethod;
    }

    ghost predicate Valid()
      reads this
    {
      session.Some? ==> SessionOk(session.value)
    }

    ghost function View(): Defederation
      reads this
    {
      Defederation(identity, session, remote, request, nameId, relayState, signatureStatus, via, url)
    }

    method GetNameIdentifier(provider: string) returns (n: Option<NameId>)
      ensures n == NameIdentifierFor(View(), server, provider)
    {
      if session.Some? && provider in session.value.assertions {
        n := NameIdOf(session.value.assertions[provider].authn);
        if n.Some? {
          return;
        }
      }
      var record := GetProvider(server, Some(provider));
      if identity.None? || record.None? {
        return None;
      }
      var qualifier := if record.value.affiliation.Some? then record.value.affiliation.value else provider;
      if qualifier in identity.value {
        var f := identity.value[qualifier];
        if f.remote.Some? {
          return f.remote;
        }
        return f.local;
      }
      return None;
    }

    method RemoveFederation(provider: string)
      requires identity.Some?
      modifies `identity, `session
      ensures View() == Forget(old(View()), provider)
    {
      identity := Some(identity.value - {provider});
      if session.Some? {
        session := Some(RemoveAssertion(session.value, provider));
      }
    }

    method InitNotificationMsg(remoteID: Option<string>, firstProvider: Option<string>, httpMethod: HttpMethod,
                               md: Metadata)
      returns (rc: int)
      requires Valid()
      modifies this
      ensures Valid()
      ensures (View(), rc) == InitNotification(old(View()), server, remoteID, firstProvider, httpMethod, md)
    {
      rc := FindFederation(remoteID, firstProvider);
      if rc == 0 {
        rc := BuildNotice(httpMethod, md);
      }
    }

    method FindFederation(remoteID: Option<string>, firstProvider: Option<string>) returns (rc: int)
      modifies `remote, `request, `nameId
      ensures (View(), rc) == ChooseFederation(old(View()), server, remoteID, firstProvider)
    {
      remote := None;
      request := None;
      if remoteID.Some? {
        remote := remoteID;
      } else {
        remote := firstProvider;
      }
      if remote.None? {
        return SERVER_PROVIDER_NOT_FOUND;
      }
      if GetProvider(server, remote).None? {
        return SERVER_PROVIDER_NOT_FOUND;
      }
      if identity.None? {
        return PROFILE_IDENTITY_NOT_FOUND;
      }
      if remote.value !in identity.value {
        return PROFILE_FEDERATION_NOT_FOUND;
      }
      var federation := identity.value[remote.value];
      var sent := GetNameIdentifier(remote.value);
      if sent.None? {
        return PROFILE_NAME_IDENTIFIER_NOT_FOUND;
      }
      nameId := if federation.local.Some? then federation.local else sent;
      return 0;
    }

    method BuildNotice(httpMethod: HttpMethod, md: Metadata) returns (rc: int)
      requires Chosen(View())
      modifies this
      ensures (View(), rc) == SendNotice(old(View()), server, httpMethod, md)
    {
      var chosen := httpMethod;
      if httpMethod == AnyMethod {
        chosen := md.first;
      } else if !md.accepts {
        return PROFILE_UNSUPPORTED_PROFILE;
      }
      var sent := GetNameIdentifier(remote.value);
      if chosen == Soap {
        request := Some(Notification(Some(server.me), sent, None));
      } else {
        request := Some(Notification(Some(server.me), sent, relayState));
      }
      RemoveFederation(remote.value);
      via := chosen;
      return 0;
    }

    method ProcessNotificationMsg(msg: NotificationMsg) returns (rc: int)
      requires Valid()
      modifies this
      ensures Valid()
      ensures (View(), rc) == ProcessNotification(old(View()), server, msg)
    {
      request := Some(msg.notification);
      if !msg.wellFormed {
        return PROFILE_INVALID_MSG;
      }
      if msg.format == QueryFormat {
        relayState := msg.notification.relayState;
      }
      remote := msg.notification.providerID;
      if GetProvider(server, remote).None? {
        return SERVER_PROVIDER_NOT_FOUND;
      }
      signatureStatus := msg.signature;
      if msg.format == SoapFormat {
        via := Soap;
      }
      if msg.format == QueryFormat {
        via := Redirect;
      }
      nameId := msg.notification.nameId;
      if msg.notification.relayState.Some? {
        relayState := msg.notification.relayState;
      }
      return signatureStatus;
    }

    method ValidateNotificationMsg(returnUrl: Option<string>) returns (rc: int)
      requires Valid()
      modifies this
      ensures Valid()
      ensures (View(), rc) == ValidateNotification(old(View()), server, returnUrl)
    {
      if request.None? {
        return PROFILE_MISSING_REQUEST;
      }
      url := None;
      if via == Redirect {
        if GetProvider(server, remote).None? {
          return SERVER_PROVIDER_NOT_FOUND;
        }
        url := returnUrl;
        if url.None? {
          return PROFILE_UNKNOWN_PROFILE_URL;
        }
        if relayState.Some? {
          url := Some(ConcatUrlQuery(url.value, RELAY_KEY + relayState.value));
        }
      }
      if request.value.nameId.None? {
        return DEFEDERATION_MISSING_NAME_IDENTIFIER;
      }
      if identity.None? {
        return PROFILE_IDENTITY_NOT_FOUND;
      }
      if remote.None? || remote.value !in identity.value {
        return PROFILE_FEDERATION_NOT_FOUND;
      }
      if !Verifies(identity.value[remote.value], request.value.nameId.value) {
        return PROFILE_NAME_IDENTIFIER_NOT_FOUND;
      }
      RemoveFederation(remote.value);
      return 0;
    }
  }
}
