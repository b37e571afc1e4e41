/** A sign-on and the logout after it: what single sign-on leaves on the two sides is what single
    logout needs there, whichever side asks. */
module SignOnLogout {
  import opened Wrappers
  import opened IdFf
  import opened LoginModel
  import opened LoginExchange
  import Logout = LogoutModel
  import Out = LogoutExchange

  // No name identifier entry of an earlier sign-on is left for the provider.
  predicate NoEntry(session: Option<Session>, provider: string) {
    session.None? || provider !in session.value.nids
  }

  // The session names the principal to the provider, as its only entry.
  predicate OnlyEntry(session: Option<Session>, provider: string, name: NameId) {
    && session.Some? && provider in session.value.nids
    && |session.value.nids[provider]| == 1 && session.value.nids[provider][0].0 == name
  }

  predicate Federates(identity: Option<Identity>, provider: string, name: NameId) {
    identity.Some? && provider in identity.value && Verifies(identity.value[provider], name)
  }

  /* ----- one side at a time ----- */

  lemma OneEntry(session: Option<Session>, provider: string, a: Assertion)
    requires NoEntry(session, provider)
    ensures var s := AddAssertion(if session.None? then EMPTY_SESSION else session.value, provider, a);
            && provider in s.assertions
            && (NidEntry(a).Some? ==> OnlyEntry(Some(s), provider, NidEntry(a).value.0))
            && (NidEntry(a).None? ==> provider !in s.nids)
  {
  }

  /** The identity provider after a granted answer: it holds its assertion about the service
      provider, an entry exactly when that supports logout, and the federation for a federated
      name. */
  lemma IdpSide(idp: Login, me: string, c: Choices)
    requires Requested(idp) && idp.signatureStatus == 0 && idp.response.value.assertion.None?
    requires Answered(idp, me, c).1 == 0 && NoEntry(idp.session, idp.remote.value)
    requires NameGiven(idp, me, idp.remote.value, c).Some?
    ensures var idp', sp := Answered(idp, me, c).0, idp.remote.value;
            var name := NameGiven(idp, me, sp, c).value;
            && idp'.session.Some? && sp in idp'.session.value.assertions
            && (if c.logout then OnlyEntry(idp'.session, sp, name) else sp !in idp'.session.value.nids)
            && (name.format == Federated ==> Federates(idp'.identity, sp, name))
  {
    GrantedExactly(idp, me, c.authenticated, c.consentGiven, c.freshId);
    var s := ValidateRequest(idp, me, c.authenticated, c.consentGiven, c.freshId).0;
    BuiltAnswer(s, me, c);
    AnswerOf(idp, me, c);
    OneEntry(idp.session, idp.remote.value, Answered(idp, me, c).0.response.value.assertion.value);
    GivenIsFederated(idp, me, c);
  }

  lemma GivenIsFederated(idp: Login, me: string, c: Choices)
    requires Requested(idp) && idp.signatureStatus == 0
    requires Answered(idp, me, c).1 == 0 && NameGiven(idp, me, idp.remote.value, c).Some?
    ensures var name := NameGiven(idp, me, idp.remote.value, c).value;
            name.format == Federated ==> Federates(Answered(idp, me, c).0.identity, idp.remote.value, name)
  {
  }

  /** The service provider after it has accepted an assertion: the same from its side. */
  lemma SpSide(sp: Login, me: string, a: Assertion)
    requires sp.response.Some? && sp.response.value.assertion == Some(a) && sp.remote == Some(me)
    requires NameIdOf(a.authn).Some? && NoEntry(sp.session, me)
    ensures Acceptable(sp)
    ensures var (sp', rc) := AcceptSso(sp);
            var name := NameIdOf(a.authn).value;
            && rc == 0 && sp'.session.Some? && me in sp'.session.value.assertions
            && (if a.authn.value.sessionIndex.Some? then OnlyEntry(sp'.session, me, name)
                else me !in sp'.session.value.nids)
            && (name.format == Federated ==> Federates(sp'.identity, me, name))
  {
    OneEntry(sp.session, me, a);
  }

  /* ----- both sides ----- */

  // The two sides after a sign-on, and the name between them.
  datatype SignedOn = SignedOn(sp: Login, idp: Login, name: NameId)

  // The service provider has asked, the identity provider has answered, and the service provider
  // has processed the answer and accepted it.
  ghost predicate SignsOn(sp: Login, spServer: Server, idpIdentity: Option<Identity>, idpSession: Option<Session>,
                          me: string, via: HttpMethod, c: Choices, after: SignedOn)
  {
    var (sp1, rc1) := InitAuthnRequest(sp, spServer, Some(me), None, via, c.requestId);
    && rc1 == 0 && sp1.request.Some? && sp1.request.value.AuthnRequest?
    && var idp := Received(idpIdentity, idpSession, me, Under(sp1.request.value, c.policy, c.consent), 0);
       var (idp', rc2) := Answered(idp, me, c);
       && rc2 == 0 && after.idp == idp' && idp'.response.Some?
       && NameGiven(idp, me, idp.remote.value, c) == Some(after.name)
       && var (sp2, rc3) := ProcessAuthnResponse(sp1, spServer, true, idp'.response.value, 0, 0);
          rc3 == 0 && Acceptable(sp2) && AcceptSso(sp2) == (after.sp, 0)
  }

  /** Every request that the identity provider grants makes a sign-on. */
  lemma GrantedSignsOn(sp: Login, spServer: Server, idpIdentity: Option<Identity>, idpSession: Option<Session>,
                       me: string, via: HttpMethod, c: Choices)
    returns (after: SignedOn)
    requires GetProvider(spServer, Some(me)).Some? && (via == Redirect || via == Post)
    requires idpIdentity.Some? && spServer.me in idpIdentity.value ==>
               idpIdentity.value[spServer.me].local.Some? || idpIdentity.value[spServer.me].remote.Some?
    requires c.authenticated
    requires Grants(AuthnRequest(Some(c.requestId), spServer.me, c.policy, c.consent),
                    idpIdentity.Some? && spServer.me in idpIdentity.value, c.consentGiven)
    ensures SignsOn(sp, spServer, idpIdentity, idpSession, me, via, c, after)
  {
    SignOnIsAccepted(sp, spServer, idpIdentity, idpSession, me, via, c, 0);
    var sp1 := InitAuthnRequest(sp, spServer, Some(me), None, via, c.requestId).0;
    var idp := Received(idpIdentity, idpSession, me, Under(sp1.request.value, c.policy, c.consent), 0);
    var idp' := Answered(idp, me, c).0;
    AnswerIndex(idp, me, c);
    AnswerOf(idp, me, c);
    NameIsGiven(idp, me, c);
    AuthnIsAccepted(sp1, spServer, idp'.response.value, 0);
    var sp2 := ProcessAuthnResponse(sp1, spServer, true, idp'.response.value, 0, 0).0;
    var a := idp'.response.value.assertion.value;
    NamedIsAccepted(sp2, a);
    after := SignedOn(AcceptSso(sp2).0, idp', NameGiven(idp, me, spServer.me, c).value);
  }

  lemma NamedIsAccepted(sp: Login, a: Assertion)
    requires sp.response.Some? && sp.response.value.assertion == Some(a) && sp.remote.Some?
    requires NameIdOf(a.authn).Some?
    ensures Acceptable(sp) && AcceptSso(sp).1 == 0
  {
  }

  // A side can ask the other to log out, and would recognise the other's request.
  ghost predicate CanLogOut(session: Option<Session>, identity: Option<Identity>, other: string, name: NameId) {
    && session.Some? && other in session.value.assertions && OnlyEntry(session, other, name)
    && (name.format == Federated ==> Federates(identity, other, name))
  }

  /** A sign-on with a service provider that supports logout leaves both sides able to log out, and
      otherwise neither side has an entry to ask by. */
  lemma SignOnAllowsLogout(sp: Login, spServer: Server, idpIdentity: Option<Identity>, idpSession: Option<Session>,
                           me: string, via: HttpMethod, c: Choices, after: SignedOn)
    requires SignsOn(sp, spServer, idpIdentity, idpSession, me, via, c, after)
    requires NoEntry(sp.session, me) && NoEntry(idpSession, spServer.me)
    ensures if c.logout then
              && CanLogOut(after.idp.session, after.idp.identity, spServer.me, after.name)
              && CanLogOut(after.sp.session, after.sp.identity, me, after.name)
            else
              && after.idp.session.Some? && spServer.me !in after.idp.session.value.nids
              && after.sp.session.Some? && me !in after.sp.session.value.nids
  {
    var sp1 := InitAuthnRequest(sp, spServer, Some(me), None, via, c.requestId).0;
    var idp := Received(idpIdentity, idpSession, me, Under(sp1.request.value, c.policy, c.consent), 0);
    IdpSide(idp, me, c);
    AnswerOf(idp, me, c);
    AnswerIndex(idp, me, c);
    var response := after.idp.response.value;
    var sp2 := ProcessAuthnResponse(sp1, spServer, true, response, 0, 0).0;
    AuthnAcceptedExactly(sp1, spServer, true, response, 0, 0);
    AuthnIsAccepted(sp1, spServer, response, 0);
    SpSide(sp2, me, response.assertion.value);
  }

  // The statement of an answer: its session index is there for logout.
  lemma AnswerIndex(idp: Login, me: string, c: Choices)
    requires Requested(idp) && idp.signatureStatus == 0 && idp.response.value.assertion.None?
    requires Answered(idp, me, c).1 == 0
    ensures var idp' := Answered(idp, me, c).0;
            && idp'.response.Some? && idp'.response.value.assertion.Some?
            && idp'.response.value.providerID == idp.response.value.providerID
            && var a := idp'.response.value.assertion.value;
               && a.authn.Some? && a.attribute.None? && NameIdOf(a.authn) == AssertedNameId(a)
               && (a.authn.value.sessionIndex.Some? <==> c.logout)
  {
    GrantedExactly(idp, me, c.authenticated, c.consentGiven, c.freshId);
    BuiltAnswer(ValidateRequest(idp, me, c.authenticated, c.consentGiven, c.freshId).0, me, c);
  }

  // A logout object on what a login has left.
  ghost predicate Continues(s: Logout.Logout, login: Login) {
    s.session == login.session && s.identity == login.identity
  }

  /** After such a sign-on, the identity provider's logout request is accepted by the service
      provider, and its answer logs the service provider out: neither session holds the other. */
  lemma IdpLogsOut(sp: Login, spServer: Server, idpServer: Server, idpIdentity: Option<Identity>,
                   idpSession: Option<Session>, via: HttpMethod, c: Choices, after: SignedOn,
                   asker: Logout.Logout, receiver: Logout.Logout, outVia: HttpMethod, md: Metadata, id: string,
                   format: MessageFormat)
    requires SignsOn(sp, spServer, idpIdentity, idpSession, idpServer.me, via, c, after) && c.logout
    requires NoEntry(sp.session, idpServer.me) && NoEntry(idpSession, spServer.me)
    requires Continues(asker, after.idp) && Continues(receiver, after.sp)
    requires GetProvider(idpServer, Some(spServer.me)).Some? && idpServer.providers[spServer.me].role == Sp
    requires GetProvider(spServer, Some(idpServer.me)).Some? && spServer.providers[idpServer.me].role != Sp
    requires (outVia == AnyMethod || md.accepts) && format != OtherFormat
    ensures var a := Logout.InitRequest(asker, idpServer, Some(spServer.me), outVia, md, [], id).0;
            && a.request.Some? && a.request.value.nameId == Some(after.name)
            && var (b, rc1) := Out.Handle(receiver, spServer, a.request.value, format, 0);
               && rc1 == 0 && b.response.Some?
               && var (f, rc2) := Logout.ProcessResponse(a, idpServer,
                                    Logout.ResponseMsg(format, b.response.value, DS_SIGNATURE_NOT_FOUND), 0);
                  && rc2 == 0
                  && b.session.Some? && idpServer.me !in b.session.value.assertions
                  && f.session.Some? && spServer.me !in f.session.value.assertions
  {
    SignOnAllowsLogout(sp, spServer, idpIdentity, idpSession, idpServer.me, via, c, after);
    Out.RequestBuilt(asker, idpServer, spServer.me, outVia, md, [], id);
    Out.AnswerLogsOut(asker, idpServer, receiver, spServer, outVia, md, id, format, 0);
  }

  /** After such a sign-on, the service provider's logout request by redirect is accepted by the
      identity provider, whoever else is signed on. */
  lemma SpLogsOut(sp: Login, spServer: Server, idpServer: Server, idpIdentity: Option<Identity>,
                  idpSession: Option<Session>, via: HttpMethod, c: Choices, after: SignedOn,
                  asker: Logout.Logout, receiver: Logout.Logout, outVia: HttpMethod, md: Metadata, id: string)
    requires SignsOn(sp, spServer, idpIdentity, idpSession, idpServer.me, via, c, after) && c.logout
    requires NoEntry(sp.session, idpServer.me) && NoEntry(idpSession, spServer.me)
    requires Continues(asker, after.sp) && Continues(receiver, after.idp)
    requires GetProvider(idpServer, Some(spServer.me)).Some? && GetProvider(spServer, Some(idpServer.me)).Some?
    requires outVia == AnyMethod || md.accepts
    ensures var a := Logout.InitRequest(asker, spServer, Some(idpServer.me), outVia, md, [], id).0;
            && a.request.Some? && a.request.value.nameId == Some(after.name)
            && var (b, rc) := Out.Handle(receiver, idpServer, a.request.value, QueryFormat, 0);
               rc == 0 && b.session.Some? && spServer.me !in b.session.value.assertions
  {
    SignOnAllowsLogout(sp, spServer, idpIdentity, idpSession, idpServer.me, via, c, after);
    Out.RequestBuilt(asker, spServer, idpServer.me, outVia, md, [], id);
    Out.RequestIsAccepted(asker, spServer, receiver, idpServer, outVia, md, id, QueryFormat);
    var a := Logout.InitRequest(asker, spServer, Some(idpServer.me), outVia, md, [], id).0;
    Out.HandledAnswer(receiver, idpServer, a.request.value, QueryFormat, 0);
  }
}
