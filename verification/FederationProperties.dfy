/** A principal federated between a service provider and an identity provider: what single
    sign-on and federation termination keep between the two sides. */
module FederationProperties {
  import opened Wrappers
  import opened IdFf
  import Login = LoginModel
  import Defed = DefederationModel

  /* ----- the two sides ----- */

  // What one side stores for the principal.
  datatype Party = Party(identity: Option<Identity>, session: Option<Session>)

  // The two sides under their provider identifiers, and every identifier issued so far.
  datatype World = World(spServer: Server, idpServer: Server, sp: Party, idp: Party, issued: set<string>)

  // The side knows the other, and not as a member of an affiliation.
  ghost predicate Knows(server: Server, other: string) {
    GetProvider(server, Some(other)).Some? && GetProvider(server, Some(other)).value.affiliation.None?
  }

  ghost predicate Acquainted(w: World) {
    Knows(w.spServer, w.idpServer.me) && Knows(w.idpServer, w.spServer.me)
  }

  function Fed(p: Party, other: string): Option<Federation> {
    if p.identity.Some? && other in p.identity.value then Some(p.identity.value[other]) else None
  }

  function SpFed(w: World): Option<Federation> {
    Fed(w.sp, w.idpServer.me)
  }

  function IdpFed(w: World): Option<Federation> {
    Fed(w.idp, w.spServer.me)
  }

  // The name identifier of the assertion that a side holds about the other.
  function Named(p: Party, other: string): Option<NameId> {
    if p.session.Some? && other in p.session.value.assertions
    then NameIdOf(p.session.value.assertions[other].authn) else None
  }

  /* ----- exchanges ----- */

  datatype Exchange =
    // A signed authentication request and its answer, which may be lost on the way back.
    | SignOn(policy: Option<Login.Policy>, consent: Option<Login.Consent>, authenticated: bool, consentGiven: bool,
             freshId: string, onceId: string, assertionId: string, logout: bool, lost: bool)
    // A termination notice of either side, delivered to the other.
    | SpTerminates(via: HttpMethod, md: Metadata, msg: MessageFormat, signature: int, returnUrl: Option<string>)
    | IdpTerminates(via: HttpMethod, md: Metadata, msg: MessageFormat, signature: int, returnUrl: Option<string>)
    // The session of one side ends.
    | SpSessionEnds
    | IdpSessionEnds

  // The identity provider's answer: its login object after validation and, if that succeeds,
  // with the assertion.
  function Answer(w: World, e: Exchange): (Login.Login, int)
    requires e.SignOn?
  {
    var request := Login.AuthnRequest(Some(e.assertionId), w.spServer.me, e.policy, e.consent);
    var start := Login.Login(w.idp.identity, w.idp.session, Some(w.spServer.me), Some(request),
                             Some(Login.Response(None, Some(w.idpServer.me), None, None, None)), None, None, 0, None,
                               None);
    var (s, rc) := Login.ValidateRequest(start, w.idpServer.me, e.authenticated, e.consentGiven, e.freshId);
    if rc != 0 || s.policy.None? then (s, rc)
    else Login.BuildAssertion(s, w.idpServer.me, e.onceId, e.assertionId, e.logout)
  }

  // The service provider's login object when the answer has arrived.
  function Arrived(w: World, answer: Login.Login): Login.Login {
    Login.Login(w.sp.identity, w.sp.session, Some(w.idpServer.me), None, answer.response, None, None, 0, None, None)
  }

  function DoSignOn(w: World, e: Exchange): World
    requires e.SignOn?
  {
    var (answer, rc) := Answer(w, e);
    var w1 := w.(idp := Party(answer.identity, answer.session), issued := w.issued + {e.freshId, e.onceId});
    if rc != 0 || e.lost || !Login.Acceptable(Arrived(w, answer)) then w1
    else
      var accepted := Login.AcceptSso(Arrived(w, answer)).0;
      w1.(sp := Party(accepted.identity, accepted.session))
  }

  function Start(p: Party): Defed.Defederation {
    Defed.Defederation(p.identity, p.session, None, None, None, None, 0, NoMethod, None)
  }

  // One side sends a notice about the other: the sender, the notice and the result.
  function Notify(from: Party, server: Server, other: string, via: HttpMethod, md: Metadata): (Defed.Defederation, int)
  {
    Defed.InitNotification(Start(from), server, Some(other), None, via, md)
  }

  // The other side processes a delivered notice and validates it.
  function Deliver(to: Party, server: Server, n: Defed.Notification, format: MessageFormat, signature: int,
                   returnUrl: Option<string>): (Defed.Defederation, int)
  {
    var (s, _) := Defed.ProcessNotification(Start(to), server, Defed.NotificationMsg(format, true, n, signature));
    Defed.ValidateNotification(s, server, returnUrl)
  }

  function Both(sender: Defed.Defederation): Party {
    Party(sender.identity, sender.session)
  }

  // The results of a termination: at the sender, and at the receiver if the notice was sent.
  function Terminate(from: Party, fromServer: Server, to: Party, toServer: Server, e: Exchange)
    : (Party, int, Party, int)
    requires e.SpTerminates? || e.IdpTerminates?
  {
    var (sender, rc) := Notify(from, fromServer, toServer.me, e.via, e.md);
    if rc != 0 || sender.request.None? then (Both(sender), rc, to, rc)
    else
      var (receiver, rc2) := Deliver(to, toServer, sender.request.value, e.msg, e.signature, e.returnUrl);
      (Both(sender), 0, Both(receiver), rc2)
  }

  function EndSession(p: Party): Party {
    p.(session := None)
  }

  function Do(w: World, e: Exchange): World {
    match e
    case SignOn(_, _, _, _, _, _, _, _, _) => DoSignOn(w, e)
    case SpTerminates(_, _, _, _, _) =>
      var (sp, _, idp, _) := Terminate(w.sp, w.spServer, w.idp, w.idpServer, e);
      w.(sp := sp, idp := idp)
    case IdpTerminates(_, _, _, _, _) =>
      var (idp, _, sp, _) := Terminate(w.idp, w.idpServer, w.sp, w.spServer, e);
      w.(sp := sp, idp := idp)
    case SpSessionEnds => w.(sp := EndSession(w.sp))
    case IdpSessionEnds => w.(idp := EndSession(w.idp))
  }

  // New identifiers are new, and a notice passes the metadata lookups on its way.
  predicate Wellformed(w: World, e: Exchange) {
    match e
    case SignOn(_, _, _, _, freshId, onceId, _, _, _) =>
      freshId !in w.issued && onceId !in w.issued && freshId != onceId
    case SpTerminates(via, md, _, _, url) => (via == AnyMethod || md.accepts) && url.Some?
    case IdpTerminates(via, md, _, _, url) => (via == AnyMethod || md.accepts) && url.Some?
    case _ => true
  }

  /* ----- the invariant ----- */

  predicate Mirrors(sp: Federation, idp: Federation) {
    sp.remote == idp.local && sp.local == idp.remote
  }

  // If the service provider holds a federation, the identity provider holds its mirror.
  predicate Mirrored(w: World) {
    SpFed(w).Some? ==> IdpFed(w).Some? && Mirrors(SpFed(w).value, IdpFed(w).value)
  }

  predicate IdIssued(n: Option<NameId>, issued: set<string>) {
    n.Some? ==> n.value.content in issued && n.value.format != OneTime
  }

  // The identifiers of a federation have been issued, and none is one-time.
  predicate FedIssued(f: Federation, issued: set<string>) {
    IdIssued(f.local, issued) && IdIssued(f.remote, issued)
  }

  // A side that holds a federation and an assertion: the assertion names the principal by an
  // identifier of the federation, or by a one-time identifier that is none of them.
  predicate NamedOk(f: Option<Federation>, n: Option<NameId>) {
    f.Some? && n.Some? ==>
      if n.value.format == OneTime then !Verifies(f.value, n.value) else n == f.value.local || n == f.value.remote
  }

  ghost predicate Inv(w: World) {
    && Acquainted(w)
    && Mirrored(w)
    && (IdpFed(w).Some? ==> IdpFed(w).value.local.Some? && FedIssued(IdpFed(w).value, w.issued))
    && NamedOk(SpFed(w), Named(w.sp, w.idpServer.me))
    && NamedOk(IdpFed(w), Named(w.idp, w.spServer.me))
  }

  /** Any identifier taken from one side verifies on the other. */
  lemma MirrorsVerifyAlike(sp: Federation, idp: Federation, n: NameId)
    requires Mirrors(sp, idp)
    ensures Verifies(sp, n) <==> Verifies(idp, n)
  {
  }

  /* ----- termination ----- */

  // The identifier that a notice about the other side would carry.
  function Sends(p: Party, server: Server, other: string): Option<NameId> {
    Defed.NameIdentifierFor(Start(p), server, other)
  }

  // The sender's session does not name the principal by a one-time identifier.
  predicate MayTerminate(p: Party, other: string) {
    Named(p, other).Some? ==> Named(p, other).value.format != OneTime
  }

  // What a side looks like when it has forgotten the other.
  function Forgotten(p: Party, other: string): Party
    requires p.identity.Some?
  {
    Party(Some(p.identity.value - {other}),
          if p.session.None? then None else Some(RemoveAssertion(p.session.value, other)))
  }

  lemma NotifyResult(from: Party, server: Server, other: string, via: HttpMethod, md: Metadata)
    requires GetProvider(server, Some(other)).Some? && (via == AnyMethod || md.accepts)
    ensures var (s, rc) := Notify(from, server, other, via, md);
            if Fed(from, other).None? || Sends(from, server, other).None? then
              rc != 0 && Both(s) == from
            else
              && rc == 0 && Both(s) == Forgotten(from, other)
              && s.request.Some? && s.request.value.providerID == Some(server.me)
              && s.request.value.nameId == Sends(from, server, other)
  {
  }

  lemma DeliverResult(to: Party, server: Server, n: Defed.Notification, format: MessageFormat, signature: int,
                      returnUrl: Option<string>)
    requires n.providerID.Some? && n.nameId.Some? && returnUrl.Some?
    requires GetProvider(server, n.providerID).Some?
    ensures var (s, rc) := Deliver(to, server, n, format, signature, returnUrl);
            var f := Fed(to, n.providerID.value);
            if f.Some? && Verifies(f.value, n.nameId.value) then rc == 0 && Both(s) == Forgotten(to, n.providerID.value)
            else rc != 0 && Both(s) == to
  {
  }

  // A termination as a whole: the sender forgets the receiver when it has something to send,
  // and the receiver forgets the sender when it recognises what was sent.
  lemma TerminateResult(from: Party, fromServer: Server, to: Party, toServer: Server, e: Exchange)
    requires e.SpTerminates? || e.IdpTerminates?
    requires (e.via == AnyMethod || e.md.accepts) && e.returnUrl.Some?
    requires GetProvider(fromServer, Some(toServer.me)).Some? && GetProvider(toServer, Some(fromServer.me)).Some?
    ensures var (from', rc, to', rc2) := Terminate(from, fromServer, to, toServer, e);
            var sent := Sends(from, fromServer, toServer.me);
            var known := Fed(to, fromServer.me);
            if Fed(from, toServer.me).None? || sent.None? then
              rc != 0 && rc2 != 0 && from' == from && to' == to
            else
              && rc == 0 && from' == Forgotten(from, toServer.me)
              && (if known.Some? && Verifies(known.value, sent.value)
                  then rc2 == 0 && to' == Forgotten(to, fromServer.me)
                  else rc2 != 0 && to' == to)
  {
    NotifyResult(from, fromServer, toServer.me, e.via, e.md);
    var (sender, rc) := Notify(from, fromServer, toServer.me, e.via, e.md);
    if rc == 0 {
      DeliverResult(to, toServer, sender.request.value, e.msg, e.signature, e.returnUrl);
    }
  }

  // The identifier sent about a federation is one of its own, except a one-time one.
  lemma SentIsRecognised(p: Party, server: Server, other: string)
    requires Knows(server, other)
    requires Fed(p, other).Some? && NamedOk(Fed(p, other), Named(p, other))
    requires Fed(p, other).value.local.Some? || Fed(p, other).value.remote.Some?
    ensures Sends(p, server, other).Some?
    ensures Verifies(Fed(p, other).value, Sends(p, server, other).value) <==> MayTerminate(p, other)
  {
  }

  /** A termination started by the service provider succeeds at the identity provider, and
      leaves neither side federated, if and only if the service provider's session does not
      name the principal by a one-time identifier. Otherwise only the service provider's side
      is gone. */
  lemma SpTerminationExactly(w: World, e: Exchange)
    requires Inv(w) && Wellformed(w, e) && e.SpTerminates? && SpFed(w).Some?
    ensures var (_, rc, _, rc2) := Terminate(w.sp, w.spServer, w.idp, w.idpServer, e);
            && rc == 0
            && (rc2 == 0 <==> MayTerminate(w.sp, w.idpServer.me))
    ensures SpFed(Do(w, e)).None?
    ensures IdpFed(Do(w, e)).None? <==> MayTerminate(w.sp, w.idpServer.me)
  {
    TerminateResult(w.sp, w.spServer, w.idp, w.idpServer, e);
    SentIsRecognised(w.sp, w.spServer, w.idpServer.me);
    MirrorsVerifyAlike(SpFed(w).value, IdpFed(w).value, Sends(w.sp, w.spServer, w.idpServer.me).value);
  }

  /** A termination started by the identity provider keeps the mirror if and only if the service
      provider is not federated or the identity provider's session does not name the principal
      by a one-time identifier. */
  lemma IdpTerminationExactly(w: World, e: Exchange)
    requires Inv(w) && Wellformed(w, e) && e.IdpTerminates? && IdpFed(w).Some?
    ensures IdpFed(Do(w, e)).None?
    ensures Mirrored(Do(w, e)) <==> SpFed(w).None? || MayTerminate(w.idp, w.spServer.me)
    ensures Mirrored(Do(w, e)) <==> SpFed(Do(w, e)).None?
  {
    TerminateResult(w.idp, w.idpServer, w.sp, w.spServer, e);
    SentIsRecognised(w.idp, w.idpServer, w.spServer.me);
    if SpFed(w).Some? {
      MirrorsVerifyAlike(SpFed(w).value, IdpFed(w).value, Sends(w.idp, w.idpServer, w.spServer.me).value);
    }
  }

  /* ----- every run ----- */

  // The exchange does not start a termination at the identity provider that names a federated
  // principal by a one-time identifier.
  predicate Safe(w: World, e: Exchange) {
    e.IdpTerminates? && SpFed(w).Some? ==> MayTerminate(w.idp, w.spServer.me)
  }

  lemma TerminationKeeps(w: World, e: Exchange)
    requires Inv(w) && Wellformed(w, e) && Safe(w, e) && (e.SpTerminates? || e.IdpTerminates?)
    ensures Inv(Do(w, e))
  {
    if e.SpTerminates? {
      TerminateResult(w.sp, w.spServer, w.idp, w.idpServer, e);
      if SpFed(w).Some? {
        SpTerminationExactly(w, e);
      }
    } else {
      TerminateResult(w.idp, w.idpServer, w.sp, w.spServer, e);
      if IdpFed(w).Some? {
        IdpTerminationExactly(w, e);
      }
    }
  }

  // What validating the request does to the identity provider's side.
  lemma ValidateResult(s: Login.Login, me: string, authenticated: bool, consentGiven: bool, freshId: string)
    requires Login.Requested(s) && s.signatureStatus == 0
    ensures var (s', rc) := Login.ValidateRequest(s, me, authenticated, consentGiven, freshId);
            var before, after := Login.FederationWith(s, s.remote.value), Login.FederationWith(s', s.remote.value);
            && s'.session == s.session && s'.remote == s.remote && s'.request == s.request && s'.response.Some?
            && s'.response.value.assertion == s.response.value.assertion
            && (before.Some? ==> after == before)
            && (before.None? && after.Some? ==> rc == 0 && after.value == Login.NewFederation(me, freshId))
            && (rc == 0 ==> s'.policy.Some? && s'.identity.Some?)
  {
  }

  lemma BuildResult(s: Login.Login, me: string, onceId: string, assertionId: string, logout: bool)
    requires Login.Requested(s) && s.policy.Some? && s.identity.Some? && s.response.value.assertion.None?
    ensures var (s', rc) := Login.BuildAssertion(s, me, onceId, assertionId, logout);
            var f := Login.FederationWith(s, s.remote.value);
            && rc == 0 && s'.identity == s.identity
            && s'.response.Some? && s'.response.value.assertion.Some?
            && s'.response.value.assertion.value.authn.Some?
            && s'.response.value.assertion.value.authn.value.subject.Some?
            && Named(Party(s'.identity, s'.session), s.remote.value)
               == NameIdOf(s'.response.value.assertion.value.authn)
            && var subject := s'.response.value.assertion.value.authn.value.subject.value;
               || subject == Subject(Some(NameId(onceId, OneTime, me)), None)
               || (f.Some? && subject == Login.FederatedSubject(f.value))
  {
  }

  // The identity provider's side after a sign-on.
  lemma AnswerResult(w: World, e: Exchange)
    requires e.SignOn?
    ensures var (s, rc) := Answer(w, e);
            var idp := Party(s.identity, s.session);
            var f := Fed(idp, w.spServer.me);
            && (IdpFed(w).Some? ==> f == IdpFed(w))
            && (IdpFed(w).None? && f.Some? ==> f.value == Login.NewFederation(w.idpServer.me, e.freshId))
            && (if rc != 0 then s.session == w.idp.session && f == IdpFed(w)
                else
                  && s.response.Some? && s.response.value.assertion.Some?
                  && s.response.value.assertion.value.authn.Some?
                  && s.response.value.assertion.value.authn.value.subject.Some?
                  && Named(idp, w.spServer.me) == NameIdOf(s.response.value.assertion.value.authn)
                  && var subject := s.response.value.assertion.value.authn.value.subject.value;
                     || subject == Subject(Some(NameId(e.onceId, OneTime, w.idpServer.me)), None)
                     || (f.Some? && subject == Login.FederatedSubject(f.value)))
  {
    var request := Login.AuthnRequest(Some(e.assertionId), w.spServer.me, e.policy, e.consent);
    var start := Login.Login(w.idp.identity, w.idp.session, Some(w.spServer.me), Some(request),
                             Some(Login.Response(None, Some(w.idpServer.me), None, None, None)), None, None, 0, None,
                               None);
    ValidateResult(start, w.idpServer.me, e.authenticated, e.consentGiven, e.freshId);
    var (s, rc) := Login.ValidateRequest(start, w.idpServer.me, e.authenticated, e.consentGiven, e.freshId);
    if rc == 0 {
      BuildResult(s, w.idpServer.me, e.onceId, e.assertionId, e.logout);
    }
  }

  // The service provider's side when it accepts an answer.
  lemma AcceptResult(w: World, s: Login.Login)
    requires s.response.Some? && s.response.value.assertion.Some?
    requires s.response.value.assertion.value.authn.Some?
    requires s.response.value.assertion.value.authn.value.subject.Some?
    ensures Login.Acceptable(Arrived(w, s))
    ensures var accepted := Login.AcceptSso(Arrived(w, s)).0;
            var sp := Party(accepted.identity, accepted.session);
            var subject := s.response.value.assertion.value.authn.value.subject.value;
            && Named(sp, w.idpServer.me) == subject.nameId
            && Fed(sp, w.idpServer.me) ==
               (if Login.AcceptedFederation(subject).Some? then Login.AcceptedFederation(subject) else SpFed(w))
  {
  }

  lemma SignOnKeeps(w: World, e: Exchange)
    requires Inv(w) && Wellformed(w, e) && e.SignOn?
    ensures Inv(Do(w, e))
  {
    AnswerResult(w, e);
    var (s, rc) := Answer(w, e);
    if rc == 0 {
      AcceptResult(w, s);
    }
  }

  /** One exchange keeps the invariant. */
  lemma ExchangeKeeps(w: World, e: Exchange)
    requires Inv(w) && Wellformed(w, e) && Safe(w, e)
    ensures Inv(Do(w, e))
  {
    match e
    case SignOn(_, _, _, _, _, _, _, _, _) => SignOnKeeps(w, e);
    case SpTerminates(_, _, _, _, _) => TerminationKeeps(w, e);
    case IdpTerminates(_, _, _, _, _) => TerminationKeeps(w, e);
    case SpSessionEnds =>
    case IdpSessionEnds =>
  }

  function Run(w: World, es: seq<Exchange>): World
    decreases |es|
  {
    if es == [] then w else Do(Run(w, es[..|es| - 1]), es[|es| - 1])
  }

  // The world after k exchanges of a run.
  function After(w: World, es: seq<Exchange>, k: nat): World
    requires k <= |es|
  {
    Run(w, es[..k])
  }

  lemma AfterNext(w: World, es: seq<Exchange>, k: nat)
    requires k < |es|
    ensures After(w, es, k + 1) == Do(After(w, es, k), es[k])
  {
    assert es[..k + 1][..k] == es[..k];
  }

  // Every exchange of a run is well formed where it happens.
  predicate RunWellformed(w: World, es: seq<Exchange>) {
    forall k :: 0 <= k < |es| ==> Wellformed(After(w, es, k), es[k])
  }

  predicate SafeBefore(w: World, es: seq<Exchange>, n: nat)
    requires n <= |es|
  {
    forall k :: 0 <= k < n ==> Safe(After(w, es, k), es[k])
  }

  /** Over every run of exchanges, with answers lost at will: as long as every exchange was safe,
      the identity provider mirrors whatever federation the service provider holds. */
  lemma {:induction false} RunKeeps(w: World, es: seq<Exchange>, n: nat)
    requires Inv(w) && RunWellformed(w, es) && n <= |es| && SafeBefore(w, es, n)
    ensures Inv(After(w, es, n)) && Mirrored(After(w, es, n))
  {
    if n == 0 {
      assert es[..0] == [];
    } else {
      RunKeeps(w, es, n - 1);
      AfterNext(w, es, n - 1);
      ExchangeKeeps(After(w, es, n - 1), es[n - 1]);
    }
  }

  predicate AlwaysMirrored(w: World, es: seq<Exchange>) {
    forall k :: 0 <= k <= |es| ==> Mirrored(After(w, es, k))
  }

  // An exchange that is not safe breaks the mirror.
  lemma UnsafeBreaks(w: World, e: Exchange)
    requires Inv(w) && Wellformed(w, e) && !Safe(w, e)
    ensures !Mirrored(Do(w, e))
  {
    IdpTerminationExactly(w, e);
  }

  lemma MirroredWasSafe(w: World, e: Exchange)
    requires Inv(w) && Wellformed(w, e) && Mirrored(Do(w, e))
    ensures Safe(w, e)
  {
    if !Safe(w, e) {
      UnsafeBreaks(w, e);
    }
  }

  lemma {:induction false} MirroredIsSafe(w: World, es: seq<Exchange>, n: nat)
    requires Inv(w) && RunWellformed(w, es) && AlwaysMirrored(w, es) && n <= |es|
    ensures SafeBefore(w, es, n)
  {
    if n > 0 {
      var m := n - 1;
      MirroredIsSafe(w, es, m);
      RunKeeps(w, es, m);
      AfterNext(w, es, m);
      assert Mirrored(After(w, es, m + 1));
      MirroredWasSafe(After(w, es, m), es[m]);
    }
  }

  /** The exact condition over runs: the two sides are mirrored after every exchange if and only if
      every exchange is safe where it happens. */
  lemma RunExactly(w: World, es: seq<Exchange>)
    requires Inv(w) && RunWellformed(w, es)
    ensures AlwaysMirrored(w, es) <==> SafeBefore(w, es, |es|)
  {
    if AlwaysMirrored(w, es) {
      MirroredIsSafe(w, es, |es|);
    }
    if SafeBefore(w, es, |es|) {
      forall k | 0 <= k <= |es|
        ensures Mirrored(After(w, es, k))
      {
        RunKeeps(w, es, k);
      }
    }
  }

  /* ----- what a delivered sign-on does ----- */

  // What validation decides for the two kinds of sign-on below.
  lemma ValidateDecides(s: Login.Login, me: string, consentGiven: bool, freshId: string)
    requires Login.Requested(s) && s.signatureStatus == 0
    ensures var (s', rc) := Login.ValidateRequest(s, me, true, consentGiven, freshId);
            && (s.request.value.policy == Some(Login.OneTimePolicy) ==>
                 rc == 0 && s'.policy == Some(Login.OneTimePolicy))
            && (s.request.value.policy == Some(Login.FederatedPolicy) && consentGiven ==>
                  && rc == 0 && s'.policy == Some(Login.FederatedPolicy)
                  && Login.FederationWith(s', s.remote.value).Some?)
  {
  }

  lemma BuildNames(s: Login.Login, me: string, onceId: string, assertionId: string, logout: bool)
    requires Login.Requested(s) && s.policy.Some? && s.identity.Some? && s.response.value.assertion.None?
    ensures var s' := Login.BuildAssertion(s, me, onceId, assertionId, logout).0;
            var f := Login.FederationWith(s, s.remote.value);
            s'.response.value.assertion.value.authn.value.subject.value ==
              if s.policy == Some(Login.OneTimePolicy) || f.None? then Subject(Some(NameId(onceId, OneTime, me)), None)
              else Login.FederatedSubject(f.value)
  {
  }

  lemma AnswerNames(w: World, e: Exchange)
    requires e.SignOn? && e.authenticated && e.policy.Some?
    requires e.policy.value == Login.OneTimePolicy || (e.policy.value == Login.FederatedPolicy && e.consentGiven)
    ensures var (s, rc) := Answer(w, e);
            && rc == 0 && s.response.Some? && s.response.value.assertion.Some?
            && s.response.value.assertion.value.authn.Some?
               && s.response.value.assertion.value.authn.value.subject.Some?
            && var subject := s.response.value.assertion.value.authn.value.subject.value;
               if e.policy.value == Login.OneTimePolicy then
                 subject == Subject(Some(NameId(e.onceId, OneTime, w.idpServer.me)), None)
               else
                 var f := Fed(Party(s.identity, s.session), w.spServer.me);
                 f.Some? && subject == Login.FederatedSubject(f.value)
  {
    var request := Login.AuthnRequest(Some(e.assertionId), w.spServer.me, e.policy, e.consent);
    var start := Login.Login(w.idp.identity, w.idp.session, Some(w.spServer.me), Some(request),
                             Some(Login.Response(None, Some(w.idpServer.me), None, None, None)), None, None, 0, None,
                               None);
    ValidateDecides(start, w.idpServer.me, e.consentGiven, e.freshId);
    ValidateResult(start, w.idpServer.me, e.authenticated, e.consentGiven, e.freshId);
    var s := Login.ValidateRequest(start, w.idpServer.me, e.authenticated, e.consentGiven, e.freshId).0;
    BuildResult(s, w.idpServer.me, e.onceId, e.assertionId, e.logout);
    BuildNames(s, w.idpServer.me, e.onceId, e.assertionId, e.logout);
  }

  /** A delivered sign-on with the federated policy and consent leaves both sides federated, when
      the service provider has registered no identifier of another format. */
  lemma SignOnFederates(w: World, e: Exchange)
    requires Inv(w) && Wellformed(w, e) && e.SignOn? && !e.lost && e.authenticated && e.consentGiven
    requires e.policy == Some(Login.FederatedPolicy)
    requires IdpFed(w).Some? ==> IdpFed(w).value.local.value.format == Federated
    requires IdpFed(w).Some? && IdpFed(w).value.remote.Some? ==> IdpFed(w).value.remote.value.format == Federated
    ensures SpFed(Do(w, e)).Some? && IdpFed(Do(w, e)).Some?
    ensures Mirrors(SpFed(Do(w, e)).value, IdpFed(Do(w, e)).value)
  {
    AnswerNames(w, e);
    AnswerResult(w, e);
    AcceptResult(w, Answer(w, e).0);
    SignOnKeeps(w, e);
  }

  /** A delivered one-time sign-on changes no federation, and leaves both sessions with a
      one-time identifier. */
  lemma OneTimeSignOn(w: World, e: Exchange)
    requires Inv(w) && Wellformed(w, e) && e.SignOn? && !e.lost && e.authenticated
    requires e.policy == Some(Login.OneTimePolicy)
    ensures SpFed(Do(w, e)) == SpFed(w)
    ensures IdpFed(w).Some? ==> IdpFed(Do(w, e)) == IdpFed(w)
    ensures !MayTerminate(Do(w, e).sp, w.idpServer.me) && !MayTerminate(Do(w, e).idp, w.spServer.me)
  {
    AnswerNames(w, e);
    AnswerResult(w, e);
    AcceptResult(w, Answer(w, e).0);
  }

  /* ----- the mirror can break ----- */

  /** Safety is needed, and not for one case only: from every state in which the principal is
      federated, a one-time sign-on and then a termination by the identity provider leave the
      service provider federated alone. */
  lemma OneTimeThenTerminationBreaks(w: World, signOn: Exchange, notice: Exchange)
    requires Inv(w) && SpFed(w).Some?
    requires Wellformed(w, signOn) && signOn.SignOn? && !signOn.lost && signOn.authenticated
    requires signOn.policy == Some(Login.OneTimePolicy)
    requires notice.IdpTerminates? && Wellformed(Do(w, signOn), notice)
    ensures !Safe(Do(w, signOn), notice)
    ensures var w' := Do(Do(w, signOn), notice); !Mirrored(w') && SpFed(w').Some? && IdpFed(w').None?
  {
    SignOnKeeps(w, signOn);
    OneTimeSignOn(w, signOn);
    IdpTerminationExactly(Do(w, signOn), notice);
  }

  /** The same at the service provider: a one-time sign-on and then a termination that it starts
      leave the identity provider federated alone. */
  lemma OneTimeThenSpTermination(w: World, signOn: Exchange, notice: Exchange)
    requires Inv(w) && SpFed(w).Some?
    requires Wellformed(w, signOn) && signOn.SignOn? && !signOn.lost && signOn.authenticated
    requires signOn.policy == Some(Login.OneTimePolicy)
    requires notice.SpTerminates? && Wellformed(Do(w, signOn), notice)
    ensures var w' := Do(Do(w, signOn), notice); SpFed(w').None? && IdpFed(w').Some?
  {
    SignOnKeeps(w, signOn);
    OneTimeSignOn(w, signOn);
    SpTerminationExactly(Do(w, signOn), notice);
  }

  // Two providers that know each other, before anything has happened.
  function Beginning(): World {
    World(Server("sp", map["idp" := Provider(Idp, true, None)]), Server("idp", map["sp" := Provider(Sp, true, None)]),
          Party(None, None), Party(None, None), {})
  }

  function SignOnUnder(policy: Login.Policy, freshId: string, onceId: string): Exchange {
    SignOn(Some(policy), Some(Login.Obtained), true, true, freshId, onceId, "a", true, false)
  }

  // The principal federates, and then signs on once with a one-time identifier.
  function AfterSignOn(): World {
    Do(Beginning(), SignOnUnder(Login.FederatedPolicy, "f", "o"))
  }

  function OnceMore(): World {
    Do(AfterSignOn(), SignOnUnder(Login.OneTimePolicy, "ff", "oo"))
  }

  lemma NewNames()
    ensures "f" != "o" && "ff" != "oo" && "ff" !in {"f", "o"} && "oo" !in {"f", "o"}
  {
    assert "f"[0] != "o"[0] && "ff"[0] != "oo"[0];
    assert |"ff"| == |"oo"| == 2 && |"f"| == |"o"| == 1;
  }

  lemma BeginningIsOk()
    ensures Inv(Beginning()) && Wellformed(Beginning(), SignOnUnder(Login.FederatedPolicy, "f", "o"))
  {
    NewNames();
  }

  lemma AfterSignOnIsOk()
    ensures Inv(Beginning()) && Inv(AfterSignOn()) && SpFed(AfterSignOn()).Some?
    ensures Wellformed(AfterSignOn(), SignOnUnder(Login.OneTimePolicy, "ff", "oo"))
  {
    var w0, e1 := Beginning(), SignOnUnder(Login.FederatedPolicy, "f", "o");
    BeginningIsOk();
    SignOnFederates(w0, e1);
    SignOnKeeps(w0, e1);
    assert AfterSignOn().issued == {"f", "o"};
    NewNames();
  }

  /** Runs of three exchanges that end with one side federated alone: the service provider when
      the identity provider terminates, and the identity provider when the service provider
      does. */
  lemma MirrorCanBreak()
    ensures Inv(Beginning())
    ensures var w := Do(OnceMore(), IdpTerminates(Soap, Metadata(true, Soap), SoapFormat, 0, Some("u")));
            !Mirrored(w) && SpFed(w).Some? && IdpFed(w).None?
    ensures var w := Do(OnceMore(), SpTerminates(Soap, Metadata(true, Soap), SoapFormat, 0, Some("u")));
            SpFed(w).None? && IdpFed(w).Some?
  {
    AfterSignOnIsOk();
    var once := SignOnUnder(Login.OneTimePolicy, "ff", "oo");
    OneTimeThenTerminationBreaks(AfterSignOn(), once, IdpTerminates(Soap, Metadata(true, Soap), SoapFormat, 0,
      Some("u")));
    OneTimeThenSpTermination(AfterSignOn(), once, SpTerminates(Soap, Metadata(true, Soap), SoapFormat, 0, Some("u")));
  }
}
