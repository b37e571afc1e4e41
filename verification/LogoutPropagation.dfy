/** Propagating a logout: an identity provider that has accepted the logout of one provider asks
    the others in turn, whatever their metadata say and whatever they answer. */
module LogoutPropagation {
  import opened Wrappers
  import opened IdFf
  import opened LogoutModel
  import opened LogoutProperties

  /* ----- the other providers ----- */

  // How each provider is asked and what it answers.
  datatype Peers = Peers(
    via: HttpMethod, md: string -> Metadata, freshId: string -> string, reply: string -> ResponseMsg,
    redirectRc: string -> int)

  // Every answer names its sender.
  ghost predicate Honest(peers: Peers, session: Session) {
    forall p :: p in session.nids ==> peers.reply(p).response.providerID == Some(p)
  }

  predicate CanAsk(peers: Peers, p: string) {
    peers.via == AnyMethod || peers.md(p).accepts
  }

  function MethodFor(peers: Peers, p: string): HttpMethod {
    if peers.via == AnyMethod then peers.md(p).first else peers.via
  }

  // The status of an answer is looked at: its format is known and it carries no signature.
  predicate StatusCounts(msg: ResponseMsg) {
    msg.format != OtherFormat && msg.signature == DS_SIGNATURE_NOT_FOUND && msg.response.status.Some?
  }

  predicate SaysSuccess(msg: ResponseMsg) {
    StatusCounts(msg) && msg.response.status.value.code == Success
  }

  // The failures after which a provider is forgotten all the same.
  predicate FailureReleases(status: Status, role: Role, asked: HttpMethod, redirectRc: int) {
    var code := FailureCode(status);
    if code == Some(UnsupportedProfile) && role == Idp && asked == Soap then redirectRc == 0
    else code == Some(RequestDenied) || code == Some(FederationDoesNotExist)
  }

  predicate AnswerReleases(msg: ResponseMsg, role: Role, asked: HttpMethod, redirectRc: int) {
    if SaysSuccess(msg) then msg.format == SoapFormat || role == Sp
    else StatusCounts(msg) && FailureReleases(msg.response.status.value, role, asked, redirectRc)
  }

  // Asking is enough to forget the provider: it supports no redirect when that is what is
  // wanted, or it is an identity provider that is sent away by redirect.
  predicate AskingReleases(peers: Peers, p: string, role: Role) {
    if CanAsk(peers, p) then role == Idp && MethodFor(peers, p) != Soap else peers.via == Redirect
  }

  /** The provider leaves the session when it is visited. */
  predicate Leaves(peers: Peers, server: Server, p: string) {
    && GetProvider(server, Some(p)).Some?
    && var role := server.providers[p].role;
       || AskingReleases(peers, p, role)
       || (CanAsk(peers, p) && AnswerReleases(peers.reply(p), role, MethodFor(peers, p), peers.redirectRc(p)))
  }

  /** The provider is a service provider whose Success answer is processed. */
  predicate Confirms(peers: Peers, server: Server, p: string) {
    GetProvider(server, Some(p)).Some? && server.providers[p].role == Sp && CanAsk(peers, p)
      && SaysSuccess(peers.reply(p))
  }

  /* ----- one exchange ----- */

  // A request to the provider and, if it could be built, the answer.
  function Exchange(s: Logout, server: Server, peers: Peers, p: string): Logout {
    var (asked, rc) := InitRequest(s, server, Some(p), peers.via, peers.md(p), [], peers.freshId(p));
    if rc != 0 then asked else ProcessResponse(asked, server, peers.reply(p), peers.redirectRc(p)).0
  }

  function RemoveIf(session: Session, p: string, drop: bool): Session {
    if drop then RemoveAssertion(session, p) else session
  }

  predicate Known(server: Server, p: string) {
    GetProvider(server, Some(p)).Some?
  }

  // The provider that the answer names, if it is a known one. It need not be the one asked.
  function Sender(peers: Peers, server: Server, p: string): (q: Option<string>)
    ensures q.Some? ==> Known(server, q.value)
  {
    if GetProvider(server, peers.reply(p).response.providerID).Some? then peers.reply(p).response.providerID else None
  }

  // The session after a visit to the provider: one without a name identifier entry is not asked;
  // asking may remove the provider, and the answer may remove the provider that it names.
  function Visit(session: Session, server: Server, peers: Peers, p: string): Session {
    if p !in session.nids || !Known(server, p) then session
    else
      var asked := RemoveIf(session, p, AskingReleases(peers, p, server.providers[p].role));
      var q := Sender(peers, server, p);
      if !CanAsk(peers, p) || q.None? then asked
      else
        var role := server.providers[q.value].role;
        RemoveIf(asked, q.value, AnswerReleases(peers.reply(p), role, MethodFor(peers, p), peers.redirectRc(p)))
  }

  // The visit brings a service provider's Success, and leaves the session without assertions.
  predicate Closes(session: Session, server: Server, peers: Peers, p: string) {
    && p in session.nids && Known(server, p) && CanAsk(peers, p)
    && Sender(peers, server, p).Some? && server.providers[Sender(peers, server, p).value].role == Sp
    && SaysSuccess(peers.reply(p))
    && Visit(session, server, peers, p).assertions == map[]
  }

  predicate SameSaved(s: Logout, s': Logout) {
    s'.initialRemote == s.initialRemote && s'.initialRequest == s.initialRequest
      && s'.initialResponse == s.initialResponse
  }

  // The saved exchange is back in place, and no longer saved.
  predicate Restored(s: Logout, s': Logout) {
    && s'.remote == s.initialRemote && s'.request == s.initialRequest && s'.response == s.initialResponse
    && s'.initialRemote.None? && s'.initialRequest.None? && s'.initialResponse.None?
  }

  lemma AskEffect(s: Logout, server: Server, peers: Peers, p: string)
    requires s.session.Some? && SessionOk(s.session.value)
    ensures var (a, rc) := InitRequest(s, server, Some(p), peers.via, peers.md(p), [], peers.freshId(p));
            var listed := p in s.session.value.nids && Known(server, p);
            && (rc == 0 <==> listed && CanAsk(peers, p))
            && (rc == 0 ==> a.initialMethod == MethodFor(peers, p))
            && SameSaved(s, a) && a.index == s.index
            && a.session == Some(RemoveIf(s.session.value, p, listed
               && AskingReleases(peers, p, server.providers[p].role)))
  {
  }

  lemma AnswerEffect(s: Logout, server: Server, msg: ResponseMsg, rc: int, q: string)
    requires s.session.Some? && Known(server, q) && msg.response.providerID == Some(q)
    ensures var s' := ProcessResponse(s, server, msg, rc).0;
            var role := server.providers[q].role;
            && s'.session == Some(RemoveIf(s.session.value, q, AnswerReleases(msg, role, s.initialMethod, rc)))
            && s'.index == s.index
            && (if s.initialRemote.Some? && SaysSuccess(msg) && role == Sp && s'.session.value.assertions == map[]
                then Restored(s, s') else SameSaved(s, s'))
  {
    var (s1, rc1) := ReceiveResponse(s, server, msg);
    if StatusCounts(msg) {
      var provider := GetProvider(server, Some(q)).value;
      if SaysSuccess(msg) {
        SuccessEffect(s1, provider, msg.format);
      } else {
        FailureEffect(s1, provider, msg.response.status.value, rc);
      }
    }
  }

  lemma SuccessEffect(s: Logout, provider: Provider, format: MessageFormat)
    requires s.remote.Some? && s.session.Some?
    ensures var s' := LoggedOut(s, provider, format);
            && s'.session == Some(RemoveIf(s.session.value, s.remote.value, format == SoapFormat || provider.role
               == Sp))
            && s'.index == s.index
            && (if s.initialRemote.Some? && provider.role == Sp && s'.session.value.assertions == map[]
                then Restored(s, s') else SameSaved(s, s'))
  {
    if provider.role == Sp {
      CountsNone(Drop(s.session, s.remote.value));
    }
  }

  lemma CountsNone(session: Option<Session>)
    requires session.Some?
    ensures Count(session) <= 0 <==> session.value.assertions == map[]
  {
  }

  lemma FailureEffect(s: Logout, provider: Provider, status: Status, rc: int)
    requires s.remote.Some? && s.session.Some?
    ensures var s' := FailedResponse(s, provider, status, rc).0;
            var drop := FailureReleases(status, provider.role, s.initialMethod, rc);
            && s'.session == Some(RemoveIf(s.session.value, s.remote.value, drop))
            && s'.index == s.index && SameSaved(s, s')
  {
  }

  // An answer that names no known provider changes nothing that matters here.
  lemma StrangeAnswer(s: Logout, server: Server, msg: ResponseMsg, rc: int)
    requires GetProvider(server, msg.response.providerID).None?
    ensures var s' := ProcessResponse(s, server, msg, rc).0;
            s'.session == s.session && s'.index == s.index && SameSaved(s, s')
  {
  }

  /** What one exchange does, whatever the metadata and the answer, and whichever provider the
      answer names: the session is the visited one, and the saved exchange is restored if and
      only if a service provider's Success leaves the session without assertions. */
  lemma ExchangeEffect(s: Logout, server: Server, peers: Peers, p: string)
    requires s.session.Some? && SessionOk(s.session.value)
    ensures var s' := Exchange(s, server, peers, p);
            && s'.session == Some(Visit(s.session.value, server, peers, p)) && s'.index == s.index
            && (if s.initialRemote.Some? && Closes(s.session.value, server, peers, p)
                then Restored(s, s') else SameSaved(s, s'))
  {
    AskEffect(s, server, peers, p);
    var (a, rc) := InitRequest(s, server, Some(p), peers.via, peers.md(p), [], peers.freshId(p));
    if rc == 0 {
      var q := Sender(peers, server, p);
      if q.Some? {
        AnswerEffect(a, server, peers.reply(p), peers.redirectRc(p), q.value);
      } else {
        StrangeAnswer(a, server, peers.reply(p), peers.redirectRc(p));
      }
    }
  }

  lemma VisitKeepsOk(session: Session, server: Server, peers: Peers, p: string)
    requires SessionOk(session)
    ensures var v := Visit(session, server, peers, p);
            && SessionOk(v) && v.providerIDs == session.providerIDs && v.others == session.others
            && v.nids.Keys <= session.nids.Keys
  {
    RemovalKeepsOk(session, p);
    RemovalKeepsOk(RemoveAssertion(session, p), p);
    var q := Sender(peers, server, p);
    if q.Some? {
      RemovalKeepsOk(session, q.value);
      RemovalKeepsOk(RemoveAssertion(session, p), q.value);
    }
  }

  lemma RemovalKeepsOk(session: Session, p: string)
    requires SessionOk(session)
    ensures SessionOk(RemoveAssertion(session, p)) && RemoveAssertion(session, p).nids.Keys <= session.nids.Keys
  {
  }

  /* ----- the application's loop ----- */

  ghost predicate Listed(s: Logout) {
    s.session.Some? && (s.session.value.providerIDs != [] || s.session.value.nids == map[])
  }

  // While there is a next provider, exchange with it.
  ghost function Propagate(s: Logout, server: Server, peers: Peers): Logout
    requires Listed(s)
    decreases |s.session.value.providerIDs| - s.index
  {
    var (s1, next) := NextProvider(s, []);
    if next.None? then s1
    else
      ExchangeKeepsList(s1, server, peers, next.value);
      Propagate(Exchange(s1, server, peers, next.value), server, peers)
  }

  lemma ExchangeKeepsList(s: Logout, server: Server, peers: Peers, p: string)
    requires s.session.Some?
    ensures var s' := Exchange(s, server, peers, p);
            && s'.session.Some? && s'.index == s.index
            && s'.session.value.providerIDs == s.session.value.providerIDs
            && s'.session.value.nids.Keys <= s.session.value.nids.Keys
  {
    AskKeepsList(s, server, peers, p);
    var (asked, rc) := InitRequest(s, server, Some(p), peers.via, peers.md(p), [], peers.freshId(p));
    if rc == 0 {
      ResponseEffect(asked, server, peers.reply(p), peers.redirectRc(p));
    }
  }

  lemma AskKeepsList(s: Logout, server: Server, peers: Peers, p: string)
    requires s.session.Some?
    ensures var s' := InitRequest(s, server, Some(p), peers.via, peers.md(p), [], peers.freshId(p)).0;
            && s'.session.Some? && s'.index == s.index
            && s'.session.value.providerIDs == s.session.value.providerIDs
            && s'.session.value.nids.Keys <= s.session.value.nids.Keys
  {
  }

  /* ----- what the loop achieves ----- */

  function VisitAll(session: Session, server: Server, peers: Peers, ids: seq<string>): Session
    decreases |ids|
  {
    if ids == [] then session else VisitAll(Visit(session, server, peers, ids[0]), server, peers, ids[1..])
  }

  // Some visit of the list closes the session.
  predicate ClosesIn(session: Session, server: Server, peers: Peers, ids: seq<string>)
    decreases |ids|
  {
    && ids != []
    && (|| Closes(session, server, peers, ids[0])
        || ClosesIn(Visit(session, server, peers, ids[0]), server, peers, ids[1..]))
  }

  // Nobody with an entry is left to be asked.
  lemma {:induction false} NobodyToVisit(session: Session, server: Server, peers: Peers, ids: seq<string>)
    requires session.nids == map[]
    ensures VisitAll(session, server, peers, ids) == session && !ClosesIn(session, server, peers, ids)
  {
    if ids != [] {
      NobodyToVisit(session, server, peers, ids[1..]);
    }
  }

  ghost predicate Propagating(s: Logout) {
    && Listed(s) && SessionOk(s.session.value)
    && DistinctIds(s.session.value.providerIDs)
    && s.index <= |s.session.value.providerIDs|
    && s.initialRemote.Some?
  }

  ghost predicate Outcome(s: Logout, f: Logout, server: Server, peers: Peers, ids: seq<string>) {
    && s.session.Some?
    && f.session == Some(VisitAll(s.session.value, server, peers, ids))
    && (if ClosesIn(s.session.value, server, peers, ids) then Restored(s, f) else SameSaved(s, f))
  }

  lemma DoneWhenNoEntry(s: Logout, server: Server, peers: Peers)
    requires s.session.Some? && s.session.value.nids == map[]
    ensures Propagate(s, server, peers) == s.(index := s.index + 1)
  {
  }

  lemma {:induction false} PropagateFrom(s: Logout, server: Server, peers: Peers)
    requires Propagating(s)
    ensures Outcome(s, Propagate(s, server, peers), server, peers, ToVisit(s))
    decreases |s.session.value.providerIDs| - s.index
  {
    var ids := ToVisit(s);
    if s.session.value.nids == map[] {
      DoneWhenNoEntry(s, server, peers);
      NobodyToVisit(s.session.value, server, peers, ids);
    } else {
      NextVisits(s, []);
      var s1 := NextProvider(s, []).0;
      if ids != [] {
        var s2 := Exchange(s1, server, peers, ids[0]);
        ExchangeEffect(s1, server, peers, ids[0]);
        VisitKeepsOk(s.session.value, server, peers, ids[0]);
        assert Propagate(s, server, peers) == Propagate(s2, server, peers);
        if s2.initialRemote.None? {
          ClosedNow(s, s2, server, peers, ids);
        } else {
          assert ToVisit(s2) == ids[1..];
          PropagateFrom(s2, server, peers);
        }
      }
    }
  }

  // The visit to the first provider has closed the session.
  lemma ClosedNow(s: Logout, s2: Logout, server: Server, peers: Peers, ids: seq<string>)
    requires s.session.Some? && SessionOk(s.session.value) && ids != []
    requires Closes(s.session.value, server, peers, ids[0]) && Restored(s, s2)
    requires s2.session == Some(Visit(s.session.value, server, peers, ids[0])) && Listed(s2)
    ensures Outcome(s, Propagate(s2, server, peers), server, peers, ids)
  {
    VisitKeepsOk(s.session.value, server, peers, ids[0]);
    var left := s2.session.value;
    assert left.nids.Keys <= left.assertions.Keys == {};
    assert left.nids == map[];
    DoneWhenNoEntry(s2, server, peers);
    NobodyToVisit(left, server, peers, ids[1..]);
  }

  /** A logout with a saved exchange, propagated over the providers of the session in any order,
      whatever their metadata and answers: the session is the one that visiting them in turn
      leaves, and the saved exchange is back in place if and only if some visit closes the
      session; otherwise it stays saved. */
  lemma LogoutPropagates(s: Logout, server: Server, order: seq<string>, peers: Peers)
    requires s.session.Some? && SessionOk(s.session.value)
    requires s.initialRemote.Some? && s.initialRemote.value !in s.session.value.assertions
    requires Enumerates(order, s.session.value.nids.Keys)
    ensures Listed(ResetIndex(s, order))
    ensures Outcome(ResetIndex(s, order), Propagate(ResetIndex(s, order), server, peers), server, peers, order)
  {
    var r := ResetIndex(s, order);
    assert order == [] ==> s.session.value.nids.Keys == {};
    assert s.initialRemote.value !in order;
    WithoutAbsent(order, s.initialRemote);
    assert From(order, 0) == order && ToVisit(r) == order;
    PropagateFrom(r, server, peers);
  }

  /* ----- answers that name their sender ----- */

  function Leavers(peers: Peers, server: Server, ids: seq<string>): set<string> {
    set p | p in ids && Leaves(peers, server, p)
  }

  // The last provider that leaves when the list is visited in order.
  function LastLeaver(peers: Peers, server: Server, ids: seq<string>): Option<string> {
    if ids == [] then None
    else
      var later := LastLeaver(peers, server, ids[1..]);
      if later.Some? then later else if Leaves(peers, server, ids[0]) then Some(ids[0]) else None
  }

  // Everybody in the session leaves, and the last one confirms.
  ghost predicate Answered(session: Session, server: Server, peers: Peers, ids: seq<string>) {
    && session.assertions.Keys <= Leavers(peers, server, ids)
    && LastLeaver(peers, server, ids).Some? && Confirms(peers, server, LastLeaver(peers, server, ids).value)
  }

  lemma LeaversCons(peers: Peers, server: Server, ids: seq<string>)
    requires ids != []
    ensures Leavers(peers, server, ids) ==
            Leavers(peers, server, ids[1..]) + if Leaves(peers, server, ids[0]) then {ids[0]} else {}
  {
    assert ids == [ids[0]] + ids[1..];
  }

  lemma {:induction false} LastLeaverIs(peers: Peers, server: Server, ids: seq<string>)
    ensures LastLeaver(peers, server, ids).None? <==> Leavers(peers, server, ids) == {}
    ensures LastLeaver(peers, server, ids).Some? ==> LastLeaver(peers, server, ids).value in Leavers(peers, server, ids)
  {
    if ids != [] {
      LastLeaverIs(peers, server, ids[1..]);
      LeaversCons(peers, server, ids);
    }
  }

  lemma HonestVisit(session: Session, server: Server, peers: Peers, p: string)
    requires p in session.nids && peers.reply(p).response.providerID == Some(p)
    ensures Visit(session, server, peers, p) == RemoveIf(session, p, Leaves(peers, server, p))
    ensures Closes(session, server, peers, p) <==>
            Confirms(peers, server, p) && RemoveIf(session, p, Leaves(peers, server, p)).assertions == map[]
  {
    RemovedTwice(session, p);
  }

  lemma RemovedTwice(session: Session, p: string)
    ensures RemoveAssertion(RemoveAssertion(session, p), p) == RemoveAssertion(session, p)
  {
    var once := RemoveAssertion(session, p);
    assert once.assertions - {p} == once.assertions && once.nids - {p} == once.nids;
  }

  /** Where every answer names its sender: exactly the listed providers that leave are gone, and
      some visit closes the session if and only if everybody in it leaves and the last one
      confirms. */
  lemma {:induction false} HonestVisits(session: Session, server: Server, peers: Peers, ids: seq<string>)
    requires SessionOk(session) && Honest(peers, session) && DistinctIds(ids)
    requires forall p :: p in ids ==> p in session.nids
    ensures var v := VisitAll(session, server, peers, ids);
            && v.assertions == session.assertions - Leavers(peers, server, ids)
            && v.nids == session.nids - Leavers(peers, server, ids)
    ensures ClosesIn(session, server, peers, ids) <==> Answered(session, server, peers, ids)
    decreases |ids|
  {
    if ids == [] {
      MinusNothing(session);
      assert Leavers(peers, server, ids) == {};
    } else {
      var p, rest := ids[0], ids[1..];
      assert p in ids;
      HonestVisit(session, server, peers, p);
      var next := Visit(session, server, peers, p);
      VisitKeepsOk(session, server, peers, p);
      forall x | x in rest
        ensures x in next.nids
      {
        var k :| 0 <= k < |rest| && rest[k] == x;
        assert x == ids[k + 1] && x in ids && x != p;
      }
      HonestVisits(next, server, peers, rest);
      LeaversCons(peers, server, ids);
      MinusStep(session.assertions, p, Leavers(peers, server, rest));
      MinusStep(session.nids, p, Leavers(peers, server, rest));
      HonestCloses(session, server, peers, ids);
    }
  }

  lemma MinusNothing(session: Session)
    ensures session.assertions - {} == session.assertions && session.nids - {} == session.nids
  {
  }

  lemma MinusStep<T>(m: map<string, T>, p: string, l: set<string>)
    ensures m - {p} - l == m - (l + {p}) && m - l == m - (l + {})
  {
    assert l + {} == l;
  }

  // The first visit closes, or the rest of the list answers.
  lemma HonestCloses(session: Session, server: Server, peers: Peers, ids: seq<string>)
    requires ids != [] && ids[0] in session.nids && session.nids.Keys <= session.assertions.Keys
    requires forall x :: x in ids[1..] ==> x in RemoveIf(session, ids[0], Leaves(peers, server, ids[0])).assertions
    ensures var next := RemoveIf(session, ids[0], Leaves(peers, server, ids[0]));
            Answered(session, server, peers, ids) <==>
            || (Confirms(peers, server, ids[0]) && next.assertions == map[])
            || Answered(next, server, peers, ids[1..])
  {
    var p, rest := ids[0], ids[1..];
    var next := RemoveIf(session, p, Leaves(peers, server, p));
    LeaversCons(peers, server, ids);
    LastLeaverIs(peers, server, rest);
    if Confirms(peers, server, p) {
      ConfirmingLeaves(peers, server, p);
    }
    assert next.assertions == map[] <==> next.assertions.Keys == {};
    assert Leaves(peers, server, p) ==> session.assertions.Keys == next.assertions.Keys + {p};
    var l := Leavers(peers, server, rest);
    assert l <= next.assertions.Keys;
    assert session.assertions.Keys <= Leavers(peers, server, ids) <==> next.assertions.Keys <= l;
  }

  /** The propagation in closed form, where every answer names its sender. */
  lemma HonestLogoutPropagates(s: Logout, server: Server, order: seq<string>, peers: Peers)
    requires s.session.Some? && SessionOk(s.session.value) && Honest(peers, s.session.value)
    requires s.initialRemote.Some? && s.initialRemote.value !in s.session.value.assertions
    requires Enumerates(order, s.session.value.nids.Keys)
    ensures Listed(ResetIndex(s, order))
    ensures var f := Propagate(ResetIndex(s, order), server, peers);
            && f.session.Some?
            && f.session.value.assertions.Keys == s.session.value.assertions.Keys - Leavers(peers, server, order)
            && f.session.value.nids.Keys == s.session.value.nids.Keys - Leavers(peers, server, order)
            && (if Answered(s.session.value, server, peers, order) then Restored(s, f) else SameSaved(s, f))
  {
    LogoutPropagates(s, server, order, peers);
    var r := ResetIndex(s, order);
    HonestVisits(r.session.value, server, peers, order);
    assert Answered(r.session.value, server, peers, order) <==> Answered(s.session.value, server, peers, order);
  }

  /* ----- every provider answers Success ----- */

  // Every provider with an entry in the session can be asked, and answers Success in an
  // unsigned message.
  ghost predicate Cooperative(peers: Peers, server: Server, session: Session) {
    Honest(peers, session) && forall p :: p in session.nids ==> Confirms(peers, server, p)
  }

  lemma AllLeave(peers: Peers, server: Server, order: seq<string>)
    requires forall p :: p in order ==> Confirms(peers, server, p)
    ensures Leavers(peers, server, order) == set p | p in order
    ensures order != [] ==>
              LastLeaver(peers, server, order).Some? && Confirms(peers, server, LastLeaver(peers, server, order).value)
  {
    forall p | p in order
      ensures Leaves(peers, server, p)
    {
      ConfirmingLeaves(peers, server, p);
    }
    LastLeaverIs(peers, server, order);
    assert order != [] ==> order[0] in order;
  }

  lemma ConfirmingLeaves(peers: Peers, server: Server, p: string)
    requires Confirms(peers, server, p)
    ensures Leaves(peers, server, p)
  {
  }

  /** A single logout that an identity provider has accepted and saved, propagated to the others
      with every provider answering Success, logs out exactly the providers that have a name
      identifier entry. The session ends empty if and only if no other provider is left; then
      the provider, request and Success answer of the first requester are back in place, and
      otherwise they stay saved. */
  lemma SingleLogoutCompletes(s: Logout, server: Server, order: seq<string>, peers: Peers)
    requires MayLogOut(s, server) && SessionOk(s.session.value)
    requires server.providers[s.request.value.providerID.value].role == Sp
    requires Count(ValidateRequest(s, server).0.session) >= 1
    requires Cooperative(peers, server, RemoveAssertion(s.session.value, s.request.value.providerID.value))
    requires Enumerates(order, s.session.value.nids.Keys - {s.request.value.providerID.value})
    ensures ValidateRequest(s, server).1 == 0
    ensures Completed(s.session.value, s.request.value, server, LogoutAll(s, server, order, peers))
  {
    ValidateExactly(s, server);
    AcceptedAndSaved(s, server);
    SavedCompletes(s.session.value, s.request.value, ValidateRequest(s, server).0, server, order, peers);
  }

  // Validating the request, taking the list of providers and visiting them all.
  ghost function LogoutAll(s: Logout, server: Server, order: seq<string>, peers: Peers): Logout {
    var r := ResetIndex(ValidateRequest(s, server).0, order);
    if Listed(r) then Propagate(r, server, peers) else r
  }

  // The end of a logout that began with the session and the request.
  ghost predicate Completed(session: Session, request: Request, server: Server, f: Logout) {
    && request.providerID.Some? && f.session.Some?
    && var requester := request.providerID.value;
       && f.session.value.assertions.Keys == session.assertions.Keys - session.nids.Keys - {requester}
       && (f.session.value.assertions == map[] <==> session.assertions.Keys - {requester} <= session.nids.Keys)
       && (if f.session.value.assertions == map[] then
             && f.remote == Some(requester) && f.request == Some(request)
             && f.response.Some? && Answers(f.response.value, request, server.me)
             && f.initialRemote.None?
           else
             && f.initialRemote == Some(requester) && f.initialRequest == Some(request)
             && f.initialResponse.Some? && Answers(f.initialResponse.value, request, server.me))
  }

  // The logout once the request is accepted and saved.
  ghost predicate Saved(session: Session, request: Request, server: Server, v: Logout) {
    && request.providerID.Some?
    && v.session == Some(RemoveAssertion(session, request.providerID.value))
    && v.session.value.assertions != map[]
    && v.initialRemote == request.providerID && v.initialRequest == Some(request)
    && v.initialResponse.Some? && Answers(v.initialResponse.value, request, server.me)
  }

  lemma SavedCompletes(session: Session, request: Request, v: Logout, server: Server, order: seq<string>, peers: Peers)
    requires Saved(session, request, server, v) && SessionOk(session) && Cooperative(peers, server, v.session.value)
    requires Enumerates(order, session.nids.Keys - {request.providerID.value})
    ensures Listed(ResetIndex(v, order))
    ensures Completed(session, request, server, Propagate(ResetIndex(v, order), server, peers))
  {
    var requester := request.providerID.value;
    assert v.session.value.nids.Keys == session.nids.Keys - {requester};
    HonestLogoutPropagates(v, server, order, peers);
    AllLeave(peers, server, order);
    var f := Propagate(ResetIndex(v, order), server, peers);
    LeftOver(session, requester, Leavers(peers, server, order), f.session.value.assertions);
  }

  // The state in which an accepted request leaves the logout when other providers remain.
  lemma AcceptedAndSaved(s: Logout, server: Server)
    requires MayLogOut(s, server)
    requires server.providers[s.request.value.providerID.value].role == Sp
    requires Count(ValidateRequest(s, server).0.session) >= 1
    ensures Saved(s.session.value, s.request.value, server, ValidateRequest(s, server).0)
  {
  }

  // An accepted request is saved exactly when it comes from a service provider and leaves others
  // in the session.
  lemma SavedExactly(s: Logout, server: Server)
    requires MayLogOut(s, server) && s.initialRemote.None?
    ensures var requester := s.request.value.providerID.value;
            ValidateRequest(s, server).0.initialRemote.Some? <==>
            server.providers[requester].role == Sp && s.session.value.assertions.Keys != {requester}
    ensures ValidateRequest(s, server).0.initialRemote.Some? ==>
              Saved(s.session.value, s.request.value, server, ValidateRequest(s, server).0)
  {
    var requester := s.request.value.providerID.value;
    ValidateAllOrNothing(s, server);
    OthersLeft(s.session.value.assertions, requester);
    CountsNone(Some(RemoveAssertion(s.session.value, requester)));
    if server.providers[requester].role == Sp && s.session.value.assertions.Keys != {requester} {
      AcceptedAndSaved(s, server);
    }
  }

  lemma OthersLeft(assertions: map<string, Assertion>, requester: string)
    requires requester in assertions
    ensures assertions - {requester} == map[] <==> assertions.Keys == {requester}
  {
    assert assertions.Keys == (assertions - {requester}).Keys + {requester};
  }

  lemma LeftOver(session: Session, requester: string, gone: set<string>, final: map<string, Assertion>)
    requires SessionOk(session)
    requires var left := RemoveAssertion(session, requester);
             left.assertions != map[] && final.Keys == left.assertions.Keys - gone && gone == left.nids.Keys
    ensures final.Keys == session.assertions.Keys - session.nids.Keys - {requester}
    ensures final == map[] <==> session.assertions.Keys - {requester} <= session.nids.Keys
    ensures final == map[] ==> gone != {}
  {
    var a, n := session.assertions.Keys, session.nids.Keys;
    var left := RemoveAssertion(session, requester);
    assert left.assertions.Keys == a - {requester} && left.nids.Keys == n - {requester};
    assert left.assertions.Keys != {};
    assert final == map[] <==> final.Keys == {};
    assert a - {requester} - (n - {requester}) == a - n - {requester};
    assert a - n - {requester} == {} <==> a - {requester} <= n;
  }

  /* ----- logouts that do not complete ----- */

  const NAME := NameId("n", OneTime, "q")

  function AssertionOf(index: Option<string>): Assertion {
    Assertion("x", None, None, Some(Statement(Some(Subject(Some(NAME), None)), index)), None)
  }

  function Knowing(me: string, a: string, b: string): Server {
    Server(me, map[a := Provider(Sp, true, None), b := Provider(Sp, true, None)])
  }

  // The providers a and b are logged in, and a has asked for a logout. Only a has a session
  // index, or both have.
  function TwoLoggedIn(a: string, b: string, both: bool): Logout {
    var entries := [(NAME, "x")];
    var assertions := map[a := AssertionOf(Some("x")), b := AssertionOf(if both then Some("x") else None)];
    var nids := if both then map[a := entries, b := entries] else map[a := entries];
    var request := Request("r", Some(a), Some(NAME), None);
    Logout(Some(Session(assertions, nids, [], 0)), None, Some(a), Some(request), None, Some(NAME), None, 0, Redirect,
           None, None, None, NoMethod, 0, false)
  }

  // Every provider is asked by SOAP and answers with the status.
  function AllAnswer(status: Status): Peers {
    Peers(Soap, _ => Metadata(true, Soap), p => p,
          p => ResponseMsg(SoapFormat, Response(None, None, Some(p), Some(status), None), DS_SIGNATURE_NOT_FOUND),
            _ => 0)
  }

  lemma TwoAreSaved(me: string, a: string, b: string, both: bool)
    requires a != b && a != "" && b != ""
    ensures var s := TwoLoggedIn(a, b, both);
            && SessionOk(s.session.value) && MayLogOut(s, Knowing(me, a, b))
            && Saved(s.session.value, s.request.value, Knowing(me, a, b), ValidateRequest(s, Knowing(me, a, b)).0)
  {
    var s, server := TwoLoggedIn(a, b, both), Knowing(me, a, b);
    assert MayLogOut(s, server);
    ValidateAllOrNothing(s, server);
    var left := RemoveAssertion(s.session.value, a).assertions;
    assert b in left;
    assert |left| > 0;
    AcceptedAndSaved(s, server);
  }

  /** Everybody would answer Success, but the second provider has an assertion without a session
      index: it is never asked, the session keeps it, and the first requester stays
      unanswered. */
  lemma LogoutCanStop(me: string, a: string, b: string)
    requires a != b && a != "" && b != ""
    ensures var f := LogoutAll(TwoLoggedIn(a, b, false), Knowing(me, a, b), [], AllAnswer(StatusOf(Success)));
            f.session.Some? && f.session.value.assertions.Keys == {b} && f.initialRemote == Some(a)
  {
    TwoAreSaved(me, a, b, false);
    StopFrom(me, a, b, ValidateRequest(TwoLoggedIn(a, b, false), Knowing(me, a, b)).0);
  }

  lemma StopFrom(me: string, a: string, b: string, v: Logout)
    requires a != b && a != "" && b != ""
    requires var s := TwoLoggedIn(a, b, false);
             SessionOk(s.session.value) && Saved(s.session.value, s.request.value, Knowing(me, a, b), v)
    ensures Listed(ResetIndex(v, []))
    ensures var f := Propagate(ResetIndex(v, []), Knowing(me, a, b), AllAnswer(StatusOf(Success)));
            f.session.Some? && f.session.value.assertions.Keys == {b} && f.initialRemote == Some(a)
  {
    var s, server, peers := TwoLoggedIn(a, b, false), Knowing(me, a, b), AllAnswer(StatusOf(Success));
    var session := s.session.value;
    assert session.nids.Keys == {a} && session.assertions.Keys == {a, b};
    SavedCompletes(session, s.request.value, v, server, [], peers);
    assert {a, b} - {a} - {a} == {b};
  }

  /** The second provider denies the request: it leaves the session all the same, which is then
      empty, and the first requester stays unanswered. */
  lemma LogoutCanEndUnanswered(me: string, a: string, b: string)
    requires a != b && a != "" && b != ""
    ensures var f := LogoutAll(TwoLoggedIn(a, b, true), Knowing(me, a, b), [b], AllAnswer(StatusOf(RequestDenied)));
            f.session.Some? && f.session.value.assertions == map[] && f.initialRemote == Some(a)
  {
    TwoAreSaved(me, a, b, true);
    EndsUnanswered(me, a, b, ValidateRequest(TwoLoggedIn(a, b, true), Knowing(me, a, b)).0);
  }

  lemma EndsUnanswered(me: string, a: string, b: string, v: Logout)
    requires a != b && a != "" && b != ""
    requires var s := TwoLoggedIn(a, b, true);
             SessionOk(s.session.value) && Saved(s.session.value, s.request.value, Knowing(me, a, b), v)
    ensures Listed(ResetIndex(v, [b]))
    ensures var f := Propagate(ResetIndex(v, [b]), Knowing(me, a, b), AllAnswer(StatusOf(RequestDenied)));
            f.session.Some? && f.session.value.assertions == map[] && f.initialRemote == Some(a)
  {
    assert v.session.value.nids.Keys == {b} && v.session.value.assertions.Keys == {b};
    OneDenies(v, Knowing(me, a, b), b);
  }

  // The only provider left denies the request.
  lemma OneDenies(v: Logout, server: Server, b: string)
    requires v.session.Some? && SessionOk(v.session.value) && v.initialRemote.Some? && v.initialRemote.value != b
    requires v.session.value.nids.Keys == {b} && v.session.value.assertions.Keys == {b} && Known(server, b)
    ensures Listed(ResetIndex(v, [b]))
    ensures var f := Propagate(ResetIndex(v, [b]), server, AllAnswer(StatusOf(RequestDenied)));
            f.session.Some? && f.session.value.assertions == map[] && f.initialRemote == v.initialRemote
  {
    var peers := AllAnswer(StatusOf(RequestDenied));
    HonestLogoutPropagates(v, server, [b], peers);
    DenyingLeaves(server, b);
    OneLeaver(peers, server, b);
  }

  lemma OneLeaver(peers: Peers, server: Server, p: string)
    requires Leaves(peers, server, p)
    ensures Leavers(peers, server, [p]) == {p} && LastLeaver(peers, server, [p]) == Some(p)
  {
    LastLeaverIs(peers, server, [p]);
  }

  lemma DenyingLeaves(server: Server, p: string)
    requires GetProvider(server, Some(p)).Some?
    ensures Leaves(AllAnswer(StatusOf(RequestDenied)), server, p)
            && !Confirms(AllAnswer(StatusOf(RequestDenied)), server, p)
  {
  }

  /* ----- an answer that names another provider ----- */

  // Every answer is a Success that names the one provider.
  function AllAnswerAs(q: string): Peers {
    AllAnswer(StatusOf(Success)).(reply := _ =>
      ResponseMsg(SoapFormat, Response(None, None, Some(q), Some(StatusOf(Success)), None), DS_SIGNATURE_NOT_FOUND))
  }

  /** The answer decides who is logged out, not the request: with a and b logged in, an answer to
      the request to b that names a removes a and keeps b. */
  lemma AnswerForAnother(me: string, a: string, b: string)
    requires a != b && a != "" && b != ""
    ensures var s := Exchange(TwoLoggedIn(a, b, true), Knowing(me, a, b), AllAnswerAs(a), b);
            s.session.Some? && s.session.value.assertions.Keys == {b}
  {
    var s, server, peers := TwoLoggedIn(a, b, true), Knowing(me, a, b), AllAnswerAs(a);
    ExchangeEffect(s, server, peers, b);
    VisitForAnother(s.session.value, server, a, b);
  }

  lemma VisitForAnother(session: Session, server: Server, q: string, p: string)
    requires p in session.nids && Known(server, p) && Known(server, q)
    requires server.providers[p].role == Sp && server.providers[q].role == Sp
    ensures Visit(session, server, AllAnswerAs(q), p) == RemoveAssertion(session, q)
  {
  }
}
