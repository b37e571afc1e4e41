/** What every sequence of logout calls keeps, and what a propagated logout achieves. */
module LogoutProperties {
  import opened Wrappers
  import opened IdFf
  import opened LogoutModel

  /* ----- every sequence of calls ----- */

  datatype Event =
    | OnRequest(rmsg: RequestMsg)
    | Validate
    | Reset(order: seq<string>)
    | Next(order: seq<string>)
    | Init(remote: Option<string>, via: HttpMethod, md: Metadata, order: seq<string>, freshId: string)
    | OnResponse(msg: ResponseMsg, redirectRc: int)

  ghost function Apply(s: Logout, server: Server, e: Event): Logout {
    match e
    case OnRequest(msg) => ProcessRequest(s, server, msg).0
    case Validate => ValidateRequest(s, server).0
    case Reset(order) => ResetIndex(s, order)
    case Next(order) => NextProvider(s, order).0
    case Init(remote, via, md, order, freshId) => InitRequest(s, server, remote, via, md, order, freshId).0
    case OnResponse(msg, rc) => ProcessResponse(s, server, msg, rc).0
  }

  ghost function Run(s: Logout, server: Server, es: seq<Event>): Logout
    decreases |es|
  {
    if es == [] then s else Apply(Run(s, server, es[..|es| - 1]), server, es[|es| - 1])
  }

  // The saved provider, request and response are all absent, or they are a request of that
  // provider and the Success answer to it.
  ghost predicate InitialOk(s: Logout, me: string) {
    if s.initialRemote.None? then s.initialRequest.None? && s.initialResponse.None?
    else s.initialRequest.Some? && s.initialResponse.Some? &&
         Answers(s.initialResponse.value, s.initialRequest.value, me) &&
         s.initialRequest.value.providerID == s.initialRemote
  }

  predicate Answers(response: Response, request: Request, me: string) {
    && response.inResponseTo == Some(request.id)
    && response.recipient == request.providerID
    && response.providerID == Some(me)
    && response.status == Some(StatusOf(Success))
  }

  function Providers(s: Logout): set<string> {
    if s.session.None? then {} else s.session.value.assertions.Keys + s.session.value.nids.Keys
  }

  // No provider appears, and at most one goes.
  ghost predicate LosesAtMostOne(before: set<string>, after: set<string>) {
    after <= before && exists p :: before - {p} <= after
  }

  lemma UnchangedLosesNone(ps: set<string>)
    ensures LosesAtMostOne(ps, ps)
  {
    assert ps - {""} <= ps;
  }

  lemma DropLosesOne(s: Logout, s': Logout, p: string)
    requires s'.session == Drop(s.session, p)
    ensures LosesAtMostOne(Providers(s), Providers(s'))
  {
    assert Providers(s) - {p} <= Providers(s');
  }

  // What the two checking phases of validation may change.
  lemma PrepareFrame(s: Logout, server: Server)
    ensures var (s', rc) := PrepareAnswer(s, server);
            && s' == s.(remote := s'.remote, response := s'.response)
            && (rc == 0 ==>
                  && s'.remote == s.request.value.providerID
                  && Answers(s'.response.value, s.request.value, server.me))
            && (rc != 0 ==> s'.response == s.response || s'.response.None?)
  {
  }

  lemma CheckFrame(s: Logout, server: Server)
    requires Prepared(s, server)
    ensures var (s', rc) := CheckRequest(s, server);
            && s' == s.(response := s'.response, allSoap := s'.allSoap)
            && (rc == 0 ==> s'.response == s.response)
            && (rc != 0 ==> s'.response.Some? && Refuses(s'.response.value))
  {
  }

  predicate Refuses(response: Response) {
    response.status.Some? && response.status.value.code != Success
  }

  lemma ValidateKeeps(s: Logout, server: Server)
    requires InitialOk(s, server.me)
    ensures var s' := ValidateRequest(s, server).0;
            InitialOk(s', server.me) && LosesAtMostOne(Providers(s), Providers(s'))
  {
    PrepareFrame(s, server);
    UnchangedLosesNone(Providers(s));
    var (s1, rc1) := PrepareAnswer(s, server);
    if rc1 == 0 {
      CheckFrame(s1, server);
      var (s2, rc2) := CheckRequest(s1, server);
      if rc2 == 0 {
        AcceptKeeps(s2, s.request.value, server);
      }
    }
  }

  lemma AcceptKeeps(s: Logout, request: Request, server: Server)
    requires InitialOk(s, server.me) && Prepared(s, server) && s.request == Some(request)
    requires s.remote == request.providerID && Answers(s.response.value, request, server.me)
    ensures var s' := Accept(s, server);
            InitialOk(s', server.me) && LosesAtMostOne(Providers(s), Providers(s'))
  {
    DropLosesOne(s, Accept(s, server), s.remote.value);
  }

  lemma InitKeeps(s: Logout, server: Server, remote: Option<string>, via: HttpMethod, md: Metadata,
                  order: seq<string>, freshId: string)
    requires InitialOk(s, server.me)
    ensures var s' := InitRequest(s, server, remote, via, md, order, freshId).0;
            InitialOk(s', server.me) && LosesAtMostOne(Providers(s), Providers(s'))
  {
    ChooseFrame(s, server, remote, order);
    UnchangedLosesNone(Providers(s));
    var (s1, rc) := ChooseProvider(s, server, remote, order);
    if rc == 0 {
      AskFrame(s1, server, via, md, freshId);
      var s' := AskProvider(s1, server, via, md, freshId).0;
      if s'.session != s1.session {
        DropLosesOne(s1, s', s1.remote.value);
      }
    }
  }

  // What the two phases of asking a provider may change.
  lemma ChooseFrame(s: Logout, server: Server, remote: Option<string>, order: seq<string>)
    ensures var s' := ChooseProvider(s, server, remote, order).0;
            s' == s.(session := s'.session, remote := s'.remote, nameId := s'.nameId) && Providers(s') == Providers(s)
  {
  }

  lemma AskFrame(s: Logout, server: Server, via: HttpMethod, md: Metadata, freshId: string)
    requires Chosen(s, server)
    ensures DropsOnly(s, AskProvider(s, server, via, md, freshId).0, s.remote)
    ensures var s' := AskProvider(s, server, via, md, freshId).0;
            s'.initialRemote == s.initialRemote && s'.initialRequest == s.initialRequest
            && s'.initialResponse == s.initialResponse
  {
  }

  lemma ResponseKeeps(s: Logout, server: Server, msg: ResponseMsg, rc: int)
    requires InitialOk(s, server.me)
    ensures var s' := ProcessResponse(s, server, msg, rc).0;
            InitialOk(s', server.me) && LosesAtMostOne(Providers(s), Providers(s'))
  {
    UnchangedLosesNone(Providers(s));
    var s' := ProcessResponse(s, server, msg, rc).0;
    ResponseEffect(s, server, msg, rc);
    if s'.session != s.session {
      DropLosesOne(s, s', msg.response.providerID.value);
    }
  }

  // The session loses at most the sender of the response; the saved exchange stays, or goes
  // as a whole.
  ghost predicate DropsOnly(s: Logout, s': Logout, sender: Option<string>) {
    && (s'.session == s.session || (sender.Some? && s'.session == Drop(s.session, sender.value)))
    && s'.index == s.index
    && (|| (s'.initialRemote == s.initialRemote && s'.initialRequest == s.initialRequest
            && s'.initialResponse == s.initialResponse)
        || (s'.initialRemote.None? && s'.initialRequest.None? && s'.initialResponse.None?))
  }

  lemma ResponseEffect(s: Logout, server: Server, msg: ResponseMsg, rc: int)
    ensures DropsOnly(s, ProcessResponse(s, server, msg, rc).0, msg.response.providerID)
  {
    var (s1, rc1) := ReceiveResponse(s, server, msg);
    assert DropsOnly(s, s1, msg.response.providerID);
    if rc1 == 0 && msg.signature == DS_SIGNATURE_NOT_FOUND && msg.response.status.Some? {
      assert s1.remote == msg.response.providerID;
      if msg.response.status.value.code == Success {
        LoggedOutEffect(s1, GetProvider(server, s1.remote).value, msg.format);
      } else {
        FailedEffect(s1, GetProvider(server, s1.remote).value, msg.response.status.value, rc);
      }
    }
  }

  lemma LoggedOutEffect(s: Logout, provider: Provider, format: MessageFormat)
    requires s.remote.Some?
    ensures DropsOnly(s, LoggedOut(s, provider, format), s.remote)
  {
  }

  lemma FailedEffect(s: Logout, provider: Provider, status: Status, rc: int)
    requires s.remote.Some?
    ensures DropsOnly(s, FailedResponse(s, provider, status, rc).0, s.remote)
  {
  }

  lemma NextKeeps(s: Logout, order: seq<string>)
    ensures var s' := NextProvider(s, order).0;
            && Providers(s') == Providers(s)
            && s' == s.(session := s'.session, index := s'.index)
  {
  }

  /** One call keeps the saved exchange consistent and removes at most one provider. */
  lemma CallKeeps(s: Logout, server: Server, e: Event)
    requires InitialOk(s, server.me)
    ensures InitialOk(Apply(s, server, e), server.me)
    ensures LosesAtMostOne(Providers(s), Providers(Apply(s, server, e)))
  {
    UnchangedLosesNone(Providers(s));
    match e
    case OnRequest(_) =>
    case Validate => ValidateKeeps(s, server);
    case Reset(order) => assert Providers(ResetIndex(s, order)) == Providers(s);
    case Next(order) => NextKeeps(s, order);
    case Init(remote, via, md, order, freshId) => InitKeeps(s, server, remote, via, md, order, freshId);
    case OnResponse(msg, rc) => ResponseKeeps(s, server, msg, rc);
  }

  ghost predicate TablesOk(s: Logout) {
    s.session.Some? ==> SessionOk(s.session.value)
  }

  /** One call keeps the tables of the session consistent. */
  lemma CallKeepsTables(s: Logout, server: Server, e: Event)
    requires TablesOk(s)
    ensures TablesOk(Apply(s, server, e))
  {
    match e
    case OnRequest(_) =>
    case Validate => ValidateKeepsTables(s, server);
    case Reset(_) =>
    case Next(order) => NextKeepsTables(s, order);
    case Init(remote, via, md, order, freshId) => InitKeepsTables(s, server, remote, via, md, order, freshId);
    case OnResponse(msg, rc) => ResponseEffect(s, server, msg, rc);
  }

  lemma ValidateKeepsTables(s: Logout, server: Server)
    requires TablesOk(s)
    ensures TablesOk(ValidateRequest(s, server).0)
  {
    PrepareFrame(s, server);
    var (s1, rc1) := PrepareAnswer(s, server);
    if rc1 == 0 {
      CheckFrame(s1, server);
    }
  }

  lemma NextKeepsTables(s: Logout, order: seq<string>)
    requires TablesOk(s)
    ensures TablesOk(NextProvider(s, order).0)
  {
  }

  lemma InitKeepsTables(s: Logout, server: Server, remote: Option<string>, via: HttpMethod, md: Metadata,
                        order: seq<string>, freshId: string)
    requires TablesOk(s)
    ensures TablesOk(InitRequest(s, server, remote, via, md, order, freshId).0)
  {
    var (s1, rc) := ChooseProvider(s, server, remote, order);
    assert TablesOk(s1);
  }

  /** Over every sequence of calls: the saved exchange stays consistent, no provider joins the
      session, and n calls remove at most n providers. */
  lemma {:induction false} RunKeeps(s: Logout, server: Server, es: seq<Event>)
    requires InitialOk(s, server.me)
    ensures InitialOk(Run(s, server, es), server.me)
    ensures Providers(Run(s, server, es)) <= Providers(s)
    ensures |Providers(s) - Providers(Run(s, server, es))| <= |es|
    decreases |es|
  {
    if es == [] {
      assert Providers(s) - Providers(s) == {};
    } else {
      var front := es[..|es| - 1];
      RunKeeps(s, server, front);
      var mid := Run(s, server, front);
      CallKeeps(mid, server, es[|es| - 1]);
      var all, kept, left := Providers(s), Providers(mid), Providers(Apply(mid, server, es[|es| - 1]));
      var p :| kept - {p} <= left;
      LostOneMore(all, kept, left, p);
    }
  }

  lemma LostOneMore(all: set<string>, kept: set<string>, left: set<string>, p: string)
    requires left <= kept <= all && kept - {p} <= left
    ensures |all - left| <= |all - kept| + 1
  {
    assert all - left <= (all - kept) + {p};
    SubsetSize(all - left, (all - kept) + {p});
    assert |(all - kept) + {p}| <= |all - kept| + 1;
  }

  lemma SubsetSize(a: set<string>, b: set<string>)
    requires a <= b
    ensures |a| <= |b|
  {
    if a != {} {
      var x :| x in a;
      SubsetSize(a - {x}, b - {x});
    }
  }

  /* ----- validating a request ----- */

  // The request may log its sender out.
  ghost predicate MayLogOut(s: Logout, server: Server) {
    && s.request.Some?
    && GetProvider(server, s.request.value.providerID).Some?
    && (s.via == Soap || s.via == Redirect)
    && s.signatureStatus == 0
    && s.request.value.nameId.Some?
    && s.session.Some?
    && var requester := s.request.value.providerID.value;
       var nameId := s.request.value.nameId.value;
       && requester in s.session.value.assertions
       && (nameId.format == Federated ==>
             && s.identity.Some?
             && requester in s.identity.value
             && Verifies(s.identity.value[requester], nameId))
       && (server.providers[requester].role == Sp && s.via == Soap ==>
             forall p :: p in server.providers && p != requester && p in s.session.value.assertions ==>
               server.providers[p].soapLogout)
  }

  lemma ValidateExactly(s: Logout, server: Server)
    ensures ValidateRequest(s, server).1 == 0 <==> MayLogOut(s, server)
  {
    PrepareFrame(s, server);
    var (s1, rc1) := PrepareAnswer(s, server);
    if rc1 == 0 {
      assert CheckRequest(s1, server).1 == 0 <==> MayLogOut(s, server);
    }
  }

  /** Validation is all or nothing. It succeeds exactly on the requests that may log out; then
      exactly the requester leaves the session and the answer, sent now or saved, is Success.
      Otherwise the session and the saved exchange are as before, and the response to the refused
      request of a known provider is missing or not Success. */
  lemma ValidateAllOrNothing(s: Logout, server: Server)
    ensures ValidateRequest(s, server).1 == 0 <==> MayLogOut(s, server)
    ensures var (s', rc) := ValidateRequest(s, server);
            if rc == 0 then
              var answer := if s'.initialRequest == s.request && s'.request.None? then s'.initialResponse
                else s'.response;
              && s'.session == Some(RemoveAssertion(s.session.value, s.request.value.providerID.value))
              && answer.Some? && Answers(answer.value, s.request.value, server.me)
            else
              && s'.session == s.session
              && (s'.initialRemote, s'.initialRequest, s'.initialResponse)
                 == (s.initialRemote, s.initialRequest, s.initialResponse)
              && (if s.request.Some? && GetProvider(server, s.request.value.providerID).Some?
                  then s'.response.None? || Refuses(s'.response.value)
                  else s'.response == s.response)
  {
    ValidateExactly(s, server);
    PrepareFrame(s, server);
    var (s1, rc1) := PrepareAnswer(s, server);
    if rc1 == 0 {
      CheckFrame(s1, server);
    }
  }

  /* ----- enumerating the providers ----- */

  function Nexts(s: Logout, order: seq<string>, n: nat): (r: seq<Option<string>>)
    ensures |r| == n
    decreases n
  {
    if n == 0 then []
    else
      var (s', next) := NextProvider(s, order);
      [next] + Nexts(s', order, n - 1)
  }

  function Without(ids: seq<string>, skip: Option<string>): seq<string> {
    if ids == [] then []
    else (if Some(ids[0]) == skip then [] else [ids[0]]) + Without(ids[1..], skip)
  }

  predicate DistinctIds(ids: seq<string>) {
    forall i, j :: 0 <= i < j < |ids| ==> ids[i] != ids[j]
  }

  lemma WithoutAbsent(ids: seq<string>, skip: Option<string>)
    requires skip.None? || skip.value !in ids
    ensures Without(ids, skip) == ids
  {
  }

  // Leaving one identifier out of distinct ones removes it from its place.
  lemma {:induction false} WithoutPresent(ids: seq<string>, j: nat)
    requires DistinctIds(ids) && j < |ids|
    ensures Without(ids, Some(ids[j])) == ids[..j] + ids[j + 1..]
  {
    if j == 0 {
      WithoutAbsent(ids[1..], Some(ids[0]));
    } else {
      var tail := ids[1..];
      assert tail[j - 1] == ids[j];
      WithoutPresent(tail, j - 1);
      calc {
        Without(ids, Some(ids[j]));
        [ids[0]] + Without(tail, Some(ids[j]));
        [ids[0]] + (tail[..j - 1] + tail[j..]);
        { assert tail[j..] == ids[j + 1..] && [ids[0]] + tail[..j - 1] == ids[..j]; }
        ids[..j] + ids[j + 1..];
      }
    }
  }

  function ToVisit(s: Logout): seq<string>
    requires s.session.Some?
  {
    var ids := s.session.value.providerIDs;
    Without(From(ids, s.index), s.initialRemote)
  }

  // A provider list has been taken, and some provider still has a name identifier entry.
  ghost predicate Enumerating(s: Logout) {
    && s.session.Some? && s.session.value.nids != map[]
    && s.session.value.providerIDs != [] && DistinctIds(s.session.value.providerIDs)
  }

  lemma NextVisits(s: Logout, order: seq<string>)
    requires Enumerating(s)
    ensures var (s', next) := NextProvider(s, order);
            && s' == s.(index := s'.index) && s'.index > s.index
            && next == (if ToVisit(s) == [] then None else Some(ToVisit(s)[0]))
            && (next.Some? ==> s'.index <= |s.session.value.providerIDs|)
            && ToVisit(s') == (if ToVisit(s) == [] then [] else ToVisit(s)[1..])
  {
    var ids, i := s.session.value.providerIDs, s.index;
    assert s.session.value.(providerIDs := ids) == s.session.value;
    VisitOne(ids, i, s.initialRemote);
    if i < |ids| && Some(ids[i]) == s.initialRemote {
      VisitOne(ids, i + 1, s.initialRemote);
    }
  }

  function From(ids: seq<string>, i: nat): seq<string> {
    if i <= |ids| then ids[i..] else []
  }

  // The list of the providers to visit from a position, and from the next one.
  lemma VisitOne(ids: seq<string>, i: nat, skip: Option<string>)
    requires DistinctIds(ids)
    ensures i >= |ids| ==> Without(From(ids, i), skip) == []
    ensures i < |ids| && Some(ids[i]) != skip ==>
              Without(From(ids, i), skip) == [ids[i]] + Without(From(ids, i + 1), skip)
    ensures i < |ids| && Some(ids[i]) == skip ==>
              && Without(From(ids, i), skip) == Without(From(ids, i + 1), skip)
              && (i + 1 < |ids| ==> Some(ids[i + 1]) != skip)
  {
    if i < |ids| {
      assert ids[i..][1..] == ids[i + 1..];
    }
  }

  lemma {:induction false} NextsVisit(s: Logout, order: seq<string>, n: nat, k: nat)
    requires Enumerating(s) && k < n
    ensures Nexts(s, order, n)[k] == if k < |ToVisit(s)| then Some(ToVisit(s)[k]) else None
    decreases n
  {
    NextVisits(s, order);
    var (s', next) := NextProvider(s, order);
    assert Nexts(s, order, n) == [next] + Nexts(s', order, n - 1);
    if k > 0 {
      NextsVisit(s', order, n - 1, k - 1);
    }
  }

  /** After a reset, the calls return every provider of the list except the first requester, each
      once and in order, wherever the requester stands in the list, and nothing from then on. */
  lemma EnumerationIsComplete(s: Logout, order: seq<string>, n: nat, k: nat)
    requires s.session.Some? && s.session.value.nids != map[]
    requires Enumerates(order, s.session.value.nids.Keys) || (order != [] && DistinctIds(order))
    requires k < n
    ensures var visited :=
              if s.initialRemote.Some? && s.initialRemote.value in order
              then var j :| 0 <= j < |order| && order[j] == s.initialRemote.value; order[..j] + order[j + 1..]
              else order;
            Nexts(ResetIndex(s, order), order, n)[k] == if k < |visited| then Some(visited[k]) else None
  {
    var s' := ResetIndex(s, order);
    assert order != [] by {
      assert s.session.value.nids.Keys != {};
    }
    assert order[0..] == order;
    NextsVisit(s', order, n, k);
    if s.initialRemote.Some? && s.initialRemote.value in order {
      var j :| 0 <= j < |order| && order[j] == s.initialRemote.value;
      WithoutPresent(order, j);
    } else {
      WithoutAbsent(order, s.initialRemote);
    }
  }
}
