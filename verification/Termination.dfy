/** Federation termination between two live objects: one side builds a notice and the other
    processes and validates it. */
module Termination {
  import opened Wrappers
  import opened IdFf
  import opened DefederationModel
  import opened DefederationProfile
  import opened FederationProperties

  // What a side stores for the principal, and the two sides together.
  ghost function PartyOf(d: DefederationProfile): Party
    reads d
  {
    Party(d.identity, d.session)
  }

  ghost function WorldOf(sp: DefederationProfile, idp: DefederationProfile, issued: set<string>): World
    reads sp, idp
  {
    World(sp.server, idp.server, PartyOf(sp), PartyOf(idp), issued)
  }

  // The object has been made for this exchange.
  ghost predicate IsNew(d: DefederationProfile)
    reads d
  {
    d.Valid() && d.View() == Start(PartyOf(d))
  }

  /** A notice from one object to the other: what the two calls of the receiver make of it, if
      the sender could build it. */
  method Notice(from: DefederationProfile, to: DefederationProfile, via: HttpMethod, md: Metadata,
                format: MessageFormat,
                signature: int, returnUrl: Option<string>)
    returns (rc: int, rc2: int)
    requires from != to && IsNew(from) && IsNew(to)
    modifies from, to
    ensures from.Valid() && to.Valid()
    ensures var e := SpTerminates(via, md, format, signature, returnUrl);
            (PartyOf(from), rc, PartyOf(to), rc2)
            == Terminate(old(PartyOf(from)), from.server, old(PartyOf(to)), to.server, e)
  {
    rc := from.InitNotificationMsg(Some(to.server.me), None, via, md);
    if rc != 0 || from.request.None? {
      return rc, rc;
    }
    var msg := NotificationMsg(format, true, from.request.value, signature);
    var _ := to.ProcessNotificationMsg(msg);
    rc2 := to.ValidateNotificationMsg(returnUrl);
  }

  /** The service provider terminates: it forgets the identity provider, and the identity provider
      forgets it if and only if the service provider's session did not name the principal by a
      one-time identifier. Nothing else changes in the two identities, and the two sides stay
      mirrored. */
  method TerminateAtSp(sp: DefederationProfile, idp: DefederationProfile, via: HttpMethod, md: Metadata,
                       format: MessageFormat, signature: int, returnUrl: Option<string>, ghost issued: set<string>)
    returns (rc: int, rc2: int)
    requires sp != idp && IsNew(sp) && IsNew(idp)
    requires Inv(WorldOf(sp, idp, issued)) && SpFed(WorldOf(sp, idp, issued)).Some?
    requires (via == AnyMethod || md.accepts) && returnUrl.Some?
    modifies sp, idp
    ensures sp.Valid() && idp.Valid() && Inv(WorldOf(sp, idp, issued))
    ensures rc == 0 && sp.identity == Some(old(sp.identity).value - {idp.server.me})
    ensures rc2 == 0 <==> MayTerminate(old(PartyOf(sp)), idp.server.me)
    ensures old(idp.identity).Some? && idp.identity ==
              (if rc2 == 0 then Some(old(idp.identity).value - {sp.server.me}) else old(idp.identity))
  {
    ghost var w, e := WorldOf(sp, idp, issued), SpTerminates(via, md, format, signature, returnUrl);
    TerminateResult(w.sp, w.spServer, w.idp, w.idpServer, e);
    SpTerminationExactly(w, e);
    TerminationKeeps(w, e);
    rc, rc2 := Notice(sp, idp, via, md, format, signature, returnUrl);
    assert WorldOf(sp, idp, issued) == Do(w, e);
  }

  /** The identity provider terminates: it forgets the service provider, and the two sides stay
      mirrored if and only if the service provider was not federated or the identity provider's
      session did not name the principal by a one-time identifier. */
  method TerminateAtIdp(sp: DefederationProfile, idp: DefederationProfile, via: HttpMethod, md: Metadata,
                        format: MessageFormat, signature: int, returnUrl: Option<string>, ghost issued: set<string>)
    returns (rc: int, rc2: int)
    requires sp != idp && IsNew(sp) && IsNew(idp)
    requires Inv(WorldOf(sp, idp, issued)) && IdpFed(WorldOf(sp, idp, issued)).Some?
    requires (via == AnyMethod || md.accepts) && returnUrl.Some?
    modifies sp, idp
    ensures sp.Valid() && idp.Valid()
    ensures idp.identity == Some(old(idp.identity).value - {sp.server.me})
    ensures Mirrored(WorldOf(sp, idp, issued)) <==>
            (old(SpFed(WorldOf(sp, idp, issued))).None? || MayTerminate(old(PartyOf(idp)), sp.server.me))
    ensures Mirrored(WorldOf(sp, idp, issued)) <==> SpFed(WorldOf(sp, idp, issued)).None?
  {
    ghost var w, e := WorldOf(sp, idp, issued), IdpTerminates(via, md, format, signature, returnUrl);
    TerminateResult(w.idp, w.idpServer, w.sp, w.spServer, e);
    SentIsRecognised(w.idp, w.idpServer, w.spServer.me);
    IdpTerminationExactly(w, e);
    rc, rc2 := Notice(idp, sp, via, md, format, signature, returnUrl);
    assert WorldOf(sp, idp, issued) == Do(w, e);
  }
}
