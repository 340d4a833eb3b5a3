/** What every run of the session store keeps. */
module SessionProofs {
  import opened Options
  import opened Redis
  import opened Sessions

  // ----- the invariant is inductive -----

  lemma InitialInv(cfg: Config, now: int)
    requires cfg.refreshTtl > 0
    ensures Inv(cfg, Initial(now))
  {
  }

  /** Removing keys keeps the invariant, if lists only lose sessions that end. */
  ghost predicate Pruned(s: Store, s': Store) {
    && s'.now == s.now && s'.used == s.used && s'.issued == s.issued && s'.blacklist == s.blacklist
    && s'.sess.Keys <= s.sess.Keys && s'.refresh.Keys == s.refresh.Keys * s'.sess.Keys
    && s'.device.Keys <= s.device.Keys && s'.sids.Keys <= s.sids.Keys
    && (forall sid | sid in s'.sess :: s'.sess[sid] == s.sess[sid])
    && (forall sid | sid in s'.refresh :: s'.refresh[sid] == s.refresh[sid])
    && (forall d | d in s'.device :: s'.device[d] == s.device[d])
    && (forall u | u in s'.sids :: s'.sids[u].expiry == s.sids[u].expiry && s'.sids[u].value <= s.sids[u].value)
    && (forall u, sid | u in s.sids && sid in s.sids[u].value && sid in s'.sess && s'.sess[sid].value.uid == u ::
          u in s'.sids && sid in s'.sids[u].value)
  }

  lemma PrunedCoupledListed(cfg: Config, s: Store, s': Store)
    requires Coupled(cfg, s) && Listed(s) && Pruned(s, s')
    ensures Coupled(cfg, s') && Listed(s')
  {
    forall sid | Live(s'.sess, sid, s'.now)
      ensures Live(s.sess, sid, s.now)
    {
    }
  }

  lemma PrunedIdsUsed(s: Store, s': Store)
    requires IdsUsed(s) && Pruned(s, s')
    ensures IdsUsed(s')
  {
    forall u, sid | u in s'.sids && sid in s'.sids[u].value
      ensures sid in s'.used
    {
      assert sid in s.sids[u].value;
    }
  }

  lemma PrunedAgrees(s: Store, s': Store)
    requires ClaimsAgree(s) && NamesAgree(s) && Pruned(s, s')
    ensures ClaimsAgree(s') && NamesAgree(s')
  {
    forall u, sid | u in s'.sids && sid in s'.sids[u].value && sid in s'.sess
      ensures s'.sess[sid].value.uid == u
    {
      assert sid in s.sids[u].value && s'.sess[sid] == s.sess[sid];
    }
    forall d | d in s'.device && s'.device[d].value in s'.sess
      ensures s'.sess[s'.device[d].value].value.did == d
    {
      var named := s.device[d].value;
      assert s'.device[d] == s.device[d] && named in s.sess && s'.sess[named] == s.sess[named];
    }
    forall t | t in s'.issued && t.sid in s'.sess
      ensures s'.sess[t.sid].value.uid == t.uid && s'.sess[t.sid].value.did == t.did
    {
      assert t.sid in s.sess && s'.sess[t.sid] == s.sess[t.sid];
    }
  }

  lemma PrunedInv(cfg: Config, s: Store, s': Store)
    requires Inv(cfg, s) && Pruned(s, s')
    ensures Inv(cfg, s')
  {
    PrunedCoupledListed(cfg, s, s');
    PrunedIdsUsed(s, s');
    PrunedAgrees(s, s');
  }

  lemma DisplacePrunes(cfg: Config, s: Store, uid: Uid, did: Did)
    requires Coupled(cfg, s)
    ensures Pruned(s, Displace(s, uid, did))
  {
  }

  lemma DisplaceInv(cfg: Config, s: Store, uid: Uid, did: Did)
    requires Inv(cfg, s)
    ensures Inv(cfg, Displace(s, uid, did))
  {
    DisplacePrunes(cfg, s, uid, did);
    PrunedInv(cfg, s, Displace(s, uid, did));
  }

  // ----- login -----

  lemma RegisterCoupled(cfg: Config, s: Store, uid: Uid, did: Did, sid: Id, aj: Id, rj: Id)
    requires cfg.refreshTtl > 0 && Coupled(cfg, s)
    ensures Coupled(cfg, Register(cfg, s, uid, did, sid, aj, rj))
  {
  }

  lemma RegisterListed(cfg: Config, s: Store, uid: Uid, did: Did, sid: Id, aj: Id, rj: Id)
    requires Inv(cfg, s)
    ensures Listed(Register(cfg, s, uid, did, sid, aj, rj))
  {
    var s' := Register(cfg, s, uid, did, sid, aj, rj);
    forall x | Live(s'.sess, x, s'.now) && x != sid
      ensures Live(s.sess, x, s.now) && s'.sess[x] == s.sess[x]
    {
    }
  }

  lemma RegisterIdsUsed(cfg: Config, s: Store, uid: Uid, did: Did, sid: Id, aj: Id, rj: Id)
    requires IdsUsed(s)
    ensures IdsUsed(Register(cfg, s, uid, did, sid, aj, rj))
  {
  }

  lemma RegisterAgrees(cfg: Config, s: Store, uid: Uid, did: Did, sid: Id, aj: Id, rj: Id)
    requires IdsUsed(s) && ClaimsAgree(s) && NamesAgree(s) && sid !in s.used
    ensures ClaimsAgree(Register(cfg, s, uid, did, sid, aj, rj)) && NamesAgree(Register(cfg, s, uid, did, sid, aj, rj))
  {
  }

  /** New token ids keep token ids distinct and off the blacklist. */
  lemma SigningKeepsIds(s: Store, t: Token)
    requires IdsUsed(s) && DistinctJtis(s.issued) && Blacklisted(s.blacklist, s.issued) && t.jti !in s.used
    ensures DistinctJtis(s.issued + {t}) && Blacklisted(s.blacklist, s.issued + {t})
  {
  }

  lemma SigningTwoKeepsIds(s: Store, t1: Token, t2: Token)
    requires IdsUsed(s) && DistinctJtis(s.issued) && Blacklisted(s.blacklist, s.issued)
    requires t1.jti !in s.used && t2.jti !in s.used && t1.jti != t2.jti
    ensures DistinctJtis(s.issued + {t1, t2}) && Blacklisted(s.blacklist, s.issued + {t1, t2})
  {
    SigningKeepsIds(s, t1);
    SigningKeepsIds(s, t2);
    assert s.issued + {t1, t2} == s.issued + {t1} + {t2};
  }

  lemma RegisterInv(cfg: Config, s: Store, uid: Uid, did: Did, sid: Id, aj: Id, rj: Id)
    requires Inv(cfg, s) && FreshEvent(s, Login(uid, did, sid, aj, rj))
    ensures Inv(cfg, Register(cfg, s, uid, did, sid, aj, rj))
  {
    RegisterCoupled(cfg, s, uid, did, sid, aj, rj);
    RegisterListed(cfg, s, uid, did, sid, aj, rj);
    RegisterIdsUsed(cfg, s, uid, did, sid, aj, rj);
    RegisterAgrees(cfg, s, uid, did, sid, aj, rj);
    SigningTwoKeepsIds(s, AccessToken(cfg, s, uid, did, sid, aj), RefreshToken(cfg, s, uid, did, sid, rj));
  }

  lemma LoginInv(cfg: Config, s: Store, uid: Uid, did: Did, sid: Id, aj: Id, rj: Id)
    requires Inv(cfg, s) && FreshEvent(s, Login(uid, did, sid, aj, rj))
    ensures Inv(cfg, LoginStep(cfg, s, uid, did, sid, aj, rj))
  {
    DisplaceInv(cfg, s, uid, did);
    RegisterInv(cfg, Displace(s, uid, did), uid, did, sid, aj, rj);
  }

  // ----- rotation -----

  /** The store after a renewal: session, list and, if it is live, device key are extended. */
  lemma RenewShape(cfg: Config, s: Store, t: Token, aj: Id, rj: Id)
    requires Inv(cfg, s) && RefreshAccepted(s, t)
    ensures var s', end := RotateStep(cfg, s, t, true, aj, rj), At(s.now + cfg.refreshTtl);
            && t.sid in s.sess && s.sess[t.sid].value.uid == t.uid && s.sess[t.sid].value.did == t.did
            && t.uid in s.sids && t.sid in s.sids[t.uid].value
            && s' == s.(sess := s.sess[t.sid := Entry(s.sess[t.sid].value, end)],
                        refresh := s.refresh[t.sid := Entry(RefreshToken(cfg, s, t.uid, t.did, t.sid, rj), end)],
                        device := if Live(s.device, t.did, s.now)
                                  then s.device[t.did := Entry(s.device[t.did].value, end)] else s.device,
                        sids := s.sids[t.uid := Entry(s.sids[t.uid].value, end)],
                        used := s.used + {aj, rj},
                        issued := s.issued + {AccessToken(cfg, s, t.uid, t.did, t.sid, aj),
                                              RefreshToken(cfg, s, t.uid, t.did, t.sid, rj)})
  {
    assert Live(s.sess, t.sid, s.now);
  }

  lemma RenewCoupledListed(cfg: Config, s: Store, t: Token, aj: Id, rj: Id)
    requires Inv(cfg, s) && RefreshAccepted(s, t)
    ensures Coupled(cfg, RotateStep(cfg, s, t, true, aj, rj)) && Listed(RotateStep(cfg, s, t, true, aj, rj))
  {
    RenewShape(cfg, s, t, aj, rj);
    var s' := RotateStep(cfg, s, t, true, aj, rj);
    forall sid | Live(s'.sess, sid, s'.now)
      ensures sid == t.sid || Live(s.sess, sid, s.now)
    {
    }
  }

  lemma RenewRecorded(cfg: Config, s: Store, t: Token, aj: Id, rj: Id)
    requires Inv(cfg, s) && RefreshAccepted(s, t) && FreshEvent(s, Rotate(t, true, aj, rj))
    ensures Recorded(RotateStep(cfg, s, t, true, aj, rj))
  {
    RenewShape(cfg, s, t, aj, rj);
    SigningTwoKeepsIds(s, AccessToken(cfg, s, t.uid, t.did, t.sid, aj), RefreshToken(cfg, s, t.uid, t.did, t.sid, rj));
  }

  lemma AccessInv(cfg: Config, s: Store, t: Token, aj: Id, rj: Id)
    requires Inv(cfg, s) && RefreshAccepted(s, t) && FreshEvent(s, Rotate(t, false, aj, rj))
    ensures Inv(cfg, RotateStep(cfg, s, t, false, aj, rj))
  {
    assert t.sid in s.sess;
    SigningKeepsIds(s, AccessToken(cfg, s, t.uid, t.did, t.sid, aj));
  }

  lemma RotateInv(cfg: Config, s: Store, t: Token, renew: bool, aj: Id, rj: Id)
    requires Inv(cfg, s) && FreshEvent(s, Rotate(t, renew, aj, rj))
    ensures Inv(cfg, RotateStep(cfg, s, t, renew, aj, rj))
  {
    if RefreshAccepted(s, t) {
      if renew {
        RenewCoupledListed(cfg, s, t, aj, rj);
        RenewRecorded(cfg, s, t, aj, rj);
      } else {
        AccessInv(cfg, s, t, aj, rj);
      }
    }
  }

  // ----- logout and invalidation -----

  lemma EndSessionPrunes(cfg: Config, s: Store, t: Token)
    requires Coupled(cfg, s)
    ensures Pruned(s, EndSession(s, t))
  {
  }

  lemma EndSessionInv(cfg: Config, s: Store, t: Token)
    requires Inv(cfg, s)
    ensures Inv(cfg, EndSession(s, t))
  {
    EndSessionPrunes(cfg, s, t);
    PrunedInv(cfg, s, EndSession(s, t));
  }

  lemma BlockRecorded(s: Store, t: Token)
    requires Recorded(s) && t in s.issued
    ensures Recorded(Block(s, t))
  {
    var s' := Block(s, t);
    assert IdsUsed(s');
    forall x | x in s'.issued && x.jti in s'.blacklist
      ensures s'.blacklist[x.jti].expiry == At(x.exp)
    {
    }
  }

  lemma BlockCoupledListed(cfg: Config, s: Store, t: Token)
    requires Coupled(cfg, s) && Listed(s)
    ensures Coupled(cfg, Block(s, t)) && Listed(Block(s, t))
  {
    assert forall sid | Live(Block(s, t).sess, sid, s.now) :: Live(s.sess, sid, s.now);
  }

  lemma BlockInv(cfg: Config, s: Store, t: Token)
    requires Inv(cfg, s) && t in s.issued
    ensures Inv(cfg, Block(s, t))
  {
    BlockRecorded(s, t);
    BlockCoupledListed(cfg, s, t);
  }

  lemma LogoutCases(s: Store, bearer: Option<Token>, web: bool, cookie: Option<Token>)
    ensures var target, s' := LogoutTarget(s, bearer, web, cookie), LogoutStep(s, bearer, web, cookie);
            match target
            case None => s' == s
            case Some(t) => Verifies(s, t) && (s' == EndSession(s, t) || s' == Block(EndSession(s, t), t))
  {
  }

  lemma LogoutInv(cfg: Config, s: Store, bearer: Option<Token>, web: bool, cookie: Option<Token>)
    requires Inv(cfg, s)
    ensures Inv(cfg, LogoutStep(s, bearer, web, cookie))
  {
    LogoutCases(s, bearer, web, cookie);
    var target := LogoutTarget(s, bearer, web, cookie);
    if target.Some? {
      EndSessionInv(cfg, s, target.value);
      BlockInv(cfg, EndSession(s, target.value), target.value);
    }
  }

  lemma InvalidatePrunes(cfg: Config, s: Store, uid: Uid)
    requires Coupled(cfg, s)
    ensures Pruned(s, InvalidateStep(s, uid))
  {
  }

  lemma InvalidateInv(cfg: Config, s: Store, uid: Uid)
    requires Inv(cfg, s)
    ensures Inv(cfg, InvalidateStep(s, uid))
  {
    InvalidatePrunes(cfg, s, uid);
    PrunedInv(cfg, s, InvalidateStep(s, uid));
  }

  lemma StepInv(cfg: Config, s: Store, e: Event)
    requires Inv(cfg, s) && FreshEvent(s, e)
    ensures Inv(cfg, Step(cfg, s, e))
  {
    match e
    case Tick(_) =>
    case Login(uid, did, sid, aj, rj) => LoginInv(cfg, s, uid, did, sid, aj, rj);
    case Rotate(t, renew, aj, rj) => RotateInv(cfg, s, t, renew, aj, rj);
    case Logout(bearer, web, cookie) => LogoutInv(cfg, s, bearer, web, cookie);
    case InvalidateAll(uid) => InvalidateInv(cfg, s, uid);
  }

  lemma {:induction false} RunInv(cfg: Config, s: Store, es: seq<Event>)
    requires Inv(cfg, s) && FreshRun(cfg, s, es)
    ensures Inv(cfg, Run(cfg, s, es))
    decreases es
  {
    if es != [] {
      StepInv(cfg, s, es[0]);
      RunInv(cfg, Step(cfg, s, es[0]), es[1..]);
    }
  }

  /** A session is live exactly when its refresh key is, with the same user and expiry, and then it is
      listed in a live set of that user that expires no earlier. */
  ghost predicate SessionListed(s: Store, sid: Id) {
    && (Live(s.refresh, sid, s.now) <==> Live(s.sess, sid, s.now))
    && (Live(s.sess, sid, s.now) ==>
          var u := s.sess[sid].value.uid;
          && s.refresh[sid].value.uid == u
          && s.refresh[sid].expiry == s.sess[sid].expiry
          && Live(s.sids, u, s.now) && sid in s.sids[u].value
          && s.sess[sid].expiry.At? && s.sids[u].expiry.At?
          && s.sess[sid].expiry.time <= s.sids[u].expiry.time)
  }

  lemma InvListsSessions(cfg: Config, s: Store)
    requires Inv(cfg, s)
    ensures forall sid :: SessionListed(s, sid)
  {
  }

  /** In every reachable state every live session is listed. */
  lemma ReachableListed(cfg: Config, start: int, es: seq<Event>)
    requires cfg.refreshTtl > 0 && FreshRun(cfg, Initial(start), es)
    ensures forall sid :: SessionListed(Run(cfg, Initial(start), es), sid)
  {
    InitialInv(cfg, start);
    RunInv(cfg, Initial(start), es);
    InvListsSessions(cfg, Run(cfg, Initial(start), es));
  }

  // ----- the life of a refresh token -----

  lemma LoginSpends(cfg: Config, s: Store, uid: Uid, did: Did, sid: Id, aj: Id, rj: Id, t: Token)
    requires Inv(cfg, s) && FreshEvent(s, Login(uid, did, sid, aj, rj)) && t in s.issued
    ensures RefreshAccepted(LoginStep(cfg, s, uid, did, sid, aj, rj), t)
            <==> RefreshAccepted(s, t) && Get(s.device, did, s.now) != Some(t.sid)
  {
  }

  lemma InvalidateSpends(cfg: Config, s: Store, uid: Uid, t: Token)
    requires Inv(cfg, s) && t in s.issued
    ensures RefreshAccepted(InvalidateStep(s, uid), t) <==> RefreshAccepted(s, t) && t.uid != uid
  {
    if RefreshAccepted(s, t) {
      assert Live(s.sess, t.sid, s.now);
    }
  }

  lemma RotateSpends(cfg: Config, s: Store, x: Token, renew: bool, aj: Id, rj: Id, t: Token)
    requires Inv(cfg, s) && FreshEvent(s, Rotate(x, renew, aj, rj)) && t in s.issued
    ensures RefreshAccepted(RotateStep(cfg, s, x, renew, aj, rj), t) <==> RefreshAccepted(s, t) && !(renew && x == t)
  {
    if RefreshAccepted(s, x) && renew {
      RenewShape(cfg, s, x, aj, rj);
    }
  }

  lemma LogoutSpends(cfg: Config, s: Store, bearer: Option<Token>, web: bool, cookie: Option<Token>, t: Token)
    ensures RefreshAccepted(LogoutStep(s, bearer, web, cookie), t)
            <==> RefreshAccepted(s, t) && !Spends(s, Logout(bearer, web, cookie), t)
  {
    LogoutCases(s, bearer, web, cookie);
  }

  lemma StaysIssued(cfg: Config, s: Store, e: Event, t: Token)
    requires t in s.issued
    ensures t in Step(cfg, s, e).issued
  {
  }

  /** After one step a signed refresh token is accepted iff it was before and the step does not spend it. */
  lemma StepSpends(cfg: Config, s: Store, e: Event, t: Token)
    requires Inv(cfg, s) && FreshEvent(s, e) && t in s.issued
    ensures t in Step(cfg, s, e).issued
    ensures RefreshAccepted(Step(cfg, s, e), t) <==> RefreshAccepted(s, t) && !Spends(s, e, t)
  {
    StaysIssued(cfg, s, e, t);
    match e
    case Tick(_) => assert RefreshAccepted(s, t) ==> s.refresh[t.sid].expiry == At(t.exp);
    case Login(uid, did, sid, aj, rj) => LoginSpends(cfg, s, uid, did, sid, aj, rj, t);
    case Rotate(x, renew, aj, rj) => RotateSpends(cfg, s, x, renew, aj, rj, t);
    case Logout(bearer, web, cookie) => LogoutSpends(cfg, s, bearer, web, cookie, t);
    case InvalidateAll(uid) => InvalidateSpends(cfg, s, uid, t);
  }

  /** Over a whole run: a signed refresh token is accepted at the end iff it was accepted at the start
      and no event on the way spent it.  In particular a refused token is refused for ever. */
  lemma {:induction false} AcceptedIffUnspent(cfg: Config, s: Store, es: seq<Event>, t: Token)
    requires Inv(cfg, s) && FreshRun(cfg, s, es) && t in s.issued
    ensures RefreshAccepted(Run(cfg, s, es), t) <==> RefreshAccepted(s, t) && Unspent(cfg, s, es, t)
    decreases es
  {
    if es != [] {
      StepInv(cfg, s, es[0]);
      StepSpends(cfg, s, es[0], t);
      AcceptedIffUnspent(cfg, Step(cfg, s, es[0]), es[1..], t);
    }
  }

  /** Rotation hands out the one refresh token its session accepts from then on. */
  lemma RotationReplaces(cfg: Config, s: Store, t: Token, aj: Id, rj: Id)
    requires Inv(cfg, s) && FreshEvent(s, Rotate(t, true, aj, rj)) && RefreshAccepted(s, t)
    ensures var s' := RotateStep(cfg, s, t, true, aj, rj);
            forall x: Token | x.sid == t.sid ::
              RefreshAccepted(s', x) <==> x == RefreshToken(cfg, s, t.uid, t.did, t.sid, rj)
  {
  }

  /** A login yields tokens that are accepted at once. */
  lemma LoginGrants(cfg: Config, s: Store, uid: Uid, did: Did, sid: Id, aj: Id, rj: Id)
    requires Inv(cfg, s) && FreshEvent(s, Login(uid, did, sid, aj, rj))
    ensures var s' := LoginStep(cfg, s, uid, did, sid, aj, rj);
            && RefreshAccepted(s', RefreshToken(cfg, s, uid, did, sid, rj))
            && (cfg.accessTtl > 0 <==> BearerAccepted(s', AccessToken(cfg, s, uid, did, sid, aj)))
  {
  }

  /** After invalidate-all, whatever happens next, no token signed before for the user is exchanged or
      passes as a bearer token. */
  lemma InvalidatedForever(cfg: Config, s: Store, uid: Uid, es: seq<Event>, t: Token)
    requires Inv(cfg, s) && FreshRun(cfg, InvalidateStep(s, uid), es)
    requires t in s.issued && t.uid == uid
    ensures var s' := Run(cfg, InvalidateStep(s, uid), es);
            !RefreshAccepted(s', t) && !BearerAccepted(s', t)
  {
    InvalidateInv(cfg, s, uid);
    InvalidateSpends(cfg, s, uid, t);
    AcceptedIffUnspent(cfg, InvalidateStep(s, uid), es, t);
    InvalidateStopsBearer(cfg, s, uid, t);
    BearerRefusedForever(cfg, InvalidateStep(s, uid), es, t);
  }

  lemma InvalidateStopsBearer(cfg: Config, s: Store, uid: Uid, t: Token)
    requires Inv(cfg, s) && t in s.issued && t.uid == uid
    ensures !BearerAccepted(InvalidateStep(s, uid), t)
  {
    if Live(s.sess, t.sid, s.now) {
      assert s.sess[t.sid].value.uid == uid;
    }
  }

  lemma LoginRefuses(cfg: Config, s: Store, uid: Uid, did: Did, sid: Id, aj: Id, rj: Id, t: Token)
    requires Inv(cfg, s) && FreshEvent(s, Login(uid, did, sid, aj, rj)) && t in s.issued && !BearerAccepted(s, t)
    ensures !BearerAccepted(LoginStep(cfg, s, uid, did, sid, aj, rj), t)
  {
    assert t.sid != sid;
  }

  lemma RotateRefuses(cfg: Config, s: Store, x: Token, renew: bool, aj: Id, rj: Id, t: Token)
    requires Inv(cfg, s) && t in s.issued && !BearerAccepted(s, t)
    ensures !BearerAccepted(RotateStep(cfg, s, x, renew, aj, rj), t)
  {
    if RefreshAccepted(s, x) && renew {
      RenewShape(cfg, s, x, aj, rj);
      assert Live(s.sess, x.sid, s.now);
    }
  }

  lemma LogoutRefuses(cfg: Config, s: Store, bearer: Option<Token>, web: bool, cookie: Option<Token>, t: Token)
    requires Inv(cfg, s) && t in s.issued && !BearerAccepted(s, t)
    ensures !BearerAccepted(LogoutStep(s, bearer, web, cookie), t)
  {
    LogoutCases(s, bearer, web, cookie);
  }

  lemma TickRefuses(s: Store, d: nat, t: Token)
    requires Blacklisted(s.blacklist, s.issued) && t in s.issued && !BearerAccepted(s, t)
    ensures !BearerAccepted(s.(now := s.now + d), t)
  {
  }

  lemma BearerRefusedStep(cfg: Config, s: Store, e: Event, t: Token)
    requires Inv(cfg, s) && FreshEvent(s, e)
    requires t in s.issued && !BearerAccepted(s, t)
    ensures t in Step(cfg, s, e).issued && !BearerAccepted(Step(cfg, s, e), t)
  {
    StaysIssued(cfg, s, e, t);
    match e
    case Tick(d) => TickRefuses(s, d, t);
    case Login(uid, did, sid, aj, rj) => LoginRefuses(cfg, s, uid, did, sid, aj, rj, t);
    case Rotate(x, renew, aj, rj) => RotateRefuses(cfg, s, x, renew, aj, rj, t);
    case Logout(bearer, web, cookie) => LogoutRefuses(cfg, s, bearer, web, cookie, t);
    case InvalidateAll(_) =>
  }

  /** A bearer token refused for its blacklist entry, its session or its device key stays refused. */
  lemma {:induction false} BearerRefusedForever(cfg: Config, s: Store, es: seq<Event>, t: Token)
    requires Inv(cfg, s) && FreshRun(cfg, s, es)
    requires t in s.issued && !BearerAccepted(s, t)
    ensures !BearerAccepted(Run(cfg, s, es), t)
    decreases es
  {
    if es != [] {
      StepInv(cfg, s, es[0]);
      BearerRefusedStep(cfg, s, es[0], t);
      BearerRefusedForever(cfg, Step(cfg, s, es[0]), es[1..], t);
    }
  }

  // ----- one session per device -----

  lemma DisplacedOnePerDevice(cfg: Config, s: Store, uid: Uid, did: Did)
    requires Inv(cfg, s) && OnePerDevice(s)
    ensures var d := Displace(s, uid, did);
            OnePerDevice(d) && forall x | Live(d.sess, x, d.now) :: d.sess[x].value.did != did
  {
    var d := Displace(s, uid, did);
    forall x | Live(d.sess, x, d.now)
      ensures Live(s.sess, x, s.now) && d.sess[x] == s.sess[x]
    {
    }
  }

  lemma RegisteredOnePerDevice(cfg: Config, d: Store, uid: Uid, did: Did, sid: Id, aj: Id, rj: Id)
    requires OnePerDevice(d) && forall x | Live(d.sess, x, d.now) :: d.sess[x].value.did != did
    ensures OnePerDevice(Register(cfg, d, uid, did, sid, aj, rj))
  {
    var s' := Register(cfg, d, uid, did, sid, aj, rj);
    forall x | Live(s'.sess, x, s'.now) && x != sid
      ensures Live(d.sess, x, d.now) && s'.sess[x] == d.sess[x]
    {
    }
  }

  lemma LoginOnePerDevice(cfg: Config, s: Store, uid: Uid, did: Did, sid: Id, aj: Id, rj: Id)
    requires Inv(cfg, s) && OnePerDevice(s)
    ensures OnePerDevice(LoginStep(cfg, s, uid, did, sid, aj, rj))
  {
    DisplacedOnePerDevice(cfg, s, uid, did);
    RegisteredOnePerDevice(cfg, Displace(s, uid, did), uid, did, sid, aj, rj);
  }

  lemma RotateOnePerDevice(cfg: Config, s: Store, t: Token, renew: bool, aj: Id, rj: Id)
    requires Inv(cfg, s) && OnePerDevice(s)
    ensures OnePerDevice(RotateStep(cfg, s, t, renew, aj, rj))
  {
    if RefreshAccepted(s, t) && renew {
      RenewShape(cfg, s, t, aj, rj);
      assert Live(s.sess, t.sid, s.now);
    }
  }

  lemma PrunedOnePerDevice(s: Store, s': Store)
    requires OnePerDevice(s) && Pruned(s, s')
    requires forall sid | Live(s'.sess, sid, s.now) :: s.sess[sid].value.did in s'.device
    ensures OnePerDevice(s')
  {
    forall sid | Live(s'.sess, sid, s'.now)
      ensures Live(s.sess, sid, s.now)
    {
    }
  }

  lemma StepOnePerDevice(cfg: Config, s: Store, e: Event)
    requires Inv(cfg, s) && OnePerDevice(s) && FreshEvent(s, e)
    ensures OnePerDevice(Step(cfg, s, e)) <==> !StaleLogout(s, e)
  {
    match e
    case Tick(_) => assert forall sid | Live(s.sess, sid, Step(cfg, s, e).now) :: Live(s.sess, sid, s.now);
    case Login(uid, did, sid, aj, rj) => LoginOnePerDevice(cfg, s, uid, did, sid, aj, rj);
    case Rotate(t, renew, aj, rj) => RotateOnePerDevice(cfg, s, t, renew, aj, rj);
    case Logout(bearer, web, cookie) => LogoutOnePerDevice(cfg, s, bearer, web, cookie);
    case InvalidateAll(uid) =>
      InvalidatePrunes(cfg, s, uid);
      PrunedOnePerDevice(s, Step(cfg, s, e));
  }

  /** Ending the session of `t` is harmless unless the device key names another one that is live. */
  lemma EndSessionOnePerDevice(cfg: Config, s: Store, t: Token)
    requires Inv(cfg, s) && OnePerDevice(s) && t in s.issued
    ensures OnePerDevice(EndSession(s, t))
            <==> !(Live(s.device, t.did, s.now) && s.device[t.did].value != t.sid
                   && Live(s.sess, s.device[t.did].value, s.now))
  {
    var s' := EndSession(s, t);
    if Live(s.device, t.did, s.now) && s.device[t.did].value != t.sid && Live(s.sess, s.device[t.did].value, s.now) {
      assert Live(s'.sess, s.device[t.did].value, s'.now) && !Live(s'.device, t.did, s'.now);
    } else {
      forall sid | Live(s'.sess, sid, s.now)
        ensures s.sess[sid].value.did in s'.device
      {
        assert Live(s.sess, sid, s.now);
      }
      EndSessionPrunes(cfg, s, t);
      PrunedOnePerDevice(s, s');
    }
  }

  lemma LogoutOnePerDevice(cfg: Config, s: Store, bearer: Option<Token>, web: bool, cookie: Option<Token>)
    requires Inv(cfg, s) && OnePerDevice(s)
    ensures OnePerDevice(LogoutStep(s, bearer, web, cookie)) <==> !StaleLogout(s, Logout(bearer, web, cookie))
  {
    LogoutCases(s, bearer, web, cookie);
    var target := LogoutTarget(s, bearer, web, cookie);
    if target.Some? {
      EndSessionOnePerDevice(cfg, s, target.value);
      BlockOnePerDevice(EndSession(s, target.value), target.value);
    }
  }

  lemma BlockOnePerDevice(s: Store, t: Token)
    ensures OnePerDevice(Block(s, t)) <==> OnePerDevice(s)
  {
    assert forall sid :: Live(Block(s, t).sess, sid, s.now) <==> Live(s.sess, sid, s.now);
  }

  /** Over a whole run: every state has at most one live session per device, named by the device key,
      iff no logout on the way presents a token of a session that a later login has replaced. */
  lemma {:induction false} OnePerDeviceIffNoStaleLogout(cfg: Config, s: Store, es: seq<Event>)
    requires Inv(cfg, s) && OnePerDevice(s) && FreshRun(cfg, s, es)
    ensures AlwaysOnePerDevice(cfg, s, es) <==> NoStaleLogout(cfg, s, es)
    decreases es
  {
    if es != [] {
      StepInv(cfg, s, es[0]);
      StepOnePerDevice(cfg, s, es[0]);
      if !StaleLogout(s, es[0]) {
        OnePerDeviceIffNoStaleLogout(cfg, Step(cfg, s, es[0]), es[1..]);
      }
    }
  }

  /** A logout with another session's token, live on the same device, only deletes the device key. */
  lemma StaleLogoutKeepsSession(cfg: Config, s: Store, stale: Token, t: Token)
    requires Inv(cfg, s) && Verifies(s, stale) && t in s.issued
    requires RefreshAccepted(s, t) && stale.did == t.did && stale.sid != t.sid
    ensures var s' := LogoutStep(s, Some(stale), false, None);
            s' == Block(EndSession(s, stale), stale) && s'.used == s.used && s'.issued == s.issued
            && RefreshAccepted(s', t) && !Live(s'.device, t.did, s'.now)
  {
    assert LogoutTarget(s, Some(stale), false, None) == Some(stale);
  }

  lemma LoginHistory(cfg: Config, s: Store, uid: Uid, did: Did, sid: Id, aj: Id, rj: Id)
    requires Inv(cfg, s) && FreshEvent(s, Login(uid, did, sid, aj, rj))
    ensures var s' := LoginStep(cfg, s, uid, did, sid, aj, rj);
            && Inv(cfg, s') && s'.now == s.now && s'.used == s.used + {sid, aj, rj}
            && s'.issued == s.issued + {AccessToken(cfg, s, uid, did, sid, aj), RefreshToken(cfg, s, uid, did, sid, rj)}
  {
    LoginInv(cfg, s, uid, did, sid, aj, rj);
  }

  lemma LoginKeepsTokens(cfg: Config, s: Store, e: Event, t: Token)
    requires Inv(cfg, s) && FreshEvent(s, e) && e.Login? && Verifies(s, t)
    ensures var s', newToken := Step(cfg, s, e), RefreshToken(cfg, s, e.uid, e.did, e.sid, e.rj);
            Inv(cfg, s') && Verifies(s', t) && newToken in s'.issued && RefreshAccepted(s', newToken)
  {
    LoginHistory(cfg, s, e.uid, e.did, e.sid, e.aj, e.rj);
    LoginGrants(cfg, s, e.uid, e.did, e.sid, e.aj, e.rj);
  }

  /** From any state: a second login on a device, a logout with the first login's access token, a third
      login; both later sessions' refresh tokens are then accepted. */
  lemma TwoSessionsOnDevice(cfg: Config, s: Store, first: Token, e2: Event, e3: Event, e4: Event)
    requires Inv(cfg, s) && Verifies(s, first)
    requires e2.Login? && e4.Login? && e2.did == e4.did == first.did && e2.sid != first.sid
    requires e3 == Logout(Some(first), false, None)
    requires FreshEvent(s, e2) && FreshEvent(Step(cfg, s, e2), e4)
    ensures var s2 := Step(cfg, s, e2);
            var s3 := Step(cfg, s2, e3);
            var s4 := Step(cfg, s3, e4);
            && FreshEvent(s3, e4)
            && RefreshAccepted(s4, RefreshToken(cfg, s, e2.uid, e2.did, e2.sid, e2.rj))
            && RefreshAccepted(s4, RefreshToken(cfg, s3, e4.uid, e4.did, e4.sid, e4.rj))
  {
    var second := RefreshToken(cfg, s, e2.uid, e2.did, e2.sid, e2.rj);
    LoginKeepsTokens(cfg, s, e2, first);
    StaleLogoutKeepsSession(cfg, Step(cfg, s, e2), first, second);
    LogoutInv(cfg, Step(cfg, s, e2), Some(first), false, None);
    var s3 := Step(cfg, Step(cfg, s, e2), e3);
    LoginGrants(cfg, s3, e4.uid, e4.did, e4.sid, e4.aj, e4.rj);
    LoginSpends(cfg, s3, e4.uid, e4.did, e4.sid, e4.aj, e4.rj, second);
  }
}
