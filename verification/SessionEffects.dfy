/** What each session request does to the keys, said of the keys themselves, and how long the tokens it hands out
    are good for. */
module SessionEffects {
  import opened Options
  import opened Redis
  import opened Sessions
  import opened SessionProofs

  /** A token that is signed and has not run out. */
  predicate Usable(s: Store, t: Option<Token>) {
    t.Some? && t.value in s.issued && s.now < t.value.exp
  }

  predicate ListedFor(s: Store, uid: Uid, sid: Id) {
    Live(s.sids, uid, s.now) && sid in s.sids[uid].value
  }

  /** No token of the session is good for anything. */
  ghost predicate Ended(s: Store, sid: Id) {
    && sid !in s.sess && sid !in s.refresh
    && forall t: Token | t.sid == sid :: !RefreshAccepted(s, t) && !BearerAccepted(s, t)
  }

  // ----- logout -----

  lemma EndSessionLists(s: Store, t: Token)
    ensures var s' := EndSession(s, t);
            && (forall u, sid :: ListedFor(s', u, sid) <==> ListedFor(s, u, sid) && !(u == t.uid && sid == t.sid))
            && (forall u | u in s'.sids :: u in s.sids && s'.sids[u].expiry == s.sids[u].expiry)
  {
    var s' := EndSession(s, t);
    forall u, sid
      ensures ListedFor(s', u, sid) <==> ListedFor(s, u, sid) && !(u == t.uid && sid == t.sid)
    {
      if ListedFor(s, u, sid) && u == t.uid && sid != t.sid {
        assert sid in s.sids[u].value - {t.sid};
      }
    }
  }

  /** A bearer token of either kind ends its session, its device key and its place in the list, and is blocked for
      the rest of its life. */
  lemma LogoutByBearer(cfg: Config, s: Store, bearer: Option<Token>, web: bool, cookie: Option<Token>)
    requires Usable(s, bearer)
    ensures var t, s' := bearer.value, Step(cfg, s, Logout(bearer, web, cookie));
            && Ended(s', t.sid) && t.did !in s'.device && !ListedFor(s', t.uid, t.sid)
            && t.jti in s'.blacklist && s'.blacklist[t.jti].expiry == At(t.exp)
            && NothingElseEnds(s, s', t)
            && forall j | j != t.jti :: (j in s'.blacklist <==> j in s.blacklist)
                                        && (j in s.blacklist ==> s'.blacklist[j] == s.blacklist[j])
  {
    LogoutCases(s, bearer, web, cookie);
    EndSessionLists(s, bearer.value);
  }

  /** So does the refresh cookie of a web client that sends no usable bearer token, but nothing is blocked. */
  lemma LogoutByCookie(cfg: Config, s: Store, bearer: Option<Token>, cookie: Option<Token>)
    requires !Usable(s, bearer) && Usable(s, cookie) && cookie.value.kind == Refresh
    ensures var t, s' := cookie.value, Step(cfg, s, Logout(bearer, true, cookie));
            && Ended(s', t.sid) && t.did !in s'.device && !ListedFor(s', t.uid, t.sid)
            && s'.blacklist == s.blacklist && NothingElseEnds(s, s', t)
  {
    EndSessionLists(s, cookie.value);
  }

  /** Any other logout changes nothing. */
  lemma LogoutOtherwise(cfg: Config, s: Store, bearer: Option<Token>, web: bool, cookie: Option<Token>)
    requires !Usable(s, bearer) && !(web && Usable(s, cookie) && cookie.value.kind == Refresh)
    ensures Step(cfg, s, Logout(bearer, web, cookie)) == s
  {
  }

  /** Other sessions, devices and list entries stay, as do the clock and the histories. */
  ghost predicate NothingElseEnds(s: Store, s': Store, t: Token) {
    && s'.now == s.now && s'.used == s.used && s'.issued == s.issued
    && s'.sess == s.sess - {t.sid} && s'.refresh == s.refresh - {t.sid} && s'.device == s.device - {t.did}
    && (forall u, sid | u != t.uid || sid != t.sid :: ListedFor(s', u, sid) <==> ListedFor(s, u, sid))
    && (forall u | u in s'.sids :: u in s.sids && s'.sids[u].expiry == s.sids[u].expiry)
  }

  // ----- login -----

  /** The session the device key names, if it names one. */
  function Named(s: Store, did: Did): set<Id> {
    if Live(s.device, did, s.now) then {s.device[did].value} else {}
  }

  lemma DisplaceRemoves(s: Store, uid: Uid, did: Did)
    ensures var d := Displace(s, uid, did);
            d == s.(sess := s.sess - Named(s, did), refresh := s.refresh - Named(s, did), sids := d.sids)
  {
    assert s.sess - {} == s.sess && s.refresh - {} == s.refresh;
  }

  /** A login puts its own session in the place of the one its device key named, and leaves every other alone. */
  lemma LoginReplaces(cfg: Config, s: Store, uid: Uid, did: Did, sid: Id, aj: Id, rj: Id)
    requires Inv(cfg, s) && FreshEvent(s, Login(uid, did, sid, aj, rj))
    ensures var s', end := Step(cfg, s, Login(uid, did, sid, aj, rj)), s.now + cfg.refreshTtl;
            var access := Token(Access, uid, sid, did, aj, s.now + cfg.accessTtl);
            var refresh := Token(Refresh, uid, sid, did, rj, end);
            && s'.sess == (s.sess - Named(s, did))[sid := Entry(Sess(uid, did, aj, access.exp), At(end))]
            && s'.refresh == (s.refresh - Named(s, did))[sid := Entry(refresh, At(end))]
            && s'.device == s.device[did := Entry(sid, At(end))]
            && s'.issued == s.issued + {access, refresh}
            && s'.blacklist == s.blacklist && s'.now == s.now
            && uid in s'.sids && s'.sids[uid].expiry == At(end)
  {
    DisplaceRemoves(s, uid, did);
  }

  lemma LoginLists(cfg: Config, s: Store, uid: Uid, did: Did, sid: Id, aj: Id, rj: Id, u: Uid, x: Id)
    requires Inv(cfg, s) && FreshEvent(s, Login(uid, did, sid, aj, rj))
    ensures var s' := Step(cfg, s, Login(uid, did, sid, aj, rj));
            ListedFor(s', u, x)
            <==> if u != uid then ListedFor(s, u, x) else x == sid || (ListedFor(s, uid, x) && x !in Named(s, did))
  {
  }

  // ----- rotation -----

  /** A rotation that asks for no new refresh token only signs an access token. */
  lemma AccessOnly(cfg: Config, s: Store, t: Token, aj: Id, rj: Id)
    requires RefreshAccepted(s, t)
    ensures Step(cfg, s, Rotate(t, false, aj, rj))
         == s.(used := s.used + {aj},
               issued := s.issued + {Token(Access, t.uid, t.sid, t.did, aj, s.now + cfg.accessTtl)})
  {
  }

  // ----- invalidation -----

  /** Every listed session of the user and the list itself are gone; device keys and everything of other users
      stay. */
  lemma InvalidateEnds(cfg: Config, s: Store, uid: Uid)
    ensures var s' := Step(cfg, s, InvalidateAll(uid));
            && (forall sid | ListedFor(s, uid, sid) :: Ended(s', sid))
            && !Live(s'.sids, uid, s'.now)
            && (forall sid | !ListedFor(s, uid, sid) ::
                  && (sid in s'.sess <==> sid in s.sess) && (sid in s.sess ==> s'.sess[sid] == s.sess[sid])
                  && (sid in s'.refresh <==> sid in s.refresh) && (sid in s.refresh ==> s'.refresh[sid] == s.refresh[sid]))
            && (forall u, sid | u != uid :: ListedFor(s', u, sid) <==> ListedFor(s, u, sid))
            && s'.device == s.device && s'.blacklist == s.blacklist && s'.issued == s.issued
  {
  }

  // ----- lifetimes -----

  /** The refresh token of a login is good for `refreshTtl` seconds, its access token for `accessTtl`, if the session
      lasts as long. */
  lemma LoginLifetimes(cfg: Config, s: Store, uid: Uid, did: Did, sid: Id, aj: Id, rj: Id, d: nat)
    requires Inv(cfg, s) && FreshEvent(s, Login(uid, did, sid, aj, rj))
    ensures var s' := Step(cfg, Step(cfg, s, Login(uid, did, sid, aj, rj)), Tick(d));
            var access := Token(Access, uid, sid, did, aj, s.now + cfg.accessTtl);
            var refresh := Token(Refresh, uid, sid, did, rj, s.now + cfg.refreshTtl);
            && (RefreshAccepted(s', refresh) <==> d < cfg.refreshTtl)
            && (BearerAccepted(s', access) <==> d < cfg.accessTtl && d < cfg.refreshTtl)
  {
    LoginReplaces(cfg, s, uid, did, sid, aj, rj);
    assert aj !in s.blacklist;
  }

  /** A renewal starts both lifetimes anew; the access token is no good on a device that names no session or
      another one. */
  lemma RenewLifetimes(cfg: Config, s: Store, t: Token, aj: Id, rj: Id, d: nat)
    requires Inv(cfg, s) && FreshEvent(s, Rotate(t, true, aj, rj)) && RefreshAccepted(s, t)
    ensures var s' := Step(cfg, Step(cfg, s, Rotate(t, true, aj, rj)), Tick(d));
            var access := Token(Access, t.uid, t.sid, t.did, aj, s.now + cfg.accessTtl);
            var refresh := Token(Refresh, t.uid, t.sid, t.did, rj, s.now + cfg.refreshTtl);
            && (RefreshAccepted(s', refresh) <==> d < cfg.refreshTtl)
            && (BearerAccepted(s', access)
                <==> d < cfg.accessTtl && d < cfg.refreshTtl && t.sid in Named(s, t.did))
  {
    RenewShape(cfg, s, t, aj, rj);
    assert aj !in s.blacklist;
  }
}
