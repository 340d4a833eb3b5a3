/** The session part of the service, command by command, proved against the steps of `Sessions`. */
module AuthService {
  import opened Options
  import opened Redis
  import opened Sessions

  datatype Reason = TokenExpired | TokenInvalid | NotARefreshToken | NotTheSavedToken

  datatype Rotation = Rotated(access: Token, refresh: Option<Token>) | Rejected(reason: Reason)

  datatype LoginResult = LoggedIn(access: Token, refresh: Token) | DeviceHeaderMissing

  class AuthService {
    const cfg: Config
    var now: int
    var sess: Keyspace<Id, Sess>
    var refresh: Keyspace<Id, Token>
    var device: Keyspace<Did, Id>
    var sids: Keyspace<Uid, set<Id>>
    var blacklist: Keyspace<Id, int>
    /** The tokens that carry the server's signature. */
    var issued: set<Token>
    ghost var used: set<Id>

    ghost function View(): Store
      reads this
    {
      Store(now, sess, refresh, device, sids, blacklist, used, issued)
    }

    constructor (cfg: Config, now: int)
      requires cfg.refreshTtl > 0
      ensures this.cfg == cfg && View() == Initial(now)
    {
      this.cfg := cfg;
      this.now := now;
      sess, refresh, device, sids, blacklist := map[], map[], map[], map[], map[];
      issued, used := {}, {};
    }

    method Pass(seconds: nat)
      modifies this
      ensures View() == Step(cfg, old(View()), Tick(seconds))
    {
      now := now + seconds;
    }

    /** `did` is the browser id of a web client or the device header, which may be missing. */
    method LoginUser(uid: Uid, did: Option<Did>, sid: Id, aj: Id, rj: Id) returns (r: LoginResult)
      requires FreshEvent(View(), Login(uid, 0, sid, aj, rj))
      modifies this
      ensures did == None ==> r == DeviceHeaderMissing && View() == old(View())
      ensures did != None ==>
                && View() == Step(cfg, old(View()), Login(uid, did.value, sid, aj, rj))
                && r == LoggedIn(AccessToken(cfg, old(View()), uid, did.value, sid, aj),
                                 RefreshToken(cfg, old(View()), uid, did.value, sid, rj))
    {
      if did.None? {
        return DeviceHeaderMissing;
      }
      EndPreviousSession(uid, did.value);
      var access, newRefresh := StoreSession(uid, did.value, sid, aj, rj);
      r := LoggedIn(access, newRefresh);
    }

    method EndPreviousSession(uid: Uid, did: Did)
      modifies this`sess, this`refresh, this`sids
      ensures View() == Displace(old(View()), uid, did)
    {
      var prev := Get(device, did, now);
      if prev.Some? {
        sess := Delete(sess, prev.value);
        refresh := Delete(refresh, prev.value);
        sids := SRem(sids, uid, prev.value, now);
      }
    }

    method StoreSession(uid: Uid, did: Did, sid: Id, aj: Id, rj: Id) returns (access: Token, newRefresh: Token)
      modifies this
      ensures View() == Register(cfg, old(View()), uid, did, sid, aj, rj)
      ensures access == AccessToken(cfg, old(View()), uid, did, sid, aj)
      ensures newRefresh == RefreshToken(cfg, old(View()), uid, did, sid, rj)
    {
      access := Token(Access, uid, sid, did, aj, now + cfg.accessTtl);
      newRefresh := Token(Refresh, uid, sid, did, rj, now + cfg.refreshTtl);
      issued := issued + {access, newRefresh};
      used := used + {sid, aj, rj};

      sess := SetEx(sess, sid, Sess(uid, did, aj, access.exp), now, cfg.refreshTtl);
      refresh := SetEx(refresh, sid, newRefresh, now, cfg.refreshTtl);
      device := SetEx(device, did, sid, now, cfg.refreshTtl);
      sids := SAdd(sids, uid, sid, now);
      sids := Expire(sids, uid, now, cfg.refreshTtl);
    }

    /** A presented token is rejected for the first check it fails, and nothing changes. */
    method RotateToken(t: Token, renew: bool, aj: Id, rj: Id) returns (r: Rotation)
      requires FreshEvent(View(), Rotate(t, renew, aj, rj))
      modifies this
      ensures View() == Step(cfg, old(View()), Rotate(t, renew, aj, rj))
      ensures r.Rotated? <==> RefreshAccepted(old(View()), t)
      ensures r.Rotated? ==>
                && r.access == AccessToken(cfg, old(View()), t.uid, t.did, t.sid, aj)
                && r.refresh == if renew then Some(RefreshToken(cfg, old(View()), t.uid, t.did, t.sid, rj)) else None
      ensures r == Rejected(TokenInvalid) <==> t !in old(issued)
      ensures r == Rejected(TokenExpired) <==> t in old(issued) && t.exp <= old(now)
      ensures r == Rejected(NotARefreshToken) <==> Verifies(old(View()), t) && t.kind != Refresh
    {
      if t !in issued {
        return Rejected(TokenInvalid);
      }
      if t.exp <= now {
        return Rejected(TokenExpired);
      }
      if t.kind != Refresh {
        return Rejected(NotARefreshToken);
      }
      var saved := Get(refresh, t.sid, now);
      if saved.None? || saved.value != t {
        return Rejected(NotTheSavedToken);
      }

      var access := Token(Access, t.uid, t.sid, t.did, aj, now + cfg.accessTtl);
      if !renew {
        issued := issued + {access};
        used := used + {aj};
        return Rotated(access, None);
      }
      var newRefresh := Renew(t, access, rj);
      r := Rotated(access, Some(newRefresh));
    }

    /** Signs a new refresh token, stores it in place of the old one and extends the session's keys. */
    method Renew(t: Token, access: Token, rj: Id) returns (newRefresh: Token)
      requires RefreshAccepted(View(), t) && access == AccessToken(cfg, View(), t.uid, t.did, t.sid, access.jti)
      modifies this
      ensures View() == RotateStep(cfg, old(View()), t, true, access.jti, rj)
      ensures newRefresh == RefreshToken(cfg, old(View()), t.uid, t.did, t.sid, rj)
    {
      newRefresh := Token(Refresh, t.uid, t.sid, t.did, rj, now + cfg.refreshTtl);
      issued := issued + {access, newRefresh};
      used := used + {access.jti, rj};
      refresh := SetEx(refresh, t.sid, newRefresh, now, cfg.refreshTtl);
      sess := Expire(sess, t.sid, now, cfg.refreshTtl);
      device := Expire(device, t.did, now, cfg.refreshTtl);
      sids := Expire(sids, t.uid, now, cfg.refreshTtl);
    }

    /** A bearer token of either kind comes first, then the refresh cookie of a web client. */
    method Logout(bearer: Option<Token>, web: bool, cookie: Option<Token>)
      modifies this
      ensures View() == Step(cfg, old(View()), Event.Logout(bearer, web, cookie))
    {
      if bearer.Some? && bearer.value in issued && now < bearer.value.exp {
        var t := bearer.value;
        DeleteSession(t);
        blacklist := SetEx(blacklist, t.jti, 1, now, t.exp - now);
        return;
      }
      if web && cookie.Some? && cookie.value in issued && now < cookie.value.exp && cookie.value.kind == Refresh {
        DeleteSession(cookie.value);
      }
    }

    method DeleteSession(t: Token)
      modifies this
      ensures View() == EndSession(old(View()), t)
    {
      sess := Delete(sess, t.sid);
      refresh := Delete(refresh, t.sid);
      device := Delete(device, t.did);
      sids := SRem(sids, t.uid, t.sid, now);
    }

    method InvalidateAllUserSessions(uid: Uid)
      modifies this
      ensures View() == Step(cfg, old(View()), InvalidateAll(uid))
    {
      var members := Get(sids, uid, now);
      if members.None? {
        return;
      }
      DeleteSessions(members.value);
      sids := Delete(sids, uid);
    }

    method DeleteSessions(members: set<Id>)
      modifies this`sess, this`refresh
      ensures sess == old(sess) - members && refresh == old(refresh) - members
    {
      var rest := members;
      while exists sid :: sid in rest
        invariant rest <= members
        invariant sess == old(sess) - (members - rest)
        invariant refresh == old(refresh) - (members - rest)
        decreases rest
      {
        var sid :| sid in rest;
        sess := Delete(sess, sid);
        refresh := Delete(refresh, sid);
        rest := rest - {sid};
      }
      assert members - rest == members;
    }
  }
}
