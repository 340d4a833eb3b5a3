/** Sessions and refresh tokens of src/auth/service.py as a timed state machine: one atomic step per
    request plus the passing of time, and what every run of it keeps. */
module Sessions {
  import opened Options
  import opened Redis

  /** Session ids and token ids, drawn at random by the source. */
  type Id = int
  type Uid = int
  type Did = int

  datatype Kind = Access | Refresh

  /** A signed token; `exp` as in section 4.1.4 of RFC 7519. */
  datatype Token = Token(kind: Kind, uid: Uid, sid: Id, did: Did, jti: Id, exp: int)

  /** The value of `sess:{sid}`. */
  datatype Sess = Sess(uid: Uid, did: Did, jti: Id, exp: int)

  datatype Config = Config(refreshTtl: int, accessTtl: int)

  /** The five key families, and two histories: every id ever drawn and every token ever signed. */
  datatype Store = Store(
    now: int,
    sess: Keyspace<Id, Sess>,
    refresh: Keyspace<Id, Token>,
    device: Keyspace<Did, Id>,
    sids: Keyspace<Uid, set<Id>>,
    blacklist: Keyspace<Id, int>,
    used: set<Id>,
    issued: set<Token>)

  function Initial(now: int): Store {
    Store(now, map[], map[], map[], map[], map[], {}, {})
  }

  // ----- what a token is good for -----

  /** Decoding checks the signature, so only signed tokens pass, and the expiry claim. */
  predicate Verifies(s: Store, t: Token) {
    t in s.issued && s.now < t.exp
  }

  /** The token can be exchanged at the rotation endpoint. */
  predicate RefreshAccepted(s: Store, t: Token) {
    Verifies(s, t) && t.kind == Refresh && Get(s.refresh, t.sid, s.now) == Some(t)
  }

  /** The token passes as a bearer token (its browser cookie taken as matching). */
  predicate BearerAccepted(s: Store, t: Token) {
    && Verifies(s, t)
    && !Live(s.blacklist, t.jti, s.now)
    && Live(s.sess, t.sid, s.now)
    && s.sess[t.sid].value.uid == t.uid
    && s.sess[t.sid].value.did == t.did
    && Get(s.device, t.did, s.now) == Some(t.sid)
  }

  // ----- steps -----

  /** Ends whatever session the device key points at, for the user now logging in. */
  function Displace(s: Store, uid: Uid, did: Did): Store {
    match Get(s.device, did, s.now)
    case None => s
    case Some(prev) =>
      s.(sess := Delete(s.sess, prev), refresh := Delete(s.refresh, prev), sids := SRem(s.sids, uid, prev, s.now))
  }

  function AccessToken(cfg: Config, s: Store, uid: Uid, did: Did, sid: Id, jti: Id): Token {
    Token(Access, uid, sid, did, jti, s.now + cfg.accessTtl)
  }

  function RefreshToken(cfg: Config, s: Store, uid: Uid, did: Did, sid: Id, jti: Id): Token {
    Token(Refresh, uid, sid, did, jti, s.now + cfg.refreshTtl)
  }

  /** Stores a new session under fresh ids and signs its two tokens. */
  function Register(cfg: Config, s: Store, uid: Uid, did: Did, sid: Id, aj: Id, rj: Id): Store {
    var access := AccessToken(cfg, s, uid, did, sid, aj);
    var refresh := RefreshToken(cfg, s, uid, did, sid, rj);
    s.(sess := SetEx(s.sess, sid, Sess(uid, did, aj, access.exp), s.now, cfg.refreshTtl),
       refresh := SetEx(s.refresh, sid, refresh, s.now, cfg.refreshTtl),
       device := SetEx(s.device, did, sid, s.now, cfg.refreshTtl),
       sids := Expire(SAdd(s.sids, uid, sid, s.now), uid, s.now, cfg.refreshTtl),
       used := s.used + {sid, aj, rj},
       issued := s.issued + {access, refresh})
  }

  function LoginStep(cfg: Config, s: Store, uid: Uid, did: Did, sid: Id, aj: Id, rj: Id): Store {
    Register(cfg, Displace(s, uid, did), uid, did, sid, aj, rj)
  }

  /** Exchanges a refresh token for an access token and, if `renew`, for a new refresh token. */
  function RotateStep(cfg: Config, s: Store, t: Token, renew: bool, aj: Id, rj: Id): Store {
    if !RefreshAccepted(s, t) then s
    else
      var access := AccessToken(cfg, s, t.uid, t.did, t.sid, aj);
      if !renew then s.(used := s.used + {aj}, issued := s.issued + {access})
      else
        var refresh := RefreshToken(cfg, s, t.uid, t.did, t.sid, rj);
        s.(refresh := SetEx(s.refresh, t.sid, refresh, s.now, cfg.refreshTtl),
           sess := Expire(s.sess, t.sid, s.now, cfg.refreshTtl),
           device := Expire(s.device, t.did, s.now, cfg.refreshTtl),
           sids := Expire(s.sids, t.uid, s.now, cfg.refreshTtl),
           used := s.used + {aj, rj},
           issued := s.issued + {access, refresh})
  }

  /** The token a logout request acts on: a bearer token of either kind, else a web refresh cookie. */
  function LogoutTarget(s: Store, bearer: Option<Token>, web: bool, cookie: Option<Token>): Option<Token> {
    if bearer.Some? && Verifies(s, bearer.value) then bearer
    else if web && cookie.Some? && Verifies(s, cookie.value) && cookie.value.kind == Refresh then cookie
    else None
  }

  /** Deletes the keys named by a token's claims; the stored session is not consulted. */
  function EndSession(s: Store, t: Token): Store {
    s.(sess := Delete(s.sess, t.sid),
       refresh := Delete(s.refresh, t.sid),
       device := Delete(s.device, t.did),
       sids := SRem(s.sids, t.uid, t.sid, s.now))
  }

  /** Blocks a token id for the rest of its token's life. */
  function Block(s: Store, t: Token): Store {
    s.(blacklist := SetEx(s.blacklist, t.jti, 1, s.now, t.exp - s.now))
  }

  function LogoutStep(s: Store, bearer: Option<Token>, web: bool, cookie: Option<Token>): Store {
    match LogoutTarget(s, bearer, web, cookie)
    case None => s
    case Some(t) => if bearer == Some(t) then Block(EndSession(s, t), t) else EndSession(s, t)
  }

  /** Deletes every session listed for the user, and the list; device keys stay. */
  function InvalidateStep(s: Store, uid: Uid): Store {
    match Get(s.sids, uid, s.now)
    case None => s
    case Some(members) =>
      s.(sess := s.sess - members, refresh := s.refresh - members, sids := Delete(s.sids, uid))
  }

  // ----- runs -----

  datatype Event =
    | Tick(seconds: nat)
    | Login(uid: Uid, did: Did, sid: Id, aj: Id, rj: Id)
    | Rotate(token: Token, renew: bool, aj: Id, rj: Id)
    | Logout(bearer: Option<Token>, web: bool, cookie: Option<Token>)
    | InvalidateAll(uid: Uid)

  function Step(cfg: Config, s: Store, e: Event): Store {
    match e
    case Tick(d) => s.(now := s.now + d)
    case Login(uid, did, sid, aj, rj) => LoginStep(cfg, s, uid, did, sid, aj, rj)
    case Rotate(t, renew, aj, rj) => RotateStep(cfg, s, t, renew, aj, rj)
    case Logout(bearer, web, cookie) => LogoutStep(s, bearer, web, cookie)
    case InvalidateAll(uid) => InvalidateStep(s, uid)
  }

  /** Random ids never repeat. */
  predicate FreshEvent(s: Store, e: Event) {
    match e
    case Login(_, _, sid, aj, rj) => {sid, aj, rj} !! s.used && sid != aj && sid != rj && aj != rj
    case Rotate(_, _, aj, rj) => {aj, rj} !! s.used && aj != rj
    case _ => true
  }

  function Run(cfg: Config, s: Store, es: seq<Event>): Store
    decreases es
  {
    if es == [] then s else Run(cfg, Step(cfg, s, es[0]), es[1..])
  }

  predicate FreshRun(cfg: Config, s: Store, es: seq<Event>)
    decreases es
  {
    es != [] ==> FreshEvent(s, es[0]) && FreshRun(cfg, Step(cfg, s, es[0]), es[1..])
  }

  // ----- the invariant -----

  /** `sess` and `refresh` are written, extended and deleted together. */
  ghost predicate Coupled(cfg: Config, s: Store) {
    && s.sess.Keys == s.refresh.Keys
    && forall sid | sid in s.sess ::
        && s.sess[sid].expiry.At?
        && s.refresh[sid].expiry == s.sess[sid].expiry
        && s.sess[sid].expiry.time <= s.now + cfg.refreshTtl
        && var v, r := s.sess[sid].value, s.refresh[sid].value;
           r in s.issued && r.kind == Refresh && r.sid == sid && r.uid == v.uid && r.did == v.did
           && r.exp == s.sess[sid].expiry.time
  }

  /** A live session is listed in a live set of its user that outlives it. */
  ghost predicate Listed(s: Store) {
    && (forall u | u in s.sids :: s.sids[u].expiry.At?)
    && forall sid | Live(s.sess, sid, s.now) ::
        var u := s.sess[sid].value.uid;
        Live(s.sids, u, s.now) && sid in s.sids[u].value
        && (s.sess[sid].expiry.At? ==> s.sess[sid].expiry.time <= s.sids[u].expiry.time)
  }

  /** A token id identifies a signed token, and a blacklist entry lasts as long as its token. */
  ghost predicate DistinctJtis(issued: set<Token>) {
    forall t, t' | t in issued && t' in issued && t.jti == t'.jti :: t == t'
  }

  ghost predicate Blacklisted(blacklist: Keyspace<Id, int>, issued: set<Token>) {
    forall t | t in issued && t.jti in blacklist :: blacklist[t.jti].expiry == At(t.exp)
  }

  /** The history of ids covers the store and the tokens. */
  ghost predicate IdsUsed(s: Store) {
    && s.sess.Keys <= s.used
    && s.blacklist.Keys <= s.used
    && (forall t | t in s.issued :: t.jti in s.used && t.sid in s.used)
    && (forall u, sid | u in s.sids && sid in s.sids[u].value :: sid in s.used)
    && (forall d | d in s.device :: s.device[d].value in s.used)
  }

  /** The claims of every token agree with the stored session. */
  ghost predicate ClaimsAgree(s: Store) {
    forall t | t in s.issued && t.sid in s.sess ::
      s.sess[t.sid].value.uid == t.uid && s.sess[t.sid].value.did == t.did
  }

  /** A listed session is its user's, and a device key names a session of that device. */
  ghost predicate NamesAgree(s: Store) {
    && (forall u, sid | u in s.sids && sid in s.sids[u].value && sid in s.sess :: s.sess[sid].value.uid == u)
    && (forall d | d in s.device && s.device[d].value in s.sess :: s.sess[s.device[d].value].value.did == d)
  }

  ghost predicate Recorded(s: Store) {
    IdsUsed(s) && DistinctJtis(s.issued) && Blacklisted(s.blacklist, s.issued) && ClaimsAgree(s) && NamesAgree(s)
  }

  ghost predicate Inv(cfg: Config, s: Store) {
    cfg.refreshTtl > 0 && Coupled(cfg, s) && Listed(s) && Recorded(s)
  }

  // ----- specifications over runs -----

  /** The one way each event ends a refresh token that is accepted before it. */
  predicate Spends(s: Store, e: Event, t: Token) {
    match e
    case Tick(d) => t.exp <= s.now + d
    case Login(_, did, _, _, _) => Get(s.device, did, s.now) == Some(t.sid)
    case Rotate(x, renew, _, _) => renew && x == t
    case Logout(bearer, web, cookie) =>
      var target := LogoutTarget(s, bearer, web, cookie);
      target.Some? && target.value.sid == t.sid
    case InvalidateAll(uid) => t.uid == uid
  }

  predicate Unspent(cfg: Config, s: Store, es: seq<Event>, t: Token)
    decreases es
  {
    es != [] ==> !Spends(s, es[0], t) && Unspent(cfg, Step(cfg, s, es[0]), es[1..], t)
  }

  /** Every live session is the one its device key names, and they expire together. */
  ghost predicate OnePerDevice(s: Store) {
    forall sid | Live(s.sess, sid, s.now) ::
      var d := s.sess[sid].value.did;
      Live(s.device, d, s.now) && s.device[d].value == sid && s.device[d].expiry == s.sess[sid].expiry
  }

  /** A logout whose token belongs to a session that a later login on the device has replaced. */
  predicate StaleLogout(s: Store, e: Event) {
    e.Logout?
    && var target := LogoutTarget(s, e.bearer, e.web, e.cookie);
       target.Some?
       && var named := Get(s.device, target.value.did, s.now);
          named.Some? && named.value != target.value.sid && Live(s.sess, named.value, s.now)
  }

  ghost predicate AlwaysOnePerDevice(cfg: Config, s: Store, es: seq<Event>)
    decreases es
  {
    OnePerDevice(s) && (es != [] ==> AlwaysOnePerDevice(cfg, Step(cfg, s, es[0]), es[1..]))
  }

  predicate NoStaleLogout(cfg: Config, s: Store, es: seq<Event>)
    decreases es
  {
    es != [] ==> !StaleLogout(s, es[0]) && NoStaleLogout(cfg, Step(cfg, s, es[0]), es[1..])
  }
}
