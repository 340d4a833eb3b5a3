/** One-time codes of src/auth/service.py: the code, its try counter, the send limiter and the single-use
    "ok" key.  The service has three instances with keys of their own; `flow` says which one a store is. */
module Otp {
  import opened Options
  import opened Redis

  type Addr = int
  type Code = int
  /** Request ids, drawn at random by the source. */
  type Req = int

  datatype Flow = Reset | Signup | Driver

  datatype Config = Config(
    flow: Flow, sendLimit: int, blockSec: int, maxTries: int, otpTtl: int, okTtl: int, grace: int)
  {
    predicate Valid() {
      blockSec > 0 && otpTtl > 0 && okTtl > 0 && grace >= 0
    }
  }

  /** The stored triple `code|request_id|exp`. */
  datatype Issue = Issue(code: Code, req: Req, exp: int)

  /** An accepted send: when, and in which counting window. */
  datatype Send = Send(addr: Addr, time: int, window: int)

  /** Four key families, and two histories: the address of every issued request, every accepted send. */
  datatype Store = Store(
    now: int,
    otp: Keyspace<Addr, Issue>,
    tries: Keyspace<Addr, int>,
    sends: Keyspace<Addr, int>,
    ok: Keyspace<Addr, Req>,
    owner: map<Req, Addr>,
    log: seq<Send>)

  function Initial(now: int): Store {
    Store(now, map[], map[], map[], map[], map[], [])
  }

  // ----- sending a code -----

  /** The send counter after one more request; the first request of a window sets its end. */
  function Counted(cfg: Config, s: Store, a: Addr): Keyspace<Addr, int> {
    var m := Incr(s.sends, a, s.now);
    if m[a].value == 1 then Expire(m, a, s.now, cfg.blockSec) else m
  }

  predicate SendAllowed(cfg: Config, s: Store, a: Addr) {
    a in Counted(cfg, s, a) && Counted(cfg, s, a)[a].value <= cfg.sendLimit
  }

  /** A refusal sets the counter's remaining time again, except for drivers. */
  function Refused(cfg: Config, s: Store, a: Addr): Keyspace<Addr, int> {
    var m := Counted(cfg, s, a);
    if cfg.flow == Driver then m
    else
      var ttl := Ttl(m, a, s.now);
      Expire(m, a, s.now, if ttl < 0 then cfg.blockSec else ttl)
  }

  /** The start of the counting window a key's expiry stands for. */
  function WindowOf(cfg: Config, m: Keyspace<Addr, int>, a: Addr): int {
    if a in m && m[a].expiry.At? then m[a].expiry.time - cfg.blockSec else 0
  }

  function RequestStep(cfg: Config, s: Store, a: Addr, code: Code, req: Req): Store {
    if !SendAllowed(cfg, s, a) then s.(sends := Refused(cfg, s, a))
    else
      var m := Counted(cfg, s, a);
      s.(sends := m,
         otp := SetEx(s.otp, a, Issue(code, req, s.now + cfg.otpTtl), s.now, cfg.otpTtl + cfg.grace),
         tries := Delete(s.tries, a),
         owner := s.owner[req := a],
         log := s.log + [Send(a, s.now, WindowOf(cfg, m, a))])
  }

  // ----- verifying a code -----

  datatype Verdict = NotFound | Mismatch | Expired | WrongCode(left: int) | TooManyTries | Verified

  /** The number of wrong guesses counted against the code now stored. */
  function Tried(s: Store, a: Addr): int {
    if Live(s.tries, a, s.now) then s.tries[a].value else 0
  }

  function VerdictOf(cfg: Config, s: Store, a: Addr, req: Req, code: Code): Verdict {
    match Get(s.otp, a, s.now)
    case None => NotFound
    case Some(issue) =>
      if req != issue.req then Mismatch
      else if s.now > issue.exp + cfg.grace then Expired
      else if code == issue.code then Verified
      else if Tried(s, a) + 1 >= cfg.maxTries then TooManyTries
      else WrongCode(cfg.maxTries - (Tried(s, a) + 1))
  }

  function OkLife(cfg: Config): int {
    if cfg.flow == Signup then cfg.okTtl + cfg.grace else cfg.okTtl
  }

  function VerifyStep(cfg: Config, s: Store, a: Addr, req: Req, code: Code): Store {
    match VerdictOf(cfg, s, a, req, code)
    case Verified => if cfg.flow == Reset then s else s.(ok := SetEx(s.ok, a, req, s.now, OkLife(cfg)))
    case WrongCode(_) =>
      var left := s.otp[a].value.exp + cfg.grace - s.now;
      s.(tries := Expire(Incr(s.tries, a, s.now), a, s.now, if left < 1 then 1 else left))
    case TooManyTries => s.(otp := Delete(s.otp, a), tries := Delete(s.tries, a))
    case _ => s
  }

  // ----- using a verified request -----

  /** A reset needs the stored request itself; sign-up and driver login need the ok key.
      `accountOk` stands for the checks on the account (and on the new password). */
  predicate Passes(cfg: Config, s: Store, a: Addr, req: Req, accountOk: bool) {
    match cfg.flow
    case Reset =>
      var issue := Get(s.otp, a, s.now);
      issue.Some? && issue.value.req == req && s.now <= issue.value.exp + cfg.grace && accountOk
    case Signup => Get(s.ok, a, s.now) == Some(req)
    case Driver => Get(s.ok, a, s.now) == Some(req) && accountOk
  }

  function ConsumeStep(cfg: Config, s: Store, a: Addr, req: Req, accountOk: bool): Store {
    if !Passes(cfg, s, a, req, accountOk) then s
    else match cfg.flow
      case Reset => s.(otp := Delete(s.otp, a), tries := Delete(s.tries, a))
      case Signup => s.(ok := Delete(s.ok, a), otp := Delete(s.otp, a), tries := Delete(s.tries, a))
      case Driver => s.(ok := Delete(s.ok, a))
  }

  // ----- runs -----

  datatype Event =
    | Tick(seconds: nat)
    | Request(addr: Addr, code: Code, req: Req)
    | Verify(addr: Addr, req: Req, code: Code)
    | Consume(addr: Addr, req: Req, accountOk: bool)

  function Step(cfg: Config, s: Store, e: Event): Store {
    match e
    case Tick(d) => s.(now := s.now + d)
    case Request(a, code, req) => RequestStep(cfg, s, a, code, req)
    case Verify(a, req, code) => VerifyStep(cfg, s, a, req, code)
    case Consume(a, req, accountOk) => ConsumeStep(cfg, s, a, req, accountOk)
  }

  predicate FreshEvent(s: Store, e: Event) {
    e.Request? ==> e.req !in s.owner
  }

  function Run(cfg: Config, s: Store, es: seq<Event>): Store
    decreases es
  {
    if es == [] then s else Run(cfg, Step(cfg, s, es[0]), es[1..])
  }

  predicate FreshRun(cfg: Config, s: Store, es: seq<Event>)
    decreases es
  {
    es != [] ==> FreshEvent(s, es[0]) && FreshRun(cfg, Step(cfg, s, es[0]), es[1..])
  }

  // ----- what a run is counted for -----

  /** The event compares a wrong code with the code issued under `req`. */
  predicate WrongGuess(cfg: Config, s: Store, e: Event, req: Req) {
    e.Verify? && e.req == req
    && var v := VerdictOf(cfg, s, e.addr, e.req, e.code);
       v.WrongCode? || v.TooManyTries?
  }

  /** The event compares a wrong code with the code stored for `a`. */
  predicate WrongGuessAt(cfg: Config, s: Store, e: Event, a: Addr) {
    e.Verify? && e.addr == a && WrongGuess(cfg, s, e, e.req)
  }

  predicate Accepted(cfg: Config, s: Store, e: Event, a: Addr, lo: int, hi: int) {
    e.Request? && e.addr == a && SendAllowed(cfg, s, a) && lo <= s.now < hi
  }

  predicate VerifiedAt(cfg: Config, s: Store, e: Event, a: Addr) {
    e.Verify? && e.addr == a && VerdictOf(cfg, s, a, e.req, e.code) == Verified
  }

  predicate ConsumedAt(cfg: Config, s: Store, e: Event, a: Addr) {
    e.Consume? && e.addr == a && Passes(cfg, s, a, e.req, e.accountOk)
  }

  predicate ConsumedUnder(cfg: Config, s: Store, e: Event, req: Req) {
    e.Consume? && e.req == req && Passes(cfg, s, e.addr, req, e.accountOk)
  }

  /** The number of steps of a run at which `p` holds of the state before and the event. */
  function CountSteps(cfg: Config, s: Store, es: seq<Event>, p: (Store, Event) -> bool): nat
    decreases es
  {
    if es == [] then 0
    else (if p(s, es[0]) then 1 else 0) + CountSteps(cfg, Step(cfg, s, es[0]), es[1..], p)
  }

  function GuessesUnder(cfg: Config, req: Req): (Store, Event) -> bool {
    (x, e) => WrongGuess(cfg, x, e, req)
  }

  function WrongGuesses(cfg: Config, s: Store, es: seq<Event>, req: Req): nat {
    CountSteps(cfg, s, es, GuessesUnder(cfg, req))
  }

  function GuessesAt(cfg: Config, a: Addr, lo: int, hi: int): (Store, Event) -> bool {
    (x, e) => WrongGuessAt(cfg, x, e, a) && lo <= x.now < hi
  }

  /** Wrong codes compared for `a` at times in the half-open interval from `lo` to `hi`, whatever code they were
      compared with. */
  function GuessesIn(cfg: Config, s: Store, es: seq<Event>, a: Addr, lo: int, hi: int): nat {
    CountSteps(cfg, s, es, GuessesAt(cfg, a, lo, hi))
  }

  /** Sends accepted to `a` at times in the half-open interval from `lo` to `hi`. */
  function AcceptedSends(cfg: Config, s: Store, es: seq<Event>, a: Addr, lo: int, hi: int): nat {
    CountSteps(cfg, s, es, (x, e) => Accepted(cfg, x, e, a, lo, hi))
  }

  function Verifies(cfg: Config, s: Store, es: seq<Event>, a: Addr): nat {
    CountSteps(cfg, s, es, (x, e) => VerifiedAt(cfg, x, e, a))
  }

  function Consumptions(cfg: Config, s: Store, es: seq<Event>, a: Addr): nat {
    CountSteps(cfg, s, es, (x, e) => ConsumedAt(cfg, x, e, a))
  }

  function UsesUnder(cfg: Config, req: Req): (Store, Event) -> bool {
    (x, e) => ConsumedUnder(cfg, x, e, req)
  }

  function ConsumptionsUnder(cfg: Config, s: Store, es: seq<Event>, req: Req): nat {
    CountSteps(cfg, s, es, UsesUnder(cfg, req))
  }

  // ----- runs in parts -----

  lemma {:induction false} RunAppend(cfg: Config, s: Store, es: seq<Event>, fs: seq<Event>)
    ensures Run(cfg, s, es + fs) == Run(cfg, Run(cfg, s, es), fs)
    ensures FreshRun(cfg, s, es + fs) <==> FreshRun(cfg, s, es) && FreshRun(cfg, Run(cfg, s, es), fs)
    decreases es
  {
    if es == [] {
      assert es + fs == fs;
    } else {
      assert (es + fs)[1..] == es[1..] + fs;
      RunAppend(cfg, Step(cfg, s, es[0]), es[1..], fs);
    }
  }

  lemma {:induction false} CountAppend(cfg: Config, s: Store, es: seq<Event>, fs: seq<Event>, p: (Store, Event) -> bool)
    ensures CountSteps(cfg, s, es + fs, p) == CountSteps(cfg, s, es, p) + CountSteps(cfg, Run(cfg, s, es), fs, p)
    decreases es
  {
    if es == [] {
      assert es + fs == fs;
    } else {
      assert (es + fs)[1..] == es[1..] + fs;
      CountAppend(cfg, Step(cfg, s, es[0]), es[1..], fs, p);
    }
  }

  /** One event more. */
  lemma RunSnoc(cfg: Config, s: Store, es: seq<Event>, e: Event, p: (Store, Event) -> bool)
    ensures Run(cfg, s, es + [e]) == Step(cfg, Run(cfg, s, es), e)
    ensures FreshRun(cfg, s, es + [e]) <==> FreshRun(cfg, s, es) && FreshEvent(Run(cfg, s, es), e)
    ensures CountSteps(cfg, s, es + [e], p) == CountSteps(cfg, s, es, p) + (if p(Run(cfg, s, es), e) then 1 else 0)
  {
    RunAppend(cfg, s, es, [e]);
    CountAppend(cfg, s, es, [e], p);
    var x := Run(cfg, s, es);
    assert [e][1..] == [];
    assert Run(cfg, x, [e]) == Run(cfg, Step(cfg, x, e), [e][1..]);
  }
}
