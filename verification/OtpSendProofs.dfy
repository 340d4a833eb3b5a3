/** The send limiter over every run: how many codes an address can be sent in a stretch of time. */
module OtpSendProofs {
  import opened Options
  import opened Redis
  import opened Otp

  // ----- counting in the log -----

  function Count(log: seq<Send>, p: Send -> bool): nat {
    if log == [] then 0
    else Count(log[..|log| - 1], p) + (if p(log[|log| - 1]) then 1 else 0)
  }

  function In(a: Addr, lo: int, hi: int): Send -> bool {
    (x: Send) => x.addr == a && lo <= x.time < hi
  }

  function InWindow(a: Addr, w: int): Send -> bool {
    (x: Send) => x.addr == a && x.window == w
  }

  /** In the window, but not at its very start. */
  function LateInWindow(a: Addr, w: int): Send -> bool {
    (x: Send) => x.addr == a && x.window == w && x.time > w
  }

  lemma CountSnoc(log: seq<Send>, x: Send, p: Send -> bool)
    ensures Count(log + [x], p) == Count(log, p) + (if p(x) then 1 else 0)
  {
    assert (log + [x])[..|log|] == log;
  }

  lemma {:induction false} CountCovered(log: seq<Send>, p: Send -> bool, q: Send -> bool, r: Send -> bool)
    requires forall x | x in log && p(x) :: q(x) || r(x)
    ensures Count(log, p) <= Count(log, q) + Count(log, r)
  {
    if log != [] {
      var front := log[..|log| - 1];
      assert log[|log| - 1] in log && forall x | x in front :: x in log;
      CountCovered(front, p, q, r);
    }
  }

  lemma {:induction false} CountNone(log: seq<Send>, p: Send -> bool)
    requires forall x | x in log :: !p(x)
    ensures Count(log, p) == 0
  {
    if log != [] {
      var front := log[..|log| - 1];
      assert log[|log| - 1] in log && forall x | x in front :: x in log;
      CountNone(front, p);
    }
  }

  // ----- counting windows -----

  function Limit(cfg: Config): nat {
    if cfg.sendLimit < 0 then 0 else cfg.sendLimit
  }

  /** Counters always have an expiry, at most one window's length ahead. */
  ghost predicate CountersOk(cfg: Config, s: Store) {
    forall a | a in s.sends ::
      s.sends[a].expiry.At? && s.sends[a].value >= 1 && s.sends[a].expiry.time <= s.now + cfg.blockSec
  }

  /** A logged send lies in its window; the window is the one now counting or has ended, and ended before
      the one now counting began. */
  ghost predicate SendOk(cfg: Config, s: Store, x: Send) {
    && x.window <= x.time < x.window + cfg.blockSec
    && x.time <= s.now
    && (if Live(s.sends, x.addr, s.now)
        then var w := WindowOf(cfg, s.sends, x.addr); x.window == w || x.window + cfg.blockSec <= w
        else x.window + cfg.blockSec <= s.now)
  }

  /** Two sends to an address share a window or their windows are disjoint. */
  ghost predicate Disjoint(cfg: Config, log: seq<Send>) {
    forall x, y | x in log && y in log && x.addr == y.addr ::
      x.window == y.window || x.window + cfg.blockSec <= y.window || y.window + cfg.blockSec <= x.window
  }

  /** A window holds at most `n` sends, one of them at its start. */
  ghost predicate WindowHolds(log: seq<Send>, a: Addr, w: int, n: nat) {
    && Count(log, InWindow(a, w)) <= n
    && Count(log, LateInWindow(a, w)) <= (if n == 0 then 0 else n - 1)
  }

  ghost predicate LogOk(cfg: Config, s: Store) {
    forall x | x in s.log :: SendOk(cfg, s, x)
  }

  ghost predicate WindowsLimited(cfg: Config, log: seq<Send>) {
    forall a, w :: WindowHolds(log, a, w, Limit(cfg))
  }

  /** A window now counting holds at most what its counter shows. */
  ghost predicate CountersCount(cfg: Config, s: Store) {
    forall a | Live(s.sends, a, s.now) ::
      s.sends[a].value >= 0 && WindowHolds(s.log, a, WindowOf(cfg, s.sends, a), s.sends[a].value)
  }

  ghost predicate SendsOk(cfg: Config, s: Store) {
    CountersOk(cfg, s) && LogOk(cfg, s) && Disjoint(cfg, s.log) && WindowsLimited(cfg, s.log) && CountersCount(cfg, s)
  }

  /** Counting a request opens a window now, or adds one to the window already open. */
  lemma CountedWindow(cfg: Config, s: Store, a: Addr)
    requires cfg.Valid() && CountersOk(cfg, s)
    ensures var m := Counted(cfg, s, a);
            && m.Keys == s.sends.Keys + {a}
            && (forall b | b in s.sends && b != a :: m[b] == s.sends[b])
            && Live(m, a, s.now) && m[a].expiry.At?
            && m[a].expiry.time <= s.now + cfg.blockSec
            && (if Live(s.sends, a, s.now)
                then m[a] == Entry(s.sends[a].value + 1, s.sends[a].expiry)
                else m[a] == Entry(1, At(s.now + cfg.blockSec)))
  {
  }

  /** Setting the remaining time again on a refusal leaves every window's end where it is. */
  lemma RefusalKeepsWindow(cfg: Config, s: Store, a: Addr)
    requires cfg.Valid() && CountersOk(cfg, s)
    ensures Refused(cfg, s, a) == Counted(cfg, s, a)
  {
    CountedWindow(cfg, s, a);
  }

  // ----- the invariant is inductive -----

  lemma AppendHolds(log: seq<Send>, x: Send, a: Addr, w: int, n: nat, m: nat)
    requires WindowHolds(log, a, w, n)
    requires if x.addr == a && x.window == w then n < m && (n == 0 ==> x.time == w) && x.time >= w else n <= m
    ensures WindowHolds(log + [x], a, w, m)
  {
    CountSnoc(log, x, InWindow(a, w));
    CountSnoc(log, x, LateInWindow(a, w));
  }

  lemma EmptyWindow(log: seq<Send>, a: Addr, w: int)
    requires forall x | x in log && x.addr == a :: x.window != w
    ensures WindowHolds(log, a, w, 0)
  {
    CountNone(log, InWindow(a, w));
    CountNone(log, LateInWindow(a, w));
  }

  /** Before a request is counted, the window it will be counted in holds one send less than the counter
      will show. */
  lemma WindowBefore(cfg: Config, s: Store, a: Addr)
    requires cfg.Valid() && SendsOk(cfg, s)
    ensures var m := Counted(cfg, s, a);
            a in m && m[a].value >= 1 && WindowHolds(s.log, a, WindowOf(cfg, m, a), m[a].value - 1)
  {
    CountedWindow(cfg, s, a);
    var m := Counted(cfg, s, a);
    if !Live(s.sends, a, s.now) {
      EmptyWindow(s.log, a, WindowOf(cfg, m, a));
    }
  }

  /** `m` is the counter family after one more request to `a`. */
  ghost predicate CountsOneMore(cfg: Config, s: Store, a: Addr, m: Keyspace<Addr, int>) {
    && m.Keys == s.sends.Keys + {a}
    && (forall b | b in s.sends && b != a :: m[b] == s.sends[b])
    && m[a].expiry.At? && s.now < m[a].expiry.time <= s.now + cfg.blockSec
    && (if Live(s.sends, a, s.now)
        then m[a] == Entry(s.sends[a].value + 1, s.sends[a].expiry)
        else m[a] == Entry(1, At(s.now + cfg.blockSec)))
    && m[a].value >= 1
    && WindowHolds(s.log, a, WindowOf(cfg, m, a), m[a].value - 1)
  }

  lemma RequestShape(cfg: Config, s: Store, a: Addr, code: Code, req: Req)
    requires cfg.Valid() && SendsOk(cfg, s)
    ensures var s', m := RequestStep(cfg, s, a, code, req), Counted(cfg, s, a);
            && CountsOneMore(cfg, s, a, m)
            && s'.now == s.now && s'.sends == m
            && (SendAllowed(cfg, s, a) <==> m[a].value <= cfg.sendLimit)
            && s'.log == if SendAllowed(cfg, s, a) then s.log + [Send(a, s.now, WindowOf(cfg, m, a))] else s.log
  {
    CountedWindow(cfg, s, a);
    RefusalKeepsWindow(cfg, s, a);
    WindowBefore(cfg, s, a);
  }

  lemma CountingLogOk(cfg: Config, s: Store, a: Addr, m: Keyspace<Addr, int>)
    requires cfg.Valid() && LogOk(cfg, s) && CountsOneMore(cfg, s, a, m)
    ensures LogOk(cfg, s.(sends := m))
  {
    forall x | x in s.log
      ensures SendOk(cfg, s.(sends := m), x)
    {
      assert SendOk(cfg, s, x);
    }
  }

  lemma CountingCounts(cfg: Config, s: Store, a: Addr, m: Keyspace<Addr, int>)
    requires CountersCount(cfg, s) && CountsOneMore(cfg, s, a, m)
    ensures CountersCount(cfg, s.(sends := m))
  {
    forall b | Live(m, b, s.now)
      ensures m[b].value >= 0 && WindowHolds(s.log, b, WindowOf(cfg, m, b), m[b].value)
    {
      if b != a {
        assert Live(s.sends, b, s.now);
      }
    }
  }

  lemma CountingSendsOk(cfg: Config, s: Store, a: Addr, m: Keyspace<Addr, int>)
    requires cfg.Valid() && SendsOk(cfg, s) && CountsOneMore(cfg, s, a, m)
    ensures SendsOk(cfg, s.(sends := m))
  {
    CountingLogOk(cfg, s, a, m);
    CountingCounts(cfg, s, a, m);
  }

  /** The new entry of the log. */
  function Entered(cfg: Config, s: Store, a: Addr, m: Keyspace<Addr, int>): Send {
    Send(a, s.now, WindowOf(cfg, m, a))
  }

  lemma LoggingLogOk(cfg: Config, s: Store, a: Addr, m: Keyspace<Addr, int>)
    requires cfg.Valid() && LogOk(cfg, s.(sends := m)) && CountsOneMore(cfg, s, a, m)
    ensures LogOk(cfg, s.(sends := m, log := s.log + [Entered(cfg, s, a, m)]))
    ensures forall y | y in s.log && y.addr == a ::
              y.window == WindowOf(cfg, m, a) || y.window + cfg.blockSec <= WindowOf(cfg, m, a)
  {
    var after := s.(sends := m, log := s.log + [Entered(cfg, s, a, m)]);
    forall y | y in s.log
      ensures SendOk(cfg, after, y)
      ensures y.addr == a ==> y.window == WindowOf(cfg, m, a) || y.window + cfg.blockSec <= WindowOf(cfg, m, a)
    {
      assert SendOk(cfg, s.(sends := m), y);
    }
    assert SendOk(cfg, after, Entered(cfg, s, a, m));
  }

  lemma LoggingWindows(cfg: Config, s: Store, a: Addr, m: Keyspace<Addr, int>)
    requires CountersOk(cfg, s) && CountsOneMore(cfg, s, a, m)
    requires WindowsLimited(cfg, s.log) && CountersCount(cfg, s.(sends := m))
    requires m[a].value <= cfg.sendLimit
    ensures WindowsLimited(cfg, s.log + [Entered(cfg, s, a, m)])
    ensures CountersCount(cfg, s.(sends := m, log := s.log + [Entered(cfg, s, a, m)]))
  {
    var w, x := WindowOf(cfg, m, a), Entered(cfg, s, a, m);
    AppendHolds(s.log, x, a, w, m[a].value - 1, m[a].value);
    forall b, v
      ensures WindowHolds(s.log + [x], b, v, Limit(cfg))
    {
      if b != a || v != w {
        AppendHolds(s.log, x, b, v, Limit(cfg), Limit(cfg));
      }
    }
    forall b | Live(m, b, s.now)
      ensures m[b].value >= 0 && WindowHolds(s.log + [x], b, WindowOf(cfg, m, b), m[b].value)
    {
      if b != a {
        assert Live(s.(sends := m).sends, b, s.now);
        AppendHolds(s.log, x, b, WindowOf(cfg, m, b), m[b].value, m[b].value);
      }
    }
  }

  lemma LoggingSendsOk(cfg: Config, s: Store, a: Addr, m: Keyspace<Addr, int>)
    requires cfg.Valid() && CountersOk(cfg, s) && SendsOk(cfg, s.(sends := m)) && CountsOneMore(cfg, s, a, m)
    requires m[a].value <= cfg.sendLimit
    ensures SendsOk(cfg, s.(sends := m, log := s.log + [Entered(cfg, s, a, m)]))
  {
    LoggingLogOk(cfg, s, a, m);
    LoggingWindows(cfg, s, a, m);
  }

  lemma SendsOkReads(cfg: Config, s: Store, t: Store)
    requires SendsOk(cfg, s) && s.now == t.now && s.sends == t.sends && s.log == t.log
    ensures SendsOk(cfg, t)
  {
    forall x | x in t.log
      ensures SendOk(cfg, t, x)
    {
      assert SendOk(cfg, s, x);
    }
    forall a | Live(t.sends, a, t.now)
      ensures t.sends[a].value >= 0 && WindowHolds(t.log, a, WindowOf(cfg, t.sends, a), t.sends[a].value)
    {
      assert Live(s.sends, a, s.now);
    }
  }

  lemma RequestSendsOk(cfg: Config, s: Store, a: Addr, code: Code, req: Req)
    requires cfg.Valid() && SendsOk(cfg, s)
    ensures SendsOk(cfg, RequestStep(cfg, s, a, code, req))
  {
    RequestShape(cfg, s, a, code, req);
    var m := Counted(cfg, s, a);
    CountingSendsOk(cfg, s, a, m);
    var counted := s.(sends := m);
    if SendAllowed(cfg, s, a) {
      LoggingSendsOk(cfg, s, a, m);
      SendsOkReads(cfg, counted.(log := s.log + [Entered(cfg, s, a, m)]), RequestStep(cfg, s, a, code, req));
    } else {
      SendsOkReads(cfg, counted, RequestStep(cfg, s, a, code, req));
    }
  }

  lemma TickSendsOk(cfg: Config, s: Store, d: nat)
    requires cfg.Valid() && SendsOk(cfg, s)
    ensures SendsOk(cfg, s.(now := s.now + d))
  {
    var t := s.(now := s.now + d);
    forall x | x in t.log
      ensures SendOk(cfg, t, x)
    {
      assert SendOk(cfg, s, x);
    }
    forall a | Live(t.sends, a, t.now)
      ensures t.sends[a].value >= 0 && WindowHolds(t.log, a, WindowOf(cfg, t.sends, a), t.sends[a].value)
    {
      assert Live(s.sends, a, s.now);
    }
  }

  /** Only requests send. */
  lemma OthersSendNothing(cfg: Config, s: Store, e: Event)
    requires e.Verify? || e.Consume?
    ensures var s' := Step(cfg, s, e); s'.now == s.now && s'.sends == s.sends && s'.log == s.log
  {
  }

  lemma StepSendsOk(cfg: Config, s: Store, e: Event)
    requires cfg.Valid() && SendsOk(cfg, s)
    ensures SendsOk(cfg, Step(cfg, s, e))
  {
    match e
    case Tick(d) => TickSendsOk(cfg, s, d);
    case Request(a, code, req) => RequestSendsOk(cfg, s, a, code, req);
    case _ =>
      OthersSendNothing(cfg, s, e);
      SendsOkReads(cfg, s, Step(cfg, s, e));
  }

  lemma {:induction false} RunSendsOk(cfg: Config, s: Store, es: seq<Event>)
    requires cfg.Valid() && SendsOk(cfg, s)
    ensures SendsOk(cfg, Run(cfg, s, es))
    decreases es
  {
    if es != [] {
      StepSendsOk(cfg, s, es[0]);
      RunSendsOk(cfg, Step(cfg, s, es[0]), es[1..]);
    }
  }

  /** With a limit below one no code is ever stored. */
  lemma NothingSent(cfg: Config, s: Store, e: Event)
    requires cfg.Valid() && cfg.sendLimit < 1 && CountersOk(cfg, s) && s.otp == map[]
    ensures CountersOk(cfg, Step(cfg, s, e)) && Step(cfg, s, e).otp == map[]
  {
    if e.Request? {
      CountedWindow(cfg, s, e.addr);
      RefusalKeepsWindow(cfg, s, e.addr);
    }
  }

  // ----- the bound -----

  lemma StepLog(cfg: Config, s: Store, e: Event, a: Addr, lo: int, hi: int)
    ensures Count(Step(cfg, s, e).log, In(a, lo, hi))
         == Count(s.log, In(a, lo, hi)) + (if Accepted(cfg, s, e, a, lo, hi) then 1 else 0)
  {
    if e.Request? && SendAllowed(cfg, s, e.addr) {
      CountSnoc(s.log, Send(e.addr, s.now, WindowOf(cfg, Counted(cfg, s, e.addr), e.addr)), In(a, lo, hi));
    } else {
      assert Step(cfg, s, e).log == s.log;
    }
  }

  /** The log records exactly the accepted sends of the run. */
  lemma {:induction false} LogIsAcceptedSends(cfg: Config, s: Store, es: seq<Event>, a: Addr, lo: int, hi: int)
    ensures Count(Run(cfg, s, es).log, In(a, lo, hi)) == Count(s.log, In(a, lo, hi)) + AcceptedSends(cfg, s, es, a, lo, hi)
    decreases es
  {
    if es != [] {
      var s' := Step(cfg, s, es[0]);
      StepLog(cfg, s, es[0], a, lo, hi);
      LogIsAcceptedSends(cfg, s', es[1..], a, lo, hi);
      assert AcceptedSends(cfg, s, es, a, lo, hi)
          == (if Accepted(cfg, s, es[0], a, lo, hi) then 1 else 0) + AcceptedSends(cfg, s', es[1..], a, lo, hi);
    }
  }

  /** A stretch of one window's length meets at most two windows, and misses the start of the first. */
  lemma StretchBound(cfg: Config, s: Store, a: Addr, lo: int)
    requires cfg.Valid() && SendsOk(cfg, s)
    ensures Count(s.log, In(a, lo, lo + cfg.blockSec)) <= (if Limit(cfg) == 0 then 0 else 2 * Limit(cfg) - 1)
  {
    var stretch := In(a, lo, lo + cfg.blockSec);
    if x :| x in s.log && stretch(x) {
      var w := x.window;
      if y :| y in s.log && stretch(y) && y.window != w {
        assert w + cfg.blockSec <= y.window || y.window + cfg.blockSec <= w;
        TwoWindows(cfg, s, a, lo, if w < y.window then x else y, if w < y.window then y else x);
      } else {
        CountCovered(s.log, stretch, InWindow(a, w), LateInWindow(a, w));
        assert WindowHolds(s.log, a, w, Limit(cfg));
      }
    } else {
      CountNone(s.log, stretch);
    }
  }

  lemma TwoWindows(cfg: Config, s: Store, a: Addr, lo: int, x: Send, y: Send)
    requires cfg.Valid() && SendsOk(cfg, s)
    requires x in s.log && y in s.log && x.window + cfg.blockSec <= y.window
    requires In(a, lo, lo + cfg.blockSec)(x) && In(a, lo, lo + cfg.blockSec)(y)
    ensures Count(s.log, In(a, lo, lo + cfg.blockSec)) <= (if Limit(cfg) == 0 then 0 else 2 * Limit(cfg) - 1)
  {
    var stretch := In(a, lo, lo + cfg.blockSec);
    forall z | z in s.log && stretch(z)
      ensures LateInWindow(a, x.window)(z) || InWindow(a, y.window)(z)
    {
      assert SendOk(cfg, s, z) && SendOk(cfg, s, x) && SendOk(cfg, s, y);
    }
    CountCovered(s.log, stretch, LateInWindow(a, x.window), InWindow(a, y.window));
    assert WindowHolds(s.log, a, x.window, Limit(cfg)) && WindowHolds(s.log, a, y.window, Limit(cfg));
  }

  /** Over any run, any half-open stretch of `blockSec` seconds holds at most `2 * sendLimit - 1` accepted
      sends to an address. */
  lemma SendBound(cfg: Config, start: int, es: seq<Event>, a: Addr, lo: int)
    requires cfg.Valid()
    ensures AcceptedSends(cfg, Initial(start), es, a, lo, lo + cfg.blockSec)
            <= (if Limit(cfg) == 0 then 0 else 2 * Limit(cfg) - 1)
  {
    RunSendsOk(cfg, Initial(start), es);
    LogIsAcceptedSends(cfg, Initial(start), es, a, lo, lo + cfg.blockSec);
    StretchBound(cfg, Run(cfg, Initial(start), es), a, lo);
  }

  // ----- a refusal tells the truth -----

  /** The seconds a refused caller is told to wait. */
  function SecondsLeft(cfg: Config, s: Store, a: Addr): int {
    Ttl(Counted(cfg, s, a), a, s.now)
  }

  /** After a refusal every further request is refused until exactly the announced seconds have passed. */
  lemma SecondsLeftExact(cfg: Config, s: Store, a: Addr, code: Code, req: Req, wait: nat)
    requires cfg.Valid() && CountersOk(cfg, s) && cfg.sendLimit >= 1 && !SendAllowed(cfg, s, a)
    ensures var s' := Step(cfg, RequestStep(cfg, s, a, code, req), Tick(wait));
            && 0 < SecondsLeft(cfg, s, a) <= cfg.blockSec
            && (SendAllowed(cfg, s', a) <==> wait >= SecondsLeft(cfg, s, a))
  {
    CountedWindow(cfg, s, a);
    RefusalKeepsWindow(cfg, s, a);
  }
}
