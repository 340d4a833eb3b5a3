/** The send bound cannot be improved: a run that reaches it. */
module OtpSendTight {
  import opened Options
  import opened Redis
  import opened Otp
  import opened OtpSendProofs

  // ----- runs in parts -----

  lemma {:induction false} SendsAppend(cfg: Config, s: Store, es: seq<Event>, fs: seq<Event>, a: Addr, lo: int, hi: int)
    ensures AcceptedSends(cfg, s, es + fs, a, lo, hi)
         == AcceptedSends(cfg, s, es, a, lo, hi) + AcceptedSends(cfg, Run(cfg, s, es), fs, a, lo, hi)
  {
    LogIsAcceptedSends(cfg, s, es + fs, a, lo, hi);
    LogIsAcceptedSends(cfg, s, es, a, lo, hi);
    LogIsAcceptedSends(cfg, Run(cfg, s, es), fs, a, lo, hi);
    RunAppend(cfg, s, es, fs);
  }

  // ----- a burst of requests -----

  /** `n` requests in a row under the ids from `first` on. */
  function Burst(a: Addr, first: Req, n: nat): seq<Event>
    decreases n
  {
    if n == 0 then [] else [Request(a, 0, first)] + Burst(a, first + 1, n - 1)
  }

  /** How many requests the counter shows. */
  function Shows(s: Store, a: Addr): int {
    if Live(s.sends, a, s.now) then s.sends[a].value else 0
  }

  function WindowEnd(cfg: Config, s: Store, a: Addr): int {
    if Live(s.sends, a, s.now) then WindowOf(cfg, s.sends, a) + cfg.blockSec else s.now + cfg.blockSec
  }

  ghost predicate UnusedFrom(s: Store, first: Req) {
    forall r | r in s.owner :: r < first
  }

  lemma OneSend(cfg: Config, s: Store, a: Addr, r: Req)
    requires cfg.Valid() && CountersOk(cfg, s) && UnusedFrom(s, r) && Shows(s, a) < cfg.sendLimit
    ensures var s' := Step(cfg, s, Request(a, 0, r));
            && SendAllowed(cfg, s, a) && s'.now == s.now && CountersOk(cfg, s') && UnusedFrom(s', r + 1)
            && Shows(s', a) == Shows(s, a) + 1 && WindowEnd(cfg, s', a) == WindowEnd(cfg, s, a)
  {
    CountedWindow(cfg, s, a);
  }

  /** As long as the counter stays within the limit, a whole burst is accepted. */
  lemma {:induction false} BurstAccepted(cfg: Config, s: Store, a: Addr, first: Req, n: nat, lo: int, hi: int)
    requires cfg.Valid() && CountersOk(cfg, s) && UnusedFrom(s, first) && Shows(s, a) + n <= cfg.sendLimit
    ensures var es := Burst(a, first, n);
            var s' := Run(cfg, s, es);
            && FreshRun(cfg, s, es) && s'.now == s.now && CountersOk(cfg, s') && UnusedFrom(s', first + n)
            && Shows(s', a) == Shows(s, a) + n && WindowEnd(cfg, s', a) == WindowEnd(cfg, s, a)
            && AcceptedSends(cfg, s, es, a, lo, hi) == if lo <= s.now < hi then n else 0
    decreases n
  {
    if n > 0 {
      var e := Request(a, 0, first);
      var s1 := Step(cfg, s, e);
      OneSend(cfg, s, a, first);
      BurstAccepted(cfg, s1, a, first + 1, n - 1, lo, hi);
      var es := Burst(a, first, n);
      assert es[1..] == Burst(a, first + 1, n - 1);
      assert AcceptedSends(cfg, s, es, a, lo, hi)
          == (if Accepted(cfg, s, e, a, lo, hi) then 1 else 0) + AcceptedSends(cfg, s1, es[1..], a, lo, hi);
    }
  }

  /** Waiting changes no counter; the window closes when its end is reached. */
  lemma Wait(cfg: Config, s: Store, a: Addr, d: nat, lo: int, hi: int)
    requires cfg.Valid() && CountersOk(cfg, s)
    ensures var s' := Run(cfg, s, [Tick(d)]);
            && FreshRun(cfg, s, [Tick(d)]) && s' == s.(now := s.now + d) && CountersOk(cfg, s')
            && AcceptedSends(cfg, s, [Tick(d)], a, lo, hi) == 0
            && Shows(s', a) == (if s.now + d < WindowEnd(cfg, s, a) then Shows(s, a) else 0)
            && (Live(s.sends, a, s.now) && s.now + d < WindowEnd(cfg, s, a) ==>
                  WindowEnd(cfg, s', a) == WindowEnd(cfg, s, a))
  {
    var s' := Step(cfg, s, Tick(d));
    assert [Tick(d)][1..] == [];
    assert Run(cfg, s', []) == s';
    assert AcceptedSends(cfg, s', [], a, lo, hi) == 0;
  }

  /** One send opens a window; the rest of its allowance is used in its last second ... */
  function Opening(cfg: Config, a: Addr): seq<Event>
    requires cfg.Valid() && cfg.sendLimit >= 1
  {
    Burst(a, 0, 1) + ([Tick(cfg.blockSec - 1)] + Burst(a, 1, cfg.sendLimit - 1))
  }

  /** ... and the next window's allowance right after. */
  function Closing(cfg: Config, a: Addr): seq<Event>
    requires cfg.Valid() && cfg.sendLimit >= 1
  {
    [Tick(1)] + Burst(a, cfg.sendLimit, cfg.sendLimit)
  }

  lemma TwoParts(cfg: Config, s: Store, es: seq<Event>, fs: seq<Event>, a: Addr, lo: int, hi: int)
    ensures Run(cfg, s, es + fs) == Run(cfg, Run(cfg, s, es), fs)
    ensures FreshRun(cfg, s, es) && FreshRun(cfg, Run(cfg, s, es), fs) ==> FreshRun(cfg, s, es + fs)
    ensures AcceptedSends(cfg, s, es + fs, a, lo, hi)
         == AcceptedSends(cfg, s, es, a, lo, hi) + AcceptedSends(cfg, Run(cfg, s, es), fs, a, lo, hi)
  {
    RunAppend(cfg, s, es, fs);
    SendsAppend(cfg, s, es, fs, a, lo, hi);
  }

  /** Waiting, then a burst. */
  lemma WaitThenBurst(cfg: Config, s: Store, a: Addr, d: nat, first: Req, n: nat, lo: int, hi: int)
    requires cfg.Valid() && CountersOk(cfg, s) && UnusedFrom(s, first)
    requires (if s.now + d < WindowEnd(cfg, s, a) then Shows(s, a) else 0) + n <= cfg.sendLimit
    ensures var es := [Tick(d)] + Burst(a, first, n);
            var s' := Run(cfg, s, es);
            && FreshRun(cfg, s, es) && s'.now == s.now + d && CountersOk(cfg, s') && UnusedFrom(s', first + n)
            && Shows(s', a) == (if s.now + d < WindowEnd(cfg, s, a) then Shows(s, a) else 0) + n
            && (Live(s.sends, a, s.now) && s.now + d < WindowEnd(cfg, s, a) ==>
                  WindowEnd(cfg, s', a) == WindowEnd(cfg, s, a))
            && AcceptedSends(cfg, s, es, a, lo, hi) == (if lo <= s.now + d < hi then n else 0)
  {
    Wait(cfg, s, a, d, lo, hi);
    var s1 := Run(cfg, s, [Tick(d)]);
    BurstAccepted(cfg, s1, a, first, n, lo, hi);
    TwoParts(cfg, s, [Tick(d)], Burst(a, first, n), a, lo, hi);
  }

  lemma OpeningAccepted(cfg: Config, a: Addr, lo: int, hi: int)
    requires cfg.Valid() && cfg.sendLimit >= 1 && 0 < lo == cfg.blockSec - 1 < hi
    ensures var s := Run(cfg, Initial(0), Opening(cfg, a));
            && FreshRun(cfg, Initial(0), Opening(cfg, a))
            && s.now == cfg.blockSec - 1 && CountersOk(cfg, s) && UnusedFrom(s, cfg.sendLimit)
            && WindowEnd(cfg, s, a) == cfg.blockSec
            && AcceptedSends(cfg, Initial(0), Opening(cfg, a), a, lo, hi) == cfg.sendLimit - 1
  {
    BurstAccepted(cfg, Initial(0), a, 0, 1, lo, hi);
    var s1 := Run(cfg, Initial(0), Burst(a, 0, 1));
    WaitThenBurst(cfg, s1, a, cfg.blockSec - 1, 1, cfg.sendLimit - 1, lo, hi);
    TwoParts(cfg, Initial(0), Burst(a, 0, 1), [Tick(cfg.blockSec - 1)] + Burst(a, 1, cfg.sendLimit - 1), a, lo, hi);
  }

  /** Whatever the limit and the window's length (two seconds or more), the bound is met. */
  lemma SendBoundReached(cfg: Config, a: Addr)
    requires cfg.Valid() && cfg.sendLimit >= 1 && cfg.blockSec >= 2
    ensures var es := Opening(cfg, a) + Closing(cfg, a);
            var lo := cfg.blockSec - 1;
            && FreshRun(cfg, Initial(0), es)
            && AcceptedSends(cfg, Initial(0), es, a, lo, lo + cfg.blockSec) == 2 * cfg.sendLimit - 1
  {
    var lo, hi, n := cfg.blockSec - 1, 2 * cfg.blockSec - 1, cfg.sendLimit;
    OpeningAccepted(cfg, a, lo, hi);
    var s := Run(cfg, Initial(0), Opening(cfg, a));
    WaitThenBurst(cfg, s, a, 1, n, n, lo, hi);
    TwoParts(cfg, Initial(0), Opening(cfg, a), Closing(cfg, a), a, lo, hi);
  }
}
