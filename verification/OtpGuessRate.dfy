/** What the send limit and the try limit are for together: how many codes can be guessed for an address in a
    stretch of time. */
module OtpGuessRate {
  import opened Options
  import opened Redis
  import opened Otp
  import opened OtpProofs
  import opened OtpSendProofs
  import opened OtpSendTight

  // ----- the bound -----

  /** The wrong guesses the code now stored for `a` still allows. */
  function GuessesLeft(cfg: Config, s: Store, a: Addr): int {
    if Live(s.otp, a, s.now) then Cap(cfg) - Tried(s, a) else 0
  }

  function CountIf(b: bool, n: nat): nat {
    if b then n else 0
  }

  predicate SendsTo(cfg: Config, s: Store, e: Event, a: Addr) {
    e.Request? && e.addr == a && SendAllowed(cfg, s, a)
  }

  lemma LeftInRange(cfg: Config, s: Store, a: Addr)
    requires CodesOk(cfg, s)
    ensures 0 <= GuessesLeft(cfg, s, a) <= Cap(cfg)
  {
  }

  lemma VerifyLeft(cfg: Config, s: Store, b: Addr, req: Req, code: Code, a: Addr)
    requires cfg.Valid() && CodesOk(cfg, s)
    ensures GuessesLeft(cfg, VerifyStep(cfg, s, b, req, code), a)
            + CountIf(WrongGuessAt(cfg, s, Verify(b, req, code), a), 1) <= GuessesLeft(cfg, s, a)
  {
    LeftInRange(cfg, s, a);
    VerifyCounts(cfg, s, b, req, code);
  }

  lemma ConsumeLeft(cfg: Config, s: Store, b: Addr, req: Req, accountOk: bool, a: Addr)
    requires CodesOk(cfg, s)
    ensures GuessesLeft(cfg, ConsumeStep(cfg, s, b, req, accountOk), a) <= GuessesLeft(cfg, s, a)
  {
    LeftInRange(cfg, s, a);
  }

  /** A wrong guess uses up one of what is left; only a new code gives anything back. */
  lemma StepLeft(cfg: Config, s: Store, e: Event, a: Addr)
    requires cfg.Valid() && CodesOk(cfg, s)
    ensures GuessesLeft(cfg, Step(cfg, s, e), a) + CountIf(WrongGuessAt(cfg, s, e, a), 1)
            <= GuessesLeft(cfg, s, a) + CountIf(SendsTo(cfg, s, e, a), Cap(cfg))
  {
    LeftInRange(cfg, s, a);
    match e
    case Tick(_) =>
    case Request(_, _, _) =>
    case Verify(b, req, code) => VerifyLeft(cfg, s, b, req, code, a);
    case Consume(b, req, accountOk) => ConsumeLeft(cfg, s, b, req, accountOk, a);
  }

  /** What a run can still count from a state on. */
  function Ahead(cfg: Config, s: Store, a: Addr, lo: int, hi: int): int {
    if s.now >= hi then 0 else if s.now < lo then Cap(cfg) else GuessesLeft(cfg, s, a)
  }

  lemma StepAhead(cfg: Config, s: Store, e: Event, a: Addr, lo: int, hi: int)
    requires cfg.Valid() && CodesOk(cfg, s) && FreshEvent(s, e)
    ensures Ahead(cfg, Step(cfg, s, e), a, lo, hi) + CountIf(WrongGuessAt(cfg, s, e, a) && lo <= s.now < hi, 1)
            <= Ahead(cfg, s, a, lo, hi) + CountIf(Accepted(cfg, s, e, a, lo, hi), Cap(cfg))
  {
    StepLeft(cfg, s, e, a);
    StepCodesOk(cfg, s, e);
    LeftInRange(cfg, s, a);
    LeftInRange(cfg, Step(cfg, s, e), a);
  }

  lemma TimesOneMore(n: nat, sent: bool, later: nat)
    ensures n * (CountIf(sent, 1) + later) == CountIf(sent, n) + n * later
  {
  }

  lemma TimesMost(n: nat, sent: nat, limit: nat)
    requires sent <= 2 * limit - 1
    ensures n + n * sent <= 2 * limit * n
  {
    assert n * sent <= n * (2 * limit - 1);
  }

  lemma {:induction false} RunAhead(cfg: Config, s: Store, es: seq<Event>, a: Addr, lo: int, hi: int)
    requires cfg.Valid() && CodesOk(cfg, s) && FreshRun(cfg, s, es)
    ensures GuessesIn(cfg, s, es, a, lo, hi) <= Ahead(cfg, s, a, lo, hi) + Cap(cfg) * AcceptedSends(cfg, s, es, a, lo, hi)
    decreases es
  {
    if es == [] {
      LeftInRange(cfg, s, a);
    } else {
      var s', sent := Step(cfg, s, es[0]), Accepted(cfg, s, es[0], a, lo, hi);
      StepAhead(cfg, s, es[0], a, lo, hi);
      StepCodesOk(cfg, s, es[0]);
      RunAhead(cfg, s', es[1..], a, lo, hi);
      var later := AcceptedSends(cfg, s', es[1..], a, lo, hi);
      assert GuessesIn(cfg, s, es, a, lo, hi)
          == CountIf(WrongGuessAt(cfg, s, es[0], a) && lo <= s.now < hi, 1) + GuessesIn(cfg, s', es[1..], a, lo, hi);
      assert AcceptedSends(cfg, s, es, a, lo, hi) == CountIf(sent, 1) + later;
      TimesOneMore(Cap(cfg), sent, later);
    }
  }

  lemma {:induction false} NothingSentNothingGuessed(cfg: Config, s: Store, es: seq<Event>, a: Addr, lo: int, hi: int)
    requires cfg.Valid() && cfg.sendLimit < 1 && CountersOk(cfg, s) && s.otp == map[]
    ensures GuessesIn(cfg, s, es, a, lo, hi) == 0
    decreases es
  {
    if es != [] {
      var s' := Step(cfg, s, es[0]);
      NothingSent(cfg, s, es[0]);
      NothingSentNothingGuessed(cfg, s', es[1..], a, lo, hi);
      assert GuessesIn(cfg, s, es, a, lo, hi)
          == CountIf(WrongGuessAt(cfg, s, es[0], a) && lo <= s.now < hi, 1) + GuessesIn(cfg, s', es[1..], a, lo, hi);
    }
  }

  /** Over every run, in any half-open stretch of `blockSec` seconds, at most `2 * sendLimit * maxTries` wrong
      codes are compared for an address: those of the code live at the start and of the codes sent in it. */
  lemma GuessRateBound(cfg: Config, start: int, es: seq<Event>, a: Addr, lo: int)
    requires cfg.Valid() && FreshRun(cfg, Initial(start), es)
    ensures GuessesIn(cfg, Initial(start), es, a, lo, lo + cfg.blockSec) <= 2 * Limit(cfg) * Cap(cfg)
  {
    var s, hi := Initial(start), lo + cfg.blockSec;
    if Limit(cfg) == 0 {
      NothingSentNothingGuessed(cfg, s, es, a, lo, hi);
    } else {
      SendBound(cfg, start, es, a, lo);
      RunAhead(cfg, s, es, a, lo, hi);
      TimesMost(Cap(cfg), AcceptedSends(cfg, s, es, a, lo, hi), Limit(cfg));
    }
  }

  // ----- the bound is reached -----

  /** `k` wrong guesses in a row at a code that is 0. */
  function Guesses(a: Addr, req: Req, k: nat): seq<Event> {
    if k == 0 then [] else [Verify(a, req, 1)] + Guesses(a, req, k - 1)
  }

  /** A code is stored that can still be guessed `k` times. */
  ghost predicate Guessable(cfg: Config, s: Store, a: Addr, req: Req, k: int) {
    && Live(s.otp, a, s.now) && s.otp[a].value.req == req && s.otp[a].value.code == 0
    && k == cfg.maxTries - Tried(s, a)
  }

  /** The events change neither the time nor the counters nor the ids. */
  predicate OnlyCodes(s: Store, s': Store) {
    s'.now == s.now && s'.sends == s.sends && s'.owner == s.owner
  }

  lemma OneGuess(cfg: Config, s: Store, a: Addr, req: Req, k: nat)
    requires cfg.Valid() && CodesOk(cfg, s) && Guessable(cfg, s, a, req, k) && k > 0
    ensures var s' := Step(cfg, s, Verify(a, req, 1));
            && WrongGuessAt(cfg, s, Verify(a, req, 1), a) && OnlyCodes(s, s') && CodesOk(cfg, s')
            && (k > 1 ==> Guessable(cfg, s', a, req, k - 1))
  {
    VerifyCounts(cfg, s, a, req, 1);
    VerifyCodesOk(cfg, s, a, req, 1);
  }

  lemma {:induction false} GuessesCounted(cfg: Config, s: Store, a: Addr, req: Req, k: nat, lo: int, hi: int)
    requires cfg.Valid() && CodesOk(cfg, s) && Guessable(cfg, s, a, req, k)
    ensures var es := Guesses(a, req, k);
            var s' := Run(cfg, s, es);
            && FreshRun(cfg, s, es) && OnlyCodes(s, s') && CodesOk(cfg, s')
            && GuessesIn(cfg, s, es, a, lo, hi) == CountIf(lo <= s.now < hi, k)
    decreases k
  {
    if k > 0 {
      var es, e := Guesses(a, req, k), Verify(a, req, 1);
      var s1 := Step(cfg, s, e);
      assert es[1..] == Guesses(a, req, k - 1);
      OneGuess(cfg, s, a, req, k);
      if k > 1 {
        GuessesCounted(cfg, s1, a, req, k - 1, lo, hi);
      }
      assert GuessesIn(cfg, s, es, a, lo, hi)
          == CountIf(WrongGuessAt(cfg, s, e, a) && lo <= s.now < hi, 1) + GuessesIn(cfg, s1, es[1..], a, lo, hi);
    }
  }

  /** A fresh run from `s` to `s'` that compares `n` wrong codes for `a` in the stretch. */
  ghost predicate Leads(cfg: Config, s: Store, es: seq<Event>, s': Store, a: Addr, lo: int, hi: int, n: int) {
    FreshRun(cfg, s, es) && Run(cfg, s, es) == s' && GuessesIn(cfg, s, es, a, lo, hi) == n
  }

  lemma LeadsOn(cfg: Config, s: Store, es: seq<Event>, s1: Store, fs: seq<Event>, s2: Store,
                a: Addr, lo: int, hi: int, n: int, m: int)
    requires Leads(cfg, s, es, s1, a, lo, hi, n) && Leads(cfg, s1, fs, s2, a, lo, hi, m)
    ensures Leads(cfg, s, es + fs, s2, a, lo, hi, n + m)
  {
    RunAppend(cfg, s, es, fs);
    CountAppend(cfg, s, es, fs, GuessesAt(cfg, a, lo, hi));
  }

  /** Anything but a verification, on its own. */
  lemma LeadsQuietly(cfg: Config, s: Store, e: Event, a: Addr, lo: int, hi: int)
    requires FreshEvent(s, e) && !e.Verify?
    ensures Leads(cfg, s, [e], Step(cfg, s, e), a, lo, hi, 0)
  {
    assert [e][1..] == [];
    assert GuessesIn(cfg, s, [e], a, lo, hi)
        == CountIf(WrongGuessAt(cfg, s, e, a) && lo <= s.now < hi, 1) + GuessesIn(cfg, Step(cfg, s, e), [e][1..], a, lo, hi);
    assert Run(cfg, s, [e]) == Run(cfg, Step(cfg, s, e), [e][1..]);
  }

  /** The counter shows `shown` in a window that lasts until `end`, and ids from `first` on are free. */
  ghost predicate Ready(cfg: Config, s: Store, a: Addr, first: Req, shown: int, end: int) {
    && CodesOk(cfg, s) && CountersOk(cfg, s) && UnusedFrom(s, first)
    && Shows(s, a) == shown && WindowEnd(cfg, s, a) == end
  }

  lemma ReadySend(cfg: Config, s: Store, a: Addr, r: Req, shown: int, end: int)
    requires cfg.Valid() && Ready(cfg, s, a, r, shown, end) && shown < cfg.sendLimit
    ensures var e := Request(a, 0, r);
            var s' := Step(cfg, s, e);
            && FreshEvent(s, e) && s'.now == s.now && Ready(cfg, s', a, r + 1, shown + 1, end)
            && Guessable(cfg, s', a, r, cfg.maxTries) && s'.otp[a].value.exp == s.now + cfg.otpTtl
            && Live(s'.sends, a, s'.now)
  {
    OneSend(cfg, s, a, r);
    StepCodesOk(cfg, s, Request(a, 0, r));
    CountedWindow(cfg, s, a);
  }

  lemma ReadyGuessed(cfg: Config, s: Store, s': Store, a: Addr, first: Req, shown: int, end: int)
    requires Ready(cfg, s, a, first, shown, end) && OnlyCodes(s, s') && CodesOk(cfg, s')
    ensures Ready(cfg, s', a, first, shown, end)
  {
  }

  lemma ReadyTick(cfg: Config, s: Store, a: Addr, d: nat, first: Req, shown: int, end: int)
    requires cfg.Valid() && Ready(cfg, s, a, first, shown, end)
    ensures var s' := Step(cfg, s, Tick(d));
            && (s'.now < end && Live(s.sends, a, s.now) ==> Ready(cfg, s', a, first, shown, end))
            && (end <= s'.now ==> Ready(cfg, s', a, first, 0, s'.now + cfg.blockSec))
  {
    StepCodesOk(cfg, s, Tick(d));
  }

  // ----- volleys -----

  /** A send, then every guess its code allows. */
  function Volley(cfg: Config, a: Addr, r: Req): seq<Event> {
    [Request(a, 0, r)] + Guesses(a, r, Cap(cfg))
  }

  function Volleys(cfg: Config, a: Addr, first: Req, n: nat): seq<Event>
    decreases n
  {
    if n == 0 then [] else Volley(cfg, a, first) + Volleys(cfg, a, first + 1, n - 1)
  }

  function Times(n: nat, k: nat): nat {
    if n == 0 then 0 else k + Times(n - 1, k)
  }

  lemma {:induction false} TimesIsProduct(n: nat, k: nat)
    ensures Times(n, k) == n * k
  {
    if n > 0 {
      TimesIsProduct(n - 1, k);
    }
  }

  lemma GuessAll(cfg: Config, s: Store, a: Addr, r: Req, first: Req, shown: int, end: int, lo: int, hi: int)
      returns (s': Store)
    requires cfg.Valid() && cfg.maxTries >= 1 && lo <= s.now < hi
    requires Ready(cfg, s, a, first, shown, end) && Guessable(cfg, s, a, r, cfg.maxTries)
    ensures Leads(cfg, s, Guesses(a, r, Cap(cfg)), s', a, lo, hi, Cap(cfg))
    ensures s'.now == s.now && s'.sends == s.sends && Ready(cfg, s', a, first, shown, end)
  {
    GuessesCounted(cfg, s, a, r, Cap(cfg), lo, hi);
    s' := Run(cfg, s, Guesses(a, r, Cap(cfg)));
    ReadyGuessed(cfg, s, s', a, first, shown, end);
  }

  lemma OneVolley(cfg: Config, s: Store, a: Addr, r: Req, shown: int, end: int, lo: int, hi: int) returns (s': Store)
    requires cfg.Valid() && cfg.maxTries >= 1 && lo <= s.now < hi
    requires Ready(cfg, s, a, r, shown, end) && shown < cfg.sendLimit
    ensures Leads(cfg, s, Volley(cfg, a, r), s', a, lo, hi, Cap(cfg))
    ensures s'.now == s.now && Ready(cfg, s', a, r + 1, shown + 1, end)
  {
    var e := Request(a, 0, r);
    ReadySend(cfg, s, a, r, shown, end);
    LeadsQuietly(cfg, s, e, a, lo, hi);
    s' := GuessAll(cfg, Step(cfg, s, e), a, r, r + 1, shown + 1, end, lo, hi);
    LeadsOn(cfg, s, [e], Step(cfg, s, e), Guesses(a, r, Cap(cfg)), s', a, lo, hi, 0, Cap(cfg));
  }

  lemma {:induction false} VolleysCounted(cfg: Config, s: Store, a: Addr, first: Req, n: nat, shown: int, end: int,
                                          lo: int, hi: int) returns (s': Store)
    requires cfg.Valid() && cfg.maxTries >= 1 && lo <= s.now < hi
    requires Ready(cfg, s, a, first, shown, end) && shown + n <= cfg.sendLimit
    ensures Leads(cfg, s, Volleys(cfg, a, first, n), s', a, lo, hi, Times(n, Cap(cfg)))
    ensures s'.now == s.now && Ready(cfg, s', a, first + n, shown + n, end)
    decreases n
  {
    if n == 0 {
      s' := s;
    } else {
      var s1 := OneVolley(cfg, s, a, first, shown, end, lo, hi);
      s' := VolleysCounted(cfg, s1, a, first + 1, n - 1, shown + 1, end, lo, hi);
      LeadsOn(cfg, s, Volley(cfg, a, first), s1, Volleys(cfg, a, first + 1, n - 1), s', a, lo, hi,
              Cap(cfg), Times(n - 1, Cap(cfg)));
    }
  }

  // ----- the run -----

  /** One send opens a window and is left alone until the window's last second. */
  function Bait(cfg: Config, a: Addr): seq<Event>
    requires cfg.Valid()
  {
    [Request(a, 0, 0)] + [Tick(cfg.blockSec - 1)]
  }

  lemma BaitSet(cfg: Config, a: Addr, lo: int, hi: int) returns (s: Store)
    requires cfg.Valid() && cfg.sendLimit >= 1 && cfg.blockSec >= 2 && cfg.otpTtl + cfg.grace >= cfg.blockSec
    ensures Leads(cfg, Initial(0), Bait(cfg, a), s, a, lo, hi, 0)
    ensures s.now == cfg.blockSec - 1 && Ready(cfg, s, a, 1, 1, cfg.blockSec)
    ensures Guessable(cfg, s, a, 0, cfg.maxTries)
  {
    var s0, e, t := Initial(0), Request(a, 0, 0), Tick(cfg.blockSec - 1);
    ReadySend(cfg, s0, a, 0, 0, cfg.blockSec);
    LeadsQuietly(cfg, s0, e, a, lo, hi);
    var s1 := Step(cfg, s0, e);
    ReadyTick(cfg, s1, a, cfg.blockSec - 1, 1, 1, cfg.blockSec);
    LeadsQuietly(cfg, s1, t, a, lo, hi);
    s := Step(cfg, s1, t);
    LeadsOn(cfg, s0, [e], s1, [t], s, a, lo, hi, 0, 0);
  }

  /** Then the first code is guessed at, as are those of the rest of the window's allowance ... */
  function AfterBait(cfg: Config, a: Addr): seq<Event>
    requires cfg.sendLimit >= 1
  {
    Guesses(a, 0, Cap(cfg)) + Volleys(cfg, a, 1, cfg.sendLimit - 1)
  }

  function FirstHalf(cfg: Config, a: Addr): seq<Event>
    requires cfg.Valid() && cfg.sendLimit >= 1
  {
    Bait(cfg, a) + AfterBait(cfg, a)
  }

  /** ... and, a second later, those of the next window's. */
  function SecondHalf(cfg: Config, a: Addr): seq<Event>
    requires cfg.sendLimit >= 1
  {
    [Tick(1)] + Volleys(cfg, a, cfg.sendLimit, cfg.sendLimit)
  }

  lemma AfterBaitCounted(cfg: Config, s: Store, a: Addr, end: int, lo: int, hi: int) returns (s': Store)
    requires cfg.Valid() && cfg.sendLimit >= 1 && cfg.maxTries >= 1 && lo <= s.now < hi
    requires Ready(cfg, s, a, 1, 1, end) && Guessable(cfg, s, a, 0, cfg.maxTries)
    ensures Leads(cfg, s, AfterBait(cfg, a), s', a, lo, hi, Times(cfg.sendLimit, Cap(cfg)))
    ensures s'.now == s.now && Ready(cfg, s', a, cfg.sendLimit, cfg.sendLimit, end)
  {
    var n := cfg.sendLimit - 1;
    var s1 := GuessAll(cfg, s, a, 0, 1, 1, end, lo, hi);
    s' := VolleysCounted(cfg, s1, a, 1, n, 1, end, lo, hi);
    LeadsOn(cfg, s, Guesses(a, 0, Cap(cfg)), s1, Volleys(cfg, a, 1, n), s', a, lo, hi, Cap(cfg), Times(n, Cap(cfg)));
  }

  lemma FirstHalfCounted(cfg: Config, a: Addr, lo: int, hi: int) returns (s: Store)
    requires cfg.Valid() && cfg.sendLimit >= 1 && cfg.maxTries >= 1 && 1 <= lo == cfg.blockSec - 1 < hi
    requires cfg.otpTtl + cfg.grace >= cfg.blockSec
    ensures Leads(cfg, Initial(0), FirstHalf(cfg, a), s, a, lo, hi, Times(cfg.sendLimit, Cap(cfg)))
    ensures s.now == cfg.blockSec - 1 && Ready(cfg, s, a, cfg.sendLimit, cfg.sendLimit, cfg.blockSec)
  {
    var s1 := BaitSet(cfg, a, lo, hi);
    s := AfterBaitCounted(cfg, s1, a, cfg.blockSec, lo, hi);
    LeadsOn(cfg, Initial(0), Bait(cfg, a), s1, AfterBait(cfg, a), s, a, lo, hi, 0, Times(cfg.sendLimit, Cap(cfg)));
  }

  lemma SecondHalfCounted(cfg: Config, s: Store, a: Addr, lo: int, hi: int) returns (s': Store)
    requires cfg.Valid() && cfg.sendLimit >= 1 && cfg.maxTries >= 1 && lo <= s.now + 1 < hi
    requires Ready(cfg, s, a, cfg.sendLimit, cfg.sendLimit, s.now + 1)
    ensures Leads(cfg, s, SecondHalf(cfg, a), s', a, lo, hi, Times(cfg.sendLimit, Cap(cfg)))
  {
    var n, t := cfg.sendLimit, Tick(1);
    ReadyTick(cfg, s, a, 1, n, n, s.now + 1);
    LeadsQuietly(cfg, s, t, a, lo, hi);
    var s1 := Step(cfg, s, t);
    s' := VolleysCounted(cfg, s1, a, n, n, 0, s1.now + cfg.blockSec, lo, hi);
    LeadsOn(cfg, s, [t], s1, Volleys(cfg, a, n, n), s', a, lo, hi, 0, Times(n, Cap(cfg)));
  }

  /** The bound is reached whenever a code lives through a window, whatever the two limits are. */
  lemma GuessRateReached(cfg: Config, a: Addr)
    requires cfg.Valid() && cfg.sendLimit >= 1 && cfg.maxTries >= 1 && cfg.blockSec >= 2
    requires cfg.otpTtl + cfg.grace >= cfg.blockSec
    ensures var es := FirstHalf(cfg, a) + SecondHalf(cfg, a);
            var lo := cfg.blockSec - 1;
            && FreshRun(cfg, Initial(0), es)
            && GuessesIn(cfg, Initial(0), es, a, lo, lo + cfg.blockSec) == 2 * Limit(cfg) * Cap(cfg)
  {
    var lo, hi, n := cfg.blockSec - 1, cfg.blockSec - 1 + cfg.blockSec, cfg.sendLimit;
    var s1 := FirstHalfCounted(cfg, a, lo, hi);
    var s2 := SecondHalfCounted(cfg, s1, a, lo, hi);
    LeadsOn(cfg, Initial(0), FirstHalf(cfg, a), s1, SecondHalf(cfg, a), s2, a, lo, hi, Times(n, Cap(cfg)), Times(n, Cap(cfg)));
    TimesIsProduct(n, Cap(cfg));
    assert n * Cap(cfg) + n * Cap(cfg) == 2 * n * Cap(cfg);
  }
}
