/** Bounds that hold over every run of the one-time-code protocol. */
module OtpProofs {
  import opened Options
  import opened Redis
  import opened Otp

  // ----- codes and tries -----

  /** A stored request belongs to its address, and its key outlives it by the grace period. */
  ghost predicate OtpsOwned(cfg: Config, s: Store) {
    forall a | a in s.otp ::
      && s.otp[a].expiry == At(s.otp[a].value.exp + cfg.grace)
      && s.otp[a].value.req in s.owner && s.owner[s.otp[a].value.req] == a
  }

  /** A live try counter is below the limit and expires with its code. */
  ghost predicate TriesLimited(cfg: Config, s: Store) {
    forall a | Live(s.tries, a, s.now) ::
      && Live(s.otp, a, s.now) && s.tries[a].expiry == s.otp[a].expiry
      && 1 <= s.tries[a].value < cfg.maxTries
  }

  ghost predicate KeysOwned(cfg: Config, s: Store) {
    && (forall a | a in s.ok :: s.ok[a].value in s.owner && s.owner[s.ok[a].value] == a)
    && (cfg.flow == Reset ==> s.ok == map[])
  }

  ghost predicate CodesOk(cfg: Config, s: Store) {
    OtpsOwned(cfg, s) && TriesLimited(cfg, s) && KeysOwned(cfg, s)
  }

  lemma RequestOtpsOwned(cfg: Config, s: Store, a: Addr, code: Code, req: Req)
    requires OtpsOwned(cfg, s) && req !in s.owner
    ensures OtpsOwned(cfg, RequestStep(cfg, s, a, code, req))
  {
    var s' := RequestStep(cfg, s, a, code, req);
    forall b | b in s'.otp && b != a
      ensures s'.otp[b] == s.otp[b] && s.otp[b].value.req != req
    {
    }
  }

  lemma RequestTriesLimited(cfg: Config, s: Store, a: Addr, code: Code, req: Req)
    requires TriesLimited(cfg, s)
    ensures TriesLimited(cfg, RequestStep(cfg, s, a, code, req))
  {
    var s' := RequestStep(cfg, s, a, code, req);
    forall b | Live(s'.tries, b, s'.now)
      ensures Live(s.tries, b, s.now) && s'.tries[b] == s.tries[b] && s'.otp[b] == s.otp[b]
    {
      assert Live(s.tries, b, s.now);
    }
  }

  lemma RequestKeysOwned(cfg: Config, s: Store, a: Addr, code: Code, req: Req)
    requires KeysOwned(cfg, s) && req !in s.owner
    ensures KeysOwned(cfg, RequestStep(cfg, s, a, code, req))
  {
  }

  /** A wrong code leaves a counter that shows one more and expires with the code. */
  lemma WrongCodeCounted(cfg: Config, s: Store, a: Addr)
    requires cfg.Valid() && CodesOk(cfg, s) && Live(s.otp, a, s.now)
    ensures var left := s.otp[a].value.exp + cfg.grace - s.now;
            left >= 1
            && Expire(Incr(s.tries, a, s.now), a, s.now, left) == s.tries[a := Entry(Tried(s, a) + 1, s.otp[a].expiry)]
  {
  }

  /** A verification leaves codes and counters alone, counts one more wrong code, or deletes both. */
  lemma VerifyCounts(cfg: Config, s: Store, a: Addr, req: Req, code: Code)
    requires cfg.Valid() && CodesOk(cfg, s)
    ensures var s', v := VerifyStep(cfg, s, a, req, code), VerdictOf(cfg, s, a, req, code);
            match v
            case WrongCode(_) =>
              && Live(s.otp, a, s.now) && Tried(s, a) + 1 < cfg.maxTries
              && s' == s.(tries := s.tries[a := Entry(Tried(s, a) + 1, s.otp[a].expiry)])
            case TooManyTries => s' == s.(otp := s.otp - {a}, tries := s.tries - {a})
            case _ => s' == s.(ok := s'.ok)
  {
    if Live(s.otp, a, s.now) {
      WrongCodeCounted(cfg, s, a);
    }
  }

  lemma VerifyTriesLimited(cfg: Config, s: Store, a: Addr, req: Req, code: Code)
    requires cfg.Valid() && CodesOk(cfg, s)
    ensures TriesLimited(cfg, VerifyStep(cfg, s, a, req, code))
  {
    VerifyCounts(cfg, s, a, req, code);
    var s' := VerifyStep(cfg, s, a, req, code);
    forall b | Live(s'.tries, b, s'.now)
      ensures Live(s'.otp, b, s'.now) && s'.tries[b].expiry == s'.otp[b].expiry && 1 <= s'.tries[b].value < cfg.maxTries
    {
      assert b == a || Live(s.tries, b, s.now);
    }
  }

  /** What a verification leaves of codes and ok keys. */
  lemma VerifyKeeps(cfg: Config, s: Store, a: Addr, req: Req, code: Code)
    ensures var s' := VerifyStep(cfg, s, a, req, code);
            && s'.now == s.now && s'.owner == s.owner
            && (s'.otp == s.otp || s'.otp == Delete(s.otp, a))
            && (s'.ok == s.ok
                || (cfg.flow != Reset && Live(s.otp, a, s.now) && s.otp[a].value.req == req
                    && s'.ok == SetEx(s.ok, a, req, s.now, OkLife(cfg))))
  {
  }

  lemma VerifyCodesOk(cfg: Config, s: Store, a: Addr, req: Req, code: Code)
    requires cfg.Valid() && CodesOk(cfg, s)
    ensures CodesOk(cfg, VerifyStep(cfg, s, a, req, code))
  {
    VerifyTriesLimited(cfg, s, a, req, code);
    VerifyKeeps(cfg, s, a, req, code);
  }

  lemma ConsumeCodesOk(cfg: Config, s: Store, a: Addr, req: Req, accountOk: bool)
    requires cfg.Valid() && CodesOk(cfg, s)
    ensures CodesOk(cfg, ConsumeStep(cfg, s, a, req, accountOk))
  {
  }

  lemma StepCodesOk(cfg: Config, s: Store, e: Event)
    requires cfg.Valid() && CodesOk(cfg, s) && FreshEvent(s, e)
    ensures CodesOk(cfg, Step(cfg, s, e))
  {
    match e
    case Tick(_) =>
    case Request(a, code, req) =>
      RequestOtpsOwned(cfg, s, a, code, req);
      RequestTriesLimited(cfg, s, a, code, req);
      RequestKeysOwned(cfg, s, a, code, req);
    case Verify(a, req, code) => VerifyCodesOk(cfg, s, a, req, code);
    case Consume(a, req, accountOk) => ConsumeCodesOk(cfg, s, a, req, accountOk);
  }

  lemma {:induction false} RunCodesOk(cfg: Config, s: Store, es: seq<Event>)
    requires cfg.Valid() && CodesOk(cfg, s) && FreshRun(cfg, s, es)
    ensures CodesOk(cfg, Run(cfg, s, es))
    decreases es
  {
    if es != [] {
      StepCodesOk(cfg, s, es[0]);
      RunCodesOk(cfg, Step(cfg, s, es[0]), es[1..]);
    }
  }

  /** With one clock the expiry test inside a verification never fires: the key is gone first. */
  lemma NeverExpired(cfg: Config, start: int, es: seq<Event>, a: Addr, req: Req, code: Code)
    requires cfg.Valid() && FreshRun(cfg, Initial(start), es)
    ensures VerdictOf(cfg, Run(cfg, Initial(start), es), a, req, code) != Expired
  {
    RunCodesOk(cfg, Initial(start), es);
  }

  // ----- wrong guesses -----

  /** The wrong guesses a code allows; one even if the configured number is not positive. */
  function Cap(cfg: Config): nat {
    if cfg.maxTries < 1 then 1 else cfg.maxTries
  }

  /** How many wrong guesses can still be compared with the code issued under `req`. */
  function Budget(cfg: Config, s: Store, req: Req): int {
    if req !in s.owner then Cap(cfg)
    else
      var a := s.owner[req];
      if Live(s.otp, a, s.now) && s.otp[a].value.req == req then Cap(cfg) - Tried(s, a) else 0
  }

  lemma BudgetNonNegative(cfg: Config, s: Store, req: Req)
    requires CodesOk(cfg, s)
    ensures 0 <= Budget(cfg, s, req) <= Cap(cfg)
  {
  }

  lemma VerifyBudget(cfg: Config, s: Store, a: Addr, r: Req, code: Code, req: Req)
    requires cfg.Valid() && CodesOk(cfg, s)
    ensures Budget(cfg, VerifyStep(cfg, s, a, r, code), req)
            + (if WrongGuess(cfg, s, Verify(a, r, code), req) then 1 else 0) <= Budget(cfg, s, req)
  {
    BudgetNonNegative(cfg, s, req);
    VerifyCounts(cfg, s, a, r, code);
  }

  lemma RequestBudget(cfg: Config, s: Store, a: Addr, code: Code, r: Req, req: Req)
    requires CodesOk(cfg, s) && r !in s.owner
    ensures Budget(cfg, RequestStep(cfg, s, a, code, r), req) <= Budget(cfg, s, req)
  {
    BudgetNonNegative(cfg, s, req);
  }

  lemma ConsumeBudget(cfg: Config, s: Store, a: Addr, r: Req, accountOk: bool, req: Req)
    requires CodesOk(cfg, s)
    ensures Budget(cfg, ConsumeStep(cfg, s, a, r, accountOk), req) <= Budget(cfg, s, req)
  {
    BudgetNonNegative(cfg, s, req);
  }

  lemma TickBudget(cfg: Config, s: Store, d: nat, req: Req)
    requires CodesOk(cfg, s)
    ensures Budget(cfg, s.(now := s.now + d), req) <= Budget(cfg, s, req)
  {
    BudgetNonNegative(cfg, s, req);
  }

  /** A step uses up one unit of the budget per wrong guess and never adds to it. */
  lemma StepBudget(cfg: Config, s: Store, e: Event, req: Req)
    requires cfg.Valid() && CodesOk(cfg, s) && FreshEvent(s, e)
    ensures Budget(cfg, Step(cfg, s, e), req) + (if WrongGuess(cfg, s, e, req) then 1 else 0) <= Budget(cfg, s, req)
  {
    match e
    case Tick(d) => TickBudget(cfg, s, d, req);
    case Request(a, code, r) => RequestBudget(cfg, s, a, code, r, req);
    case Verify(a, r, code) => VerifyBudget(cfg, s, a, r, code, req);
    case Consume(a, r, accountOk) => ConsumeBudget(cfg, s, a, r, accountOk, req);
  }

  lemma {:induction false} RunBudget(cfg: Config, s: Store, es: seq<Event>, req: Req)
    requires cfg.Valid() && CodesOk(cfg, s) && FreshRun(cfg, s, es)
    ensures WrongGuesses(cfg, s, es, req) <= Budget(cfg, s, req)
    decreases es
  {
    BudgetNonNegative(cfg, s, req);
    if es != [] {
      StepCodesOk(cfg, s, es[0]);
      StepBudget(cfg, s, es[0], req);
      RunBudget(cfg, Step(cfg, s, es[0]), es[1..], req);
      assert WrongGuesses(cfg, s, es, req)
          == (if WrongGuess(cfg, s, es[0], req) then 1 else 0)
             + WrongGuesses(cfg, Step(cfg, s, es[0]), es[1..], req);
    }
  }

  /** Whatever requests, verifications, consumptions and waits happen, in any order, at most `maxTries`
      wrong codes are ever compared with the code issued under one request id. */
  lemma GuessBound(cfg: Config, start: int, es: seq<Event>, req: Req)
    requires cfg.Valid() && FreshRun(cfg, Initial(start), es)
    ensures WrongGuesses(cfg, Initial(start), es, req) <= Cap(cfg)
  {
    RunBudget(cfg, Initial(start), es, req);
  }

  /** The bound is reached: from a fresh code, that many wrong guesses in a row are all compared, and the
      last one deletes the code. */
  lemma {:induction false} GuessBoundReached(cfg: Config, s: Store, a: Addr, req: Req, wrong: Code, k: nat)
    requires cfg.Valid() && CodesOk(cfg, s)
    requires Live(s.otp, a, s.now) && s.otp[a].value.req == req && s.otp[a].value.code != wrong
    requires k == Cap(cfg) - Tried(s, a)
    ensures var es := seq(k, i => Verify(a, req, wrong));
            WrongGuesses(cfg, s, es, req) == k && !Live(Run(cfg, s, es).otp, a, s.now)
    decreases k
  {
    var es := seq(k, i => Verify(a, req, wrong));
    var s' := Step(cfg, s, es[0]);
    StepCodesOk(cfg, s, es[0]);
    assert WrongGuess(cfg, s, es[0], req);
    assert es[1..] == seq(k - 1, i => Verify(a, req, wrong));
    if k > 1 {
      GuessBoundReached(cfg, s', a, req, wrong, k - 1);
    }
    assert WrongGuesses(cfg, s, es, req) == 1 + WrongGuesses(cfg, s', es[1..], req);
  }

  // ----- the ok key -----

  function OkLive(s: Store, a: Addr): nat {
    if Live(s.ok, a, s.now) then 1 else 0
  }

  /** For sign-up and driver login: between any two states of a run, the requests consumed at an address,
      plus one if an ok key is left, never exceed the successful verifications plus the key there was. */
  lemma {:induction false} OkKeyConserved(cfg: Config, s: Store, es: seq<Event>, a: Addr)
    requires cfg.flow != Reset
    ensures Consumptions(cfg, s, es, a) + OkLive(Run(cfg, s, es), a) <= Verifies(cfg, s, es, a) + OkLive(s, a)
    decreases es
  {
    if es != [] {
      var s' := Step(cfg, s, es[0]);
      OkKeyConserved(cfg, s', es[1..], a);
      assert Consumptions(cfg, s, es, a)
          == (if ConsumedAt(cfg, s, es[0], a) then 1 else 0) + Consumptions(cfg, s', es[1..], a);
      assert Verifies(cfg, s, es, a)
          == (if VerifiedAt(cfg, s, es[0], a) then 1 else 0) + Verifies(cfg, s', es[1..], a);
    }
  }

  /** Whether a sign-up request can still be consumed. */
  function Credit(s: Store, req: Req): nat {
    if req !in s.owner then 1
    else
      var a := s.owner[req];
      if (Live(s.otp, a, s.now) && s.otp[a].value.req == req) || Get(s.ok, a, s.now) == Some(req) then 1 else 0
  }

  lemma RequestCredit(cfg: Config, s: Store, a: Addr, code: Code, r: Req, req: Req)
    requires CodesOk(cfg, s) && r !in s.owner
    ensures Credit(RequestStep(cfg, s, a, code, r), req) <= Credit(s, req)
  {
  }

  lemma VerifyCredit(cfg: Config, s: Store, a: Addr, r: Req, code: Code, req: Req)
    requires CodesOk(cfg, s)
    ensures Credit(VerifyStep(cfg, s, a, r, code), req) <= Credit(s, req)
  {
    VerifyKeeps(cfg, s, a, r, code);
  }

  lemma ConsumeCredit(cfg: Config, s: Store, a: Addr, r: Req, accountOk: bool, req: Req)
    requires CodesOk(cfg, s) && cfg.flow != Driver
    ensures Credit(ConsumeStep(cfg, s, a, r, accountOk), req)
            + (if ConsumedUnder(cfg, s, Consume(a, r, accountOk), req) then 1 else 0) <= Credit(s, req)
  {
  }

  lemma StepCredit(cfg: Config, s: Store, e: Event, req: Req)
    requires cfg.Valid() && CodesOk(cfg, s) && FreshEvent(s, e) && cfg.flow != Driver
    ensures Credit(Step(cfg, s, e), req) + (if ConsumedUnder(cfg, s, e, req) then 1 else 0) <= Credit(s, req)
  {
    match e
    case Tick(_) =>
    case Request(a, code, r) => RequestCredit(cfg, s, a, code, r, req);
    case Verify(a, r, code) => VerifyCredit(cfg, s, a, r, code, req);
    case Consume(a, r, accountOk) => ConsumeCredit(cfg, s, a, r, accountOk, req);
  }

  lemma {:induction false} RunCredit(cfg: Config, s: Store, es: seq<Event>, req: Req)
    requires cfg.Valid() && CodesOk(cfg, s) && FreshRun(cfg, s, es) && cfg.flow != Driver
    ensures ConsumptionsUnder(cfg, s, es, req) <= Credit(s, req)
    decreases es
  {
    if es != [] {
      StepCodesOk(cfg, s, es[0]);
      StepCredit(cfg, s, es[0], req);
      RunCredit(cfg, Step(cfg, s, es[0]), es[1..], req);
      assert ConsumptionsUnder(cfg, s, es, req)
          == (if ConsumedUnder(cfg, s, es[0], req) then 1 else 0)
             + ConsumptionsUnder(cfg, Step(cfg, s, es[0]), es[1..], req);
    }
  }

  /** A request id completes at most one sign-up, and at most one password reset. */
  lemma ConsumedOnce(cfg: Config, start: int, es: seq<Event>, req: Req)
    requires cfg.Valid() && FreshRun(cfg, Initial(start), es) && cfg.flow != Driver
    ensures ConsumptionsUnder(cfg, Initial(start), es, req) <= 1
  {
    RunCredit(cfg, Initial(start), es, req);
  }

  /** A driver who keeps the code logs in again and again under one request id. */
  function Reuse(a: Addr, req: Req, code: Code, k: nat): seq<Event> {
    if k == 0 then [] else [Verify(a, req, code), Consume(a, req, true)] + Reuse(a, req, code, k - 1)
  }

  /** Without the proviso on the flow the claim fails for every number: a driver's code stays stored after a
      verification, so while it lives each new verification gives a new ok key, and each key one more login. */
  lemma {:induction false} StoredCodeReused(cfg: Config, s: Store, a: Addr, req: Req, code: Code, k: nat)
    requires cfg.Valid() && cfg.flow == Driver && VerdictOf(cfg, s, a, req, code) == Verified
    ensures FreshRun(cfg, s, Reuse(a, req, code, k))
    ensures ConsumptionsUnder(cfg, s, Reuse(a, req, code, k), req) == k
    decreases k
  {
    if k > 0 {
      var es := Reuse(a, req, code, k);
      var s1 := Step(cfg, s, es[0]);
      var s2 := Step(cfg, s1, es[1]);
      assert es[1..][1..] == Reuse(a, req, code, k - 1);
      StoredCodeReused(cfg, s2, a, req, code, k - 1);
      assert ConsumptionsUnder(cfg, s1, es[1..], req) == 1 + ConsumptionsUnder(cfg, s2, es[1..][1..], req);
      assert ConsumptionsUnder(cfg, s, es, req) == ConsumptionsUnder(cfg, s1, es[1..], req);
    }
  }

  /** So from the very start one request is enough for any number of logins. */
  lemma DriverIdReused(cfg: Config, start: int, a: Addr, req: Req, code: Code, k: nat)
    requires cfg.Valid() && cfg.flow == Driver && cfg.sendLimit >= 1
    ensures var es := [Request(a, code, req)] + Reuse(a, req, code, k);
            FreshRun(cfg, Initial(start), es) && ConsumptionsUnder(cfg, Initial(start), es, req) == k
  {
    var s, e := Initial(start), Request(a, code, req);
    var s1 := Step(cfg, s, e);
    StoredCodeReused(cfg, s1, a, req, code, k);
    var es := [e] + Reuse(a, req, code, k);
    assert es[1..] == Reuse(a, req, code, k);
    assert ConsumptionsUnder(cfg, s, es, req) == ConsumptionsUnder(cfg, s1, es[1..], req);
  }

  // ----- only after the right code -----

  /** Event `i` of the run issued `code` under `req` for `a`. */
  predicate Issued(es: seq<Event>, i: nat, a: Addr, code: Code, req: Req) {
    i < |es| && es[i] == Request(a, code, req)
  }

  /** Event `j` verified, after event `i` issued it, the very code sent under `req`. */
  predicate Proved(es: seq<Event>, i: nat, j: nat, a: Addr, req: Req) {
    i < j < |es| && es[i].Request? && es[i].addr == a && es[i].req == req && es[j] == Verify(a, req, es[i].code)
  }

  ghost predicate Justified(s: Store, es: seq<Event>) {
    && (forall a | a in s.otp :: exists i: nat :: Issued(es, i, a, s.otp[a].value.code, s.otp[a].value.req))
    && (forall a | a in s.ok :: exists i: nat, j: nat :: Proved(es, i, j, a, s.ok[a].value))
  }

  lemma OtpWritten(cfg: Config, s: Store, e: Event, a: Addr)
    requires a in Step(cfg, s, e).otp && !(a in s.otp && Step(cfg, s, e).otp[a] == s.otp[a])
    ensures e == Request(a, Step(cfg, s, e).otp[a].value.code, Step(cfg, s, e).otp[a].value.req)
  {
  }

  lemma OkWritten(cfg: Config, s: Store, e: Event, a: Addr)
    requires a in Step(cfg, s, e).ok && !(a in s.ok && Step(cfg, s, e).ok[a] == s.ok[a])
    ensures a in s.otp && e == Verify(a, Step(cfg, s, e).ok[a].value, s.otp[a].value.code)
    ensures Step(cfg, s, e).ok[a].value == s.otp[a].value.req
  {
  }

  lemma StepJustified(cfg: Config, s: Store, es: seq<Event>, e: Event)
    requires Justified(s, es)
    ensures Justified(Step(cfg, s, e), es + [e])
  {
    forall a | a in Step(cfg, s, e).otp
      ensures var v := Step(cfg, s, e).otp[a].value; exists i: nat :: Issued(es + [e], i, a, v.code, v.req)
    {
      StepIssued(cfg, s, es, e, a);
    }
    forall a | a in Step(cfg, s, e).ok
      ensures exists i: nat, j: nat :: Proved(es + [e], i, j, a, Step(cfg, s, e).ok[a].value)
    {
      StepProved(cfg, s, es, e, a);
    }
  }

  lemma StepIssued(cfg: Config, s: Store, es: seq<Event>, e: Event, a: Addr)
    requires Justified(s, es) && a in Step(cfg, s, e).otp
    ensures var v := Step(cfg, s, e).otp[a].value; exists i: nat :: Issued(es + [e], i, a, v.code, v.req)
  {
    var v := Step(cfg, s, e).otp[a].value;
    if a in s.otp && Step(cfg, s, e).otp[a] == s.otp[a] {
      var i: nat :| Issued(es, i, a, v.code, v.req);
      assert Issued(es + [e], i, a, v.code, v.req);
    } else {
      OtpWritten(cfg, s, e, a);
      assert Issued(es + [e], |es|, a, v.code, v.req);
    }
  }

  lemma StepProved(cfg: Config, s: Store, es: seq<Event>, e: Event, a: Addr)
    requires Justified(s, es) && a in Step(cfg, s, e).ok
    ensures exists i: nat, j: nat :: Proved(es + [e], i, j, a, Step(cfg, s, e).ok[a].value)
  {
    var req := Step(cfg, s, e).ok[a].value;
    if a in s.ok && Step(cfg, s, e).ok[a] == s.ok[a] {
      var i: nat, j: nat :| Proved(es, i, j, a, req);
      assert Proved(es + [e], i, j, a, req);
    } else {
      OkWritten(cfg, s, e, a);
      var i: nat :| Issued(es, i, a, s.otp[a].value.code, req);
      assert Proved(es + [e], i, |es|, a, req);
    }
  }

  lemma {:induction false} RunJustified(cfg: Config, s: Store, past: seq<Event>, es: seq<Event>)
    requires Justified(s, past)
    ensures Justified(Run(cfg, s, es), past + es)
    decreases es
  {
    if es == [] {
      assert past + es == past;
    } else {
      StepJustified(cfg, s, past, es[0]);
      RunJustified(cfg, Step(cfg, s, es[0]), past + [es[0]], es[1..]);
      assert past + [es[0]] + es[1..] == past + es;
    }
  }

  /** A sign-up or driver login only passes under an id that was requested for that very address and then
      verified there with the code sent under it. */
  lemma PassesOnlyAfterRightCode(cfg: Config, start: int, es: seq<Event>, a: Addr, req: Req, accountOk: bool)
    requires cfg.flow != Reset && Passes(cfg, Run(cfg, Initial(start), es), a, req, accountOk)
    ensures exists i: nat, j: nat :: Proved(es, i, j, a, req)
  {
    RunJustified(cfg, Initial(start), [], es);
    assert [] + es == es;
  }
}
