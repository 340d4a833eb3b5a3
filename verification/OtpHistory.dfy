/** What is stored after a run, told by the run's events alone: the code, its wrong guesses, the ok key.  From it
    follows, for all three flows, what every verification answers and when every use passes. */
module OtpHistory {
  import opened Options
  import opened Redis
  import opened Otp
  import opened OtpProofs

  // ----- events of a run -----

  /** The state before event `k` of a run from the start. */
  function Before(cfg: Config, start: int, es: seq<Event>, k: nat): Store
    requires k <= |es|
  {
    Run(cfg, Initial(start), es[..k])
  }

  function End(cfg: Config, start: int, es: seq<Event>): Store {
    Run(cfg, Initial(start), es)
  }

  ghost predicate AcceptedAt(cfg: Config, start: int, es: seq<Event>, k: nat, a: Addr) {
    k < |es| && es[k].Request? && es[k].addr == a && SendAllowed(cfg, Before(cfg, start, es, k), a)
  }

  /** A use at `a` passed. */
  ghost predicate UsedAt(cfg: Config, start: int, es: seq<Event>, k: nat, a: Addr) {
    k < |es| && ConsumedAt(cfg, Before(cfg, start, es, k), es[k], a)
  }

  /** A verification at `a` succeeded. */
  ghost predicate GivenAt(cfg: Config, start: int, es: seq<Event>, k: nat, a: Addr) {
    k < |es| && VerifiedAt(cfg, Before(cfg, start, es, k), es[k], a)
  }

  lemma Fronts(cfg: Config, start: int, es: seq<Event>, k: nat, a: Addr)
    requires k < |es|
    ensures Before(cfg, start, es[..|es| - 1], k) == Before(cfg, start, es, k)
    ensures k < |es| - 1 ==>
              && (AcceptedAt(cfg, start, es[..|es| - 1], k, a) <==> AcceptedAt(cfg, start, es, k, a))
              && (UsedAt(cfg, start, es[..|es| - 1], k, a) <==> UsedAt(cfg, start, es, k, a))
              && (GivenAt(cfg, start, es[..|es| - 1], k, a) <==> GivenAt(cfg, start, es, k, a))
  {
    assert es[..|es| - 1][..k] == es[..k];
  }

  function One(b: bool): nat {
    if b then 1 else 0
  }

  /** The last event of a run. */
  lemma LastEvent(cfg: Config, start: int, es: seq<Event>, req: Req)
    requires es != []
    ensures var front, e := es[..|es| - 1], es[|es| - 1];
            var s := End(cfg, start, front);
            && Before(cfg, start, es, |es| - 1) == s
            && End(cfg, start, es) == Step(cfg, s, e)
            && s.now <= Step(cfg, s, e).now
            && (FreshRun(cfg, Initial(start), es) ==> FreshRun(cfg, Initial(start), front) && FreshEvent(s, e))
            && WrongGuesses(cfg, Initial(start), es, req)
               == WrongGuesses(cfg, Initial(start), front, req) + One(WrongGuess(cfg, s, e, req))
  {
    var front, e := es[..|es| - 1], es[|es| - 1];
    assert front + [e] == es;
    RunSnoc(cfg, Initial(start), front, e, GuessesUnder(cfg, req));
    TimePasses(cfg, End(cfg, start, front), e);
  }

  lemma TimePasses(cfg: Config, s: Store, e: Event)
    ensures s.now <= Step(cfg, s, e).now
  {
  }

  // ----- the code -----

  /** Event `i` is the last accepted request for `a`. */
  ghost predicate LastAccepted(cfg: Config, start: int, es: seq<Event>, i: nat, a: Addr) {
    AcceptedAt(cfg, start, es, i, a) && forall k | i < k < |es| :: !AcceptedAt(cfg, start, es, k, a)
  }

  /** No use at `a` has passed since; a driver's use leaves the code alone. */
  ghost predicate UnusedSince(cfg: Config, start: int, es: seq<Event>, i: nat, a: Addr) {
    cfg.flow == Driver || forall k | i < k < |es| :: !UsedAt(cfg, start, es, k, a)
  }

  /** What the request at event `i` stored. */
  function IssueOf(cfg: Config, start: int, es: seq<Event>, i: nat): Issue
    requires i < |es| && es[i].Request?
  {
    Issue(es[i].code, es[i].req, Before(cfg, start, es, i).now + cfg.otpTtl)
  }

  /** The code of the last accepted request stands: it has not expired, been used or been guessed out. */
  ghost predicate Standing(cfg: Config, start: int, es: seq<Event>, i: nat, a: Addr) {
    && LastAccepted(cfg, start, es, i, a) && UnusedSince(cfg, start, es, i, a)
    && End(cfg, start, es).now < Before(cfg, start, es, i).now + cfg.otpTtl + cfg.grace
    && WrongGuesses(cfg, Initial(start), es, es[i].req) < Cap(cfg)
  }

  /** The code is stored, with `n` wrong guesses counted. */
  predicate Stored(cfg: Config, s: Store, a: Addr, issue: Issue, n: int) {
    Live(s.otp, a, s.now) && s.otp[a] == Entry(issue, At(issue.exp + cfg.grace)) && Tried(s, a) == n
  }

  lemma VerifiedStays(cfg: Config, s: Store, b: Addr, r: Req, code: Code, a: Addr, issue: Issue, n: nat)
    requires cfg.Valid() && CodesOk(cfg, s) && Stored(cfg, s, a, issue, n)
    requires n + One(WrongGuess(cfg, s, Verify(b, r, code), issue.req)) < Cap(cfg)
    ensures Stored(cfg, VerifyStep(cfg, s, b, r, code), a, issue,
                   n + One(WrongGuess(cfg, s, Verify(b, r, code), issue.req)))
  {
    VerifyCounts(cfg, s, b, r, code);
  }

  /** Nothing but a new request, time, use and guessing takes a stored code away. */
  lemma StoredStays(cfg: Config, s: Store, e: Event, a: Addr, issue: Issue, n: nat)
    requires cfg.Valid() && CodesOk(cfg, s) && FreshEvent(s, e) && Stored(cfg, s, a, issue, n)
    requires !(e.Request? && e.addr == a && SendAllowed(cfg, s, a))
    requires Step(cfg, s, e).now < issue.exp + cfg.grace
    requires cfg.flow == Driver || !ConsumedAt(cfg, s, e, a)
    requires n + One(WrongGuess(cfg, s, e, issue.req)) < Cap(cfg)
    ensures Stored(cfg, Step(cfg, s, e), a, issue, n + One(WrongGuess(cfg, s, e, issue.req)))
  {
    if e.Verify? {
      VerifiedStays(cfg, s, e.addr, e.req, e.code, a, issue, n);
    }
  }

  lemma NotIssuedNotGuessed(cfg: Config, s: Store, e: Event, req: Req)
    requires CodesOk(cfg, s) && req !in Step(cfg, s, e).owner
    ensures req !in s.owner && !WrongGuess(cfg, s, e, req)
  {
  }

  /** No guesses are counted under an id that was not issued. */
  lemma {:induction false} NotIssuedNotCounted(cfg: Config, start: int, es: seq<Event>, req: Req)
    requires cfg.Valid() && FreshRun(cfg, Initial(start), es) && req !in End(cfg, start, es).owner
    ensures WrongGuesses(cfg, Initial(start), es, req) == 0
  {
    if es != [] {
      LastEvent(cfg, start, es, req);
      var front, e := es[..|es| - 1], es[|es| - 1];
      RunCodesOk(cfg, Initial(start), front);
      NotIssuedNotGuessed(cfg, End(cfg, start, front), e, req);
      NotIssuedNotCounted(cfg, start, front, req);
    }
  }

  lemma LastAcceptedFront(cfg: Config, start: int, es: seq<Event>, i: nat, a: Addr)
    requires i < |es| - 1
    ensures LastAccepted(cfg, start, es, i, a)
            <==> LastAccepted(cfg, start, es[..|es| - 1], i, a) && !AcceptedAt(cfg, start, es, |es| - 1, a)
    ensures UnusedSince(cfg, start, es, i, a)
            <==> UnusedSince(cfg, start, es[..|es| - 1], i, a)
                 && (cfg.flow == Driver || !UsedAt(cfg, start, es, |es| - 1, a))
    ensures Before(cfg, start, es[..|es| - 1], i) == Before(cfg, start, es, i)
  {
    var front := es[..|es| - 1];
    forall k | 0 <= k < |front|
      ensures AcceptedAt(cfg, start, front, k, a) <==> AcceptedAt(cfg, start, es, k, a)
      ensures UsedAt(cfg, start, front, k, a) <==> UsedAt(cfg, start, es, k, a)
    {
      Fronts(cfg, start, es, k, a);
    }
    Fronts(cfg, start, es, i, a);
  }

  lemma NewlyStored(cfg: Config, start: int, es: seq<Event>, a: Addr)
    requires cfg.Valid() && FreshRun(cfg, Initial(start), es)
    requires es != [] && AcceptedAt(cfg, start, es, |es| - 1, a)
    ensures Standing(cfg, start, es, |es| - 1, a)
    ensures Stored(cfg, End(cfg, start, es), a, IssueOf(cfg, start, es, |es| - 1),
                   WrongGuesses(cfg, Initial(start), es, es[|es| - 1].req))
  {
    var front, e := es[..|es| - 1], es[|es| - 1];
    LastEvent(cfg, start, es, e.req);
    NotIssuedNotCounted(cfg, start, front, e.req);
  }

  /** A code that stands is stored, as it was sent and with exactly its wrong guesses counted. */
  lemma {:induction false} StandingIsStored(cfg: Config, start: int, es: seq<Event>, i: nat, a: Addr)
    requires cfg.Valid() && FreshRun(cfg, Initial(start), es) && Standing(cfg, start, es, i, a)
    ensures Stored(cfg, End(cfg, start, es), a, IssueOf(cfg, start, es, i),
                   WrongGuesses(cfg, Initial(start), es, es[i].req))
  {
    var front, e, req := es[..|es| - 1], es[|es| - 1], es[i].req;
    if i == |es| - 1 {
      NewlyStored(cfg, start, es, a);
    } else {
      LastEvent(cfg, start, es, req);
      LastAcceptedFront(cfg, start, es, i, a);
      StandingIsStored(cfg, start, front, i, a);
      RunCodesOk(cfg, Initial(start), front);
      StoredStays(cfg, End(cfg, start, front), e, a, IssueOf(cfg, start, es, i),
                  WrongGuesses(cfg, Initial(start), front, req));
    }
  }

  lemma KeptByVerify(cfg: Config, s: Store, b: Addr, req: Req, code: Code, a: Addr)
    requires cfg.Valid() && CodesOk(cfg, s) && Live(VerifyStep(cfg, s, b, req, code).otp, a, s.now)
    ensures Live(s.otp, a, s.now) && VerifyStep(cfg, s, b, req, code).otp[a] == s.otp[a]
    ensures Tried(s, a) + One(WrongGuess(cfg, s, Verify(b, req, code), s.otp[a].value.req)) < Cap(cfg)
  {
    VerifyCounts(cfg, s, b, req, code);
  }

  lemma KeptByConsume(cfg: Config, s: Store, b: Addr, req: Req, accountOk: bool, a: Addr)
    requires CodesOk(cfg, s) && Live(ConsumeStep(cfg, s, b, req, accountOk).otp, a, s.now)
    ensures Live(s.otp, a, s.now) && ConsumeStep(cfg, s, b, req, accountOk).otp[a] == s.otp[a]
    ensures cfg.flow == Driver || !ConsumedAt(cfg, s, Consume(b, req, accountOk), a)
  {
  }

  lemma KeptByRequest(cfg: Config, s: Store, b: Addr, code: Code, req: Req, a: Addr)
    requires Live(RequestStep(cfg, s, b, code, req).otp, a, s.now) && (b != a || !SendAllowed(cfg, s, a))
    ensures Live(s.otp, a, s.now) && RequestStep(cfg, s, b, code, req).otp[a] == s.otp[a]
  {
  }

  /** What a step did to a code that is stored after it. */
  lemma KeptCode(cfg: Config, s: Store, e: Event, a: Addr)
    requires cfg.Valid() && CodesOk(cfg, s) && FreshEvent(s, e)
    requires Live(Step(cfg, s, e).otp, a, Step(cfg, s, e).now)
    requires !(e.Request? && e.addr == a && SendAllowed(cfg, s, a))
    ensures Live(s.otp, a, s.now) && Step(cfg, s, e).otp[a] == s.otp[a]
    ensures cfg.flow == Driver || !ConsumedAt(cfg, s, e, a)
    ensures Tried(s, a) + One(WrongGuess(cfg, s, e, s.otp[a].value.req)) < Cap(cfg)
  {
    match e
    case Tick(_) =>
    case Request(b, code, req) => KeptByRequest(cfg, s, b, code, req, a);
    case Verify(b, req, code) => KeptByVerify(cfg, s, b, req, code, a);
    case Consume(b, req, accountOk) => KeptByConsume(cfg, s, b, req, accountOk, a);
  }

  /** A stored code stands. */
  lemma {:induction false} StoredIsStanding(cfg: Config, start: int, es: seq<Event>, a: Addr) returns (i: nat)
    requires cfg.Valid() && FreshRun(cfg, Initial(start), es)
    requires Live(End(cfg, start, es).otp, a, End(cfg, start, es).now)
    ensures Standing(cfg, start, es, i, a)
  {
    var front, e := es[..|es| - 1], es[|es| - 1];
    if AcceptedAt(cfg, start, es, |es| - 1, a) {
      i := |es| - 1;
      NewlyStored(cfg, start, es, a);
    } else {
      var s := End(cfg, start, front);
      LastEvent(cfg, start, es, 0);
      RunCodesOk(cfg, Initial(start), front);
      KeptCode(cfg, s, e, a);
      i := StoredIsStanding(cfg, start, front, a);
      StandingIsStored(cfg, start, front, i, a);
      LastEvent(cfg, start, es, es[i].req);
      LastAcceptedFront(cfg, start, es, i, a);
    }
  }

  /** What every verification answers, in every run: it is compared with the code that stands for its address, if
      one does, and told how many wrong guesses that code still allows. */
  lemma VerdictExact(cfg: Config, start: int, es: seq<Event>, a: Addr, req: Req, code: Code)
    requires cfg.Valid() && FreshRun(cfg, Initial(start), es)
    ensures var v := VerdictOf(cfg, End(cfg, start, es), a, req, code);
            && (v == NotFound <==> forall i: nat :: !Standing(cfg, start, es, i, a))
            && forall i: nat | Standing(cfg, start, es, i, a) ::
                 var left := cfg.maxTries - WrongGuesses(cfg, Initial(start), es, es[i].req) - 1;
                 v == if req != es[i].req then Mismatch
                      else if code == es[i].code then Verified
                      else if left > 0 then WrongCode(left)
                      else TooManyTries
  {
    var s := End(cfg, start, es);
    if Live(s.otp, a, s.now) {
      var i := StoredIsStanding(cfg, start, es, a);
    }
    forall i: nat | Standing(cfg, start, es, i, a)
      ensures Stored(cfg, s, a, IssueOf(cfg, start, es, i), WrongGuesses(cfg, Initial(start), es, es[i].req))
    {
      StandingIsStored(cfg, start, es, i, a);
    }
  }

  // ----- the ok key -----

  /** The last verification at `a` that succeeded, and no use has passed since. */
  ghost predicate LastGiven(cfg: Config, start: int, es: seq<Event>, j: nat, a: Addr) {
    && GivenAt(cfg, start, es, j, a)
    && forall k | j < k < |es| :: !GivenAt(cfg, start, es, k, a) && !UsedAt(cfg, start, es, k, a)
  }

  /** The seconds a verification is good for: the grace period is added for a sign-up only. */
  function GoodFor(cfg: Config): int {
    match cfg.flow
    case Signup => cfg.okTtl + cfg.grace
    case _ => cfg.okTtl
  }

  ghost predicate Proven(cfg: Config, start: int, es: seq<Event>, j: nat, a: Addr, req: Req) {
    && LastGiven(cfg, start, es, j, a) && es[j].req == req
    && End(cfg, start, es).now < Before(cfg, start, es, j).now + GoodFor(cfg)
  }

  predicate KeyStored(s: Store, a: Addr, req: Req, end: int) {
    Live(s.ok, a, s.now) && s.ok[a] == Entry(req, At(end))
  }

  lemma KeyGiven(cfg: Config, s: Store, e: Event, a: Addr)
    requires cfg.Valid() && cfg.flow != Reset && VerifiedAt(cfg, s, e, a)
    ensures KeyStored(Step(cfg, s, e), a, e.req, s.now + GoodFor(cfg))
  {
  }

  /** Nothing but another verification, a use and time changes the ok key. */
  lemma KeyStep(cfg: Config, s: Store, e: Event, a: Addr)
    requires cfg.flow != Reset && !VerifiedAt(cfg, s, e, a)
    ensures Live(Step(cfg, s, e).ok, a, s.now) <==> Live(s.ok, a, s.now) && !ConsumedAt(cfg, s, e, a)
    ensures Live(Step(cfg, s, e).ok, a, s.now) ==> Step(cfg, s, e).ok[a] == s.ok[a]
  {
  }

  lemma LastGivenFront(cfg: Config, start: int, es: seq<Event>, j: nat, a: Addr)
    requires j < |es| - 1
    ensures LastGiven(cfg, start, es, j, a)
            <==> LastGiven(cfg, start, es[..|es| - 1], j, a)
                 && !GivenAt(cfg, start, es, |es| - 1, a) && !UsedAt(cfg, start, es, |es| - 1, a)
    ensures Before(cfg, start, es[..|es| - 1], j) == Before(cfg, start, es, j)
  {
    var front := es[..|es| - 1];
    forall k | 0 <= k < |front|
      ensures GivenAt(cfg, start, front, k, a) <==> GivenAt(cfg, start, es, k, a)
      ensures UsedAt(cfg, start, front, k, a) <==> UsedAt(cfg, start, es, k, a)
    {
      Fronts(cfg, start, es, k, a);
    }
    Fronts(cfg, start, es, j, a);
  }

  lemma {:induction false} ProvenIsStored(cfg: Config, start: int, es: seq<Event>, j: nat, a: Addr, req: Req)
    requires cfg.Valid() && cfg.flow != Reset && Proven(cfg, start, es, j, a, req)
    ensures KeyStored(End(cfg, start, es), a, req, Before(cfg, start, es, j).now + GoodFor(cfg))
  {
    LastEvent(cfg, start, es, req);
    var front, e := es[..|es| - 1], es[|es| - 1];
    if j == |es| - 1 {
      KeyGiven(cfg, End(cfg, start, front), e, a);
    } else {
      LastGivenFront(cfg, start, es, j, a);
      ProvenIsStored(cfg, start, front, j, a, req);
      KeyStep(cfg, End(cfg, start, front), e, a);
    }
  }

  lemma {:induction false} StoredIsProven(cfg: Config, start: int, es: seq<Event>, a: Addr) returns (j: nat)
    requires cfg.Valid() && cfg.flow != Reset && Live(End(cfg, start, es).ok, a, End(cfg, start, es).now)
    ensures Proven(cfg, start, es, j, a, End(cfg, start, es).ok[a].value)
  {
    LastEvent(cfg, start, es, 0);
    var front, e := es[..|es| - 1], es[|es| - 1];
    if GivenAt(cfg, start, es, |es| - 1, a) {
      j := |es| - 1;
      KeyGiven(cfg, End(cfg, start, front), e, a);
    } else {
      KeyStep(cfg, End(cfg, start, front), e, a);
      j := StoredIsProven(cfg, start, front, a);
      ProvenIsStored(cfg, start, front, j, a, End(cfg, start, front).ok[a].value);
      LastGivenFront(cfg, start, es, j, a);
    }
  }

  /** After every run a sign-up, or a driver's login the account allows, passes under an id iff that is the id of the
      last successful verification at the address, the verification is recent enough, and no use has passed since. */
  lemma OkPassesIff(cfg: Config, start: int, es: seq<Event>, a: Addr, req: Req, accountOk: bool)
    requires cfg.Valid() && cfg.flow != Reset
    ensures Passes(cfg, End(cfg, start, es), a, req, accountOk)
            <==> (cfg.flow == Driver ==> accountOk) && exists j: nat :: Proven(cfg, start, es, j, a, req)
  {
    var s := End(cfg, start, es);
    if Get(s.ok, a, s.now) == Some(req) {
      var j := StoredIsProven(cfg, start, es, a);
    }
    if exists j: nat :: Proven(cfg, start, es, j, a, req) {
      var j: nat :| Proven(cfg, start, es, j, a, req);
      ProvenIsStored(cfg, start, es, j, a, req);
    }
  }

  /** A request, its code and nothing else: the sign-up or the login passes. */
  lemma RightCodePasses(cfg: Config, start: int, a: Addr, code: Code, req: Req)
    requires cfg.Valid() && cfg.flow != Reset && cfg.sendLimit >= 1
    ensures var es := [Request(a, code, req), Verify(a, req, code)];
            FreshRun(cfg, Initial(start), es) && Passes(cfg, End(cfg, start, es), a, req, true)
  {
    var es, s := [Request(a, code, req), Verify(a, req, code)], Initial(start);
    var s1 := Step(cfg, s, es[0]);
    assert es[1..] == [Verify(a, req, code)] && es[1..][1..] == [];
    assert Run(cfg, s1, es[1..]) == Run(cfg, Step(cfg, s1, es[1]), []);
    KeyGiven(cfg, s1, es[1], a);
  }
}
