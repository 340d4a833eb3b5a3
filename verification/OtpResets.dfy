/** Password resets: what they ask for, and what they do not. */
module OtpResets {
  import opened Options
  import opened Redis
  import opened Otp
  import opened OtpProofs
  import opened OtpSendProofs
  import opened OtpHistory

  // ----- no verification is asked for -----

  /** A reset passes right after its request, for whoever was told the id. */
  lemma ResetNeedsNoCode(cfg: Config, s: Store, a: Addr, code: Code, req: Req)
    requires cfg.Valid() && cfg.flow == Reset && SendAllowed(cfg, s, a)
    ensures Passes(cfg, Step(cfg, s, Request(a, code, req)), a, req, true)
  {
  }

  lemma UnverifiedReset(cfg: Config, start: int, a: Addr, code: Code, req: Req)
    requires cfg.Valid() && cfg.flow == Reset && cfg.sendLimit >= 1
    ensures var es := [Request(a, code, req)];
            && FreshRun(cfg, Initial(start), es)
            && Passes(cfg, Run(cfg, Initial(start), es), a, req, true)
            && !exists i: nat, j: nat :: Proved(es, i, j, a, req)
  {
    var es := [Request(a, code, req)];
    ResetNeedsNoCode(cfg, Initial(start), a, code, req);
    assert es[1..] == [];
    assert Run(cfg, Initial(start), es) == Run(cfg, Step(cfg, Initial(start), es[0]), []);
  }

  lemma {:induction false} NoSendsNoCodes(cfg: Config, s: Store, es: seq<Event>)
    requires cfg.Valid() && cfg.sendLimit < 1 && CountersOk(cfg, s) && s.otp == map[]
    ensures Run(cfg, s, es).otp == map[]
    decreases es
  {
    if es != [] {
      NothingSent(cfg, s, es[0]);
      NoSendsNoCodes(cfg, Step(cfg, s, es[0]), es[1..]);
    }
  }

  /** Whatever passes, in any run, was verified before with the right code. */
  ghost predicate OnlyAfterRightCode(cfg: Config) {
    forall start, es, a, req, accountOk |
      FreshRun(cfg, Initial(start), es) && Passes(cfg, Run(cfg, Initial(start), es), a, req, accountOk) ::
      exists i: nat, j: nat :: Proved(es, i, j, a, req)
  }

  /** Of the three flows only the reset does without the code, and it does so unless nothing is ever sent. */
  lemma RightCodeNeeded(cfg: Config)
    requires cfg.Valid()
    ensures OnlyAfterRightCode(cfg) <==> cfg.flow != Reset || cfg.sendLimit < 1
  {
    if cfg.flow == Reset && cfg.sendLimit >= 1 {
      UnverifiedReset(cfg, 0, 0, 0, 0);
      var es := [Request(0, 0, 0)];
      assert FreshRun(cfg, Initial(0), es) && Passes(cfg, Run(cfg, Initial(0), es), 0, 0, true);
    } else {
      forall start, es, a, req, accountOk |
        FreshRun(cfg, Initial(start), es) && Passes(cfg, Run(cfg, Initial(start), es), a, req, accountOk)
        ensures exists i: nat, j: nat :: Proved(es, i, j, a, req)
      {
        if cfg.flow != Reset {
          PassesOnlyAfterRightCode(cfg, start, es, a, req, accountOk);
        } else {
          NoSendsNoCodes(cfg, Initial(start), es);
        }
      }
    }
  }

  // ----- what a reset does ask for -----

  /** After every run a reset passes under an id iff the account allows it and the id is the one of the last
      accepted request for the address, not expired, not used and not guessed out.  Whether the code was ever
      given plays no part. */
  lemma ResetPassesIff(cfg: Config, start: int, es: seq<Event>, a: Addr, req: Req, accountOk: bool)
    requires cfg.Valid() && cfg.flow == Reset && FreshRun(cfg, Initial(start), es)
    ensures Passes(cfg, End(cfg, start, es), a, req, accountOk)
            <==> accountOk && exists i: nat :: Standing(cfg, start, es, i, a) && es[i].req == req
  {
    var s := End(cfg, start, es);
    RunCodesOk(cfg, Initial(start), es);
    if Passes(cfg, s, a, req, accountOk) {
      var i := StoredIsStanding(cfg, start, es, a);
      StandingIsStored(cfg, start, es, i, a);
      assert Standing(cfg, start, es, i, a) && es[i].req == req;
    }
    if exists i: nat :: Standing(cfg, start, es, i, a) && es[i].req == req {
      var i: nat :| Standing(cfg, start, es, i, a) && es[i].req == req;
      StandingIsStored(cfg, start, es, i, a);
    }
  }
}
