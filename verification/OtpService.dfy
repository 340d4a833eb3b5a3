/** The one-time-code requests, command by command, proved against the steps of `Otp`. */
module OtpService {
  import opened Options
  import opened Redis
  import opened Otp
  import opened OtpProofs
  import opened OtpSendProofs

  datatype SendResult = Sent(req: Req, expiresIn: int) | TooManyRequests(secondsLeft: int)

  class OtpService {
    const cfg: Config
    var now: int
    var otp: Keyspace<Addr, Issue>
    var tries: Keyspace<Addr, int>
    var sends: Keyspace<Addr, int>
    var ok: Keyspace<Addr, Req>
    ghost var owner: map<Req, Addr>
    ghost var log: seq<Send>

    ghost function View(): Store
      reads this
    {
      Store(now, otp, tries, sends, ok, owner, log)
    }

    constructor (cfg: Config, now: int)
      ensures this.cfg == cfg && View() == Initial(now)
    {
      this.cfg := cfg;
      this.now := now;
      otp, tries, sends, ok := map[], map[], map[], map[];
      owner, log := map[], [];
    }

    method Pass(seconds: nat)
      modifies this
      ensures View() == Step(cfg, old(View()), Tick(seconds))
    {
      now := now + seconds;
    }

    /** Counts a request; a refused one learns how long the counting window still lasts. */
    method IncreaseSendAndCheckLimit(a: Addr) returns (refusal: Option<int>)
      requires cfg.Valid() && CountersOk(cfg, View())
      modifies this`sends
      ensures refusal.None? <==> SendAllowed(cfg, old(View()), a)
      ensures refusal.Some? ==> refusal.value == SecondsLeft(cfg, old(View()), a)
      ensures sends == Counted(cfg, old(View()), a)
    {
      CountedWindow(cfg, View(), a);
      RefusalKeepsWindow(cfg, View(), a);
      sends := Incr(sends, a, now);
      var n := sends[a].value;
      if n == 1 {
        sends := Expire(sends, a, now, cfg.blockSec);
      }
      if n > cfg.sendLimit {
        var ttl := Ttl(sends, a, now);
        if ttl < 0 {
          ttl := cfg.blockSec;
        }
        if cfg.flow != Driver {
          sends := Expire(sends, a, now, ttl);
        }
        return Some(if ttl < 0 then 0 else ttl);
      }
      return None;
    }

    /** Sends a fresh code, replacing the previous one and forgetting its wrong guesses. */
    method RequestCode(a: Addr, code: Code, req: Req) returns (r: SendResult)
      requires cfg.Valid() && CountersOk(cfg, View())
      modifies this
      ensures View() == Step(cfg, old(View()), Request(a, code, req))
      ensures r == if SendAllowed(cfg, old(View()), a) then Sent(req, cfg.otpTtl)
                   else TooManyRequests(SecondsLeft(cfg, old(View()), a))
    {
      RefusalKeepsWindow(cfg, View(), a);
      var refusal := IncreaseSendAndCheckLimit(a);
      if refusal.Some? {
        return TooManyRequests(refusal.value);
      }
      otp := SetEx(otp, a, Issue(code, req, now + cfg.otpTtl), now, cfg.otpTtl + cfg.grace);
      tries := Delete(tries, a);
      owner := owner[req := a];
      log := log + [Send(a, now, WindowOf(cfg, sends, a))];
      r := Sent(req, cfg.otpTtl);
    }

    /** Counts one more wrong code; the counter expires with the stored code. */
    method CountWrongCode(a: Addr) returns (n: int)
      requires Live(otp, a, now)
      modifies this`tries
      ensures var left := otp[a].value.exp + cfg.grace - now;
              tries == Expire(Incr(old(tries), a, now), a, now, if left < 1 then 1 else left)
      ensures n == Tried(old(View()), a) + 1
      ensures cfg.Valid() && old(CodesOk(cfg, View())) ==>
                tries == old(tries)[a := Entry(n, otp[a].expiry)]
    {
      if cfg.Valid() && CodesOk(cfg, View()) {
        WrongCodeCounted(cfg, View(), a);
      }
      tries := Incr(tries, a, now);
      n := tries[a].value;
      var left := otp[a].value.exp + cfg.grace - now;
      tries := Expire(tries, a, now, if left < 1 then 1 else left);
    }

    method VerifyCode(a: Addr, req: Req, code: Code) returns (v: Verdict)
      modifies this
      ensures View() == Step(cfg, old(View()), Verify(a, req, code))
      ensures v == VerdictOf(cfg, old(View()), a, req, code)
    {
      var raw := Get(otp, a, now);
      if raw.None? {
        return NotFound;
      }
      var issue := raw.value;
      if req != issue.req {
        return Mismatch;
      }
      if now > issue.exp + cfg.grace {
        return Expired;
      }
      if code != issue.code {
        var n := CountWrongCode(a);
        if n >= cfg.maxTries {
          otp := Delete(otp, a);
          tries := Delete(tries, a);
          return TooManyTries;
        }
        return WrongCode(cfg.maxTries - n);
      }
      if cfg.flow != Reset {
        ok := SetEx(ok, a, req, now, if cfg.flow == Signup then cfg.okTtl + cfg.grace else cfg.okTtl);
      }
      return Verified;
    }

    /** Confirms a password reset, completes a sign-up or logs a driver in, whichever the flow is. */
    method Use(a: Addr, req: Req, accountOk: bool) returns (passed: bool)
      modifies this
      ensures View() == Step(cfg, old(View()), Consume(a, req, accountOk))
      ensures passed <==> Passes(cfg, old(View()), a, req, accountOk)
    {
      match cfg.flow {
        case Reset =>
          var raw := Get(otp, a, now);
          if raw.None? || raw.value.req != req || now > raw.value.exp + cfg.grace || !accountOk {
            return false;
          }
          otp := Delete(otp, a);
          tries := Delete(tries, a);
        case Signup =>
          if Get(ok, a, now) != Some(req) {
            return false;
          }
          ok := Delete(ok, a);
          otp := Delete(otp, a);
          tries := Delete(tries, a);
        case Driver =>
          if Get(ok, a, now) != Some(req) || !accountOk {
            return false;
          }
          ok := Delete(ok, a);
      }
      passed := true;
    }
  }
}
