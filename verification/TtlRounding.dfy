/** The send limiter's window when Redis counts in milliseconds.

    TTL answers in whole seconds, rounded to the nearest, and EXPIRE takes whole seconds.  A refusal that reads the
    one and sets the other therefore moves the end of the window, except at whole seconds before it.  `Otp` has
    requests only at whole seconds; here is what that leaves out. */
module TtlRounding {

  /** TTL, for a key that lives `ms` milliseconds more. */
  function TtlSeconds(ms: nat): nat {
    (ms + 500) / 1000
  }

  /** The end of the window after a refusal at time `t`; expiring a key after 0 seconds deletes it at once. */
  function Renewed(end: int, t: int): int
    requires t < end
  {
    t + 1000 * TtlSeconds(end - t)
  }

  /** A refusal moves the end by half a second at most, and leaves it iff whole seconds remain. */
  lemma RefusalMovesWindow(end: int, t: int)
    requires t < end
    ensures end - 500 < Renewed(end, t) <= end + 500
    ensures Renewed(end, t) == end <==> (end - t) % 1000 == 0
  {
    var ms := end - t;
    assert ms + 500 == 1000 * TtlSeconds(ms) + (ms + 500) % 1000;
  }

  /** The end of a window of `n` whole seconds opened at 0 after a refusal every 600 milliseconds, `k` of them. */
  function Hammered(n: nat, k: nat): int
    requires k <= n
  {
    if k == 0 then 1000 * n
    else if 600 * k < Hammered(n, k - 1) then Renewed(Hammered(n, k - 1), 600 * k)
    else Hammered(n, k - 1)
  }

  /** Each of them costs the window 400 milliseconds, so it closes after six tenths of its length. */
  lemma {:induction false} HammeringShortens(n: nat, k: nat)
    requires k <= n
    ensures Hammered(n, k) == 1000 * n - 400 * k
  {
    if k > 0 {
      HammeringShortens(n, k - 1);
      var ms := Hammered(n, k - 1) - 600 * k;
      assert ms == 1000 * (n - k) + 400;
      assert TtlSeconds(ms) == n - k;
    }
  }
}
