/**
 * The node's clock: `millis()` readings are `unsigned long`, 32 bits wide on
 * the Arduino targets, so every "time since" is a subtraction modulo 2^32.
 */
module Clock {

  const WRAP: int := 0x1_0000_0000

  /** An `unsigned long` reading of millis(). */
  type U32 = x: int | 0 <= x < WRAP

  /** `now - since` on unsigned longs: the milliseconds from `since` to `now`
      across at most one rollover. */
  function Elapsed(now: U32, since: U32): (d: U32)
    ensures since <= now ==> d == now - since
    ensures now < since ==> d == now + WRAP - since
  {
    (now - since) % WRAP
  }

  /** The reading `d` milliseconds after `t`. */
  function After(t: U32, d: nat): U32 {
    (t + d) % WRAP
  }

  /** Rollover is harmless: a reading `d` ms after `t` shows exactly `d` ms
      elapsed, whether or not the counter wrapped in between. */
  lemma ElapsedAfter(t: U32, d: nat)
    requires d < WRAP
    ensures Elapsed(After(t, d), t) == d
  {
    if t + d >= WRAP {
      assert After(t, d) == t + d - WRAP;
    }
  }

  /** No time has elapsed between a reading and itself. */
  lemma ElapsedSelf(t: U32)
    ensures Elapsed(t, t) == 0
  {
  }
}
