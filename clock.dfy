/**
 * The firmware's only time base is `millis()`, an unsigned 32-bit count of
 * milliseconds since reset that wraps around after about 49.7 days. Every
 * duration in the runtime is an unsigned 32-bit subtraction, so it stays
 * correct across that wrap-around. This module states that arithmetic.
 */
module Clock {

  /** 2^32: the modulus of `unsigned long` / `uint32_t` arithmetic on the target. */
  const MODULUS: int := 0x1_0000_0000

  type uint8 = x: int | 0 <= x < 0x100
  type uint32 = x: int | 0 <= x < 0x1_0000_0000

  /** `now - last` computed in unsigned 32-bit arithmetic. */
  function Elapsed(now: uint32, last: uint32): (d: uint32)
    // d is the unique 32-bit amount that takes `last` to `now` on the wrapping clock
    ensures (last + d) % MODULUS == now
    // without a wrap between the two readings it is the plain difference
    ensures last <= now ==> d == now - last
    // across a wrap it is what is left to 2^32
    ensures now < last ==> d == MODULUS - (last - now)
  {
    (now - last) % MODULUS
  }

  /** `t + k` computed in unsigned 32-bit arithmetic, as `millis() + 2` is. */
  function AddWrap(t: uint32, k: nat): (r: uint32)
    ensures t + k < MODULUS ==> r == t + k
    ensures k < MODULUS && MODULUS <= t + k ==> r == t + k - MODULUS
  {
    (t + k) % MODULUS
  }

  /** Elapsed undoes AddWrap: the time from `t` to `t + k` is `k`, for any k below 2^32. */
  lemma ElapsedAfterAdd(t: uint32, k: uint32)
    ensures Elapsed(AddWrap(t, k), t) == k
  {
  }

  /** AddWrap undoes Elapsed: `last + (now - last) == now` on the wrapping clock. */
  lemma AddAfterElapsed(now: uint32, last: uint32)
    ensures AddWrap(last, Elapsed(now, last)) == now
  {
  }

  /**
   * A stamp set `k` milliseconds ahead of a reading `t`, looked at from a
   * later reading that is only `j < k` past `t`, is seen as 2^32 - (k - j)
   * milliseconds in the past.
   */
  lemma ElapsedToStampAhead(t: uint32, j: nat, k: nat)
    requires j < k < MODULUS
    ensures Elapsed(AddWrap(t, j), AddWrap(t, k)) == MODULUS - (k - j)
  {
    if t + k < MODULUS {
      assert AddWrap(t, j) == t + j;
    } else if t + j < MODULUS {
      assert AddWrap(t, k) == t + k - MODULUS;
    } else {
      assert AddWrap(t, j) == t + j - MODULUS;
      assert AddWrap(t, k) == t + k - MODULUS;
    }
  }
}
