/** The retry timeout of sntp.c: doubled in 32-bit arithmetic with every retry, up to a cap. */
module Backoff {
  import opened Words

  /** The update in `sntp_retry`. */
  function NextTimeout(timeout: u32, cap: u32): u32 {
    var doubled := U32(timeout * 2);
    if doubled <= cap && doubled > timeout then doubled else timeout
  }

  /** The timeout after `n` retries since it was set to `base`. */
  function After(base: u32, cap: u32, n: nat): u32 {
    if n == 0 then base else NextTimeout(After(base, cap, n - 1), cap)
  }

  /** How often `base` can be doubled without passing the cap. */
  function Doublings(base: nat, cap: nat): (k: nat)
    requires 0 < base <= cap
    ensures base * Pow2(k) <= cap < base * Pow2(k + 1)
    decreases cap - base
  {
    if 2 * base > cap then
      assert Pow2(1) == 2 * Pow2(0);
      0
    else
      var k := Doublings(2 * base, cap);
      assert base * Pow2(k + 1) == 2 * base * Pow2(k);
      assert base * Pow2(k + 2) == 2 * base * Pow2(k + 1);
      k + 1
  }

  lemma {:induction false} PowersGrow(a: nat, b: nat)
    requires a <= b
    ensures Pow2(a) <= Pow2(b)
    decreases b - a
  {
    if a < b {
      PowersGrow(a, b - 1);
    }
  }

  lemma ScaledPowersGrow(base: nat, a: nat, b: nat)
    requires a <= b
    ensures base * Pow2(a) <= base * Pow2(b)
  {
    PowersGrow(a, b);
    assert base * (Pow2(b) - Pow2(a)) >= 0;
  }

  /** `Doublings` is the largest exponent that stays within the cap. */
  lemma LargestExponent(base: nat, cap: nat, e: nat)
    requires 0 < base <= cap
    ensures base * Pow2(e) <= cap <==> e <= Doublings(base, cap)
  {
    var k := Doublings(base, cap);
    if e <= k {
      ScaledPowersGrow(base, e, k);
    } else {
      ScaledPowersGrow(base, k + 1, e);
    }
  }

  /** The wrap of the 32-bit shift never shows: a shifted value that wrapped is smaller. */
  lemma DoubledOrKept(t: u32, cap: u32)
    ensures NextTimeout(t, cap) == if 0 < t && 2 * t <= cap then 2 * t else t
  {
    if t * 2 < TWO_32 {
      U32Of(t * 2, 0, t * 2);
    } else {
      U32Of(t * 2, 1, t * 2 - 0x1_0000_0000);
    }
  }

  lemma DoublePower(base: nat, e: nat)
    ensures base * Pow2(e + 1) == 2 * (base * Pow2(e))
  {
  }

  /** The closed form: the timeout doubles until the next doubling would pass the
      cap, and then stays. */
  lemma {:induction false} ClosedForm(base: u32, cap: u32, n: nat)
    requires 0 < base <= cap
    ensures After(base, cap, n) == base * Pow2(Min(n, Doublings(base, cap)))
    ensures base <= After(base, cap, n) <= cap
  {
    var k := Doublings(base, cap);
    if n == 0 {
      ScaledPowersGrow(base, 0, k);
    } else {
      ClosedForm(base, cap, n - 1);
      var m := Min(n - 1, k);
      DoublePower(base, m);
      LargestExponent(base, cap, m + 1);
      DoubledOrKept(base * Pow2(m), cap);
    }
  }

  /** Before a reset the timeout never decreases. */
  lemma NeverDecreases(base: u32, cap: u32, a: nat, b: nat)
    requires 0 < base <= cap && a <= b
    ensures After(base, cap, a) <= After(base, cap, b)
  {
    var k := Doublings(base, cap);
    ClosedForm(base, cap, a);
    ClosedForm(base, cap, b);
    ScaledPowersGrow(base, Min(a, k), Min(b, k));
  }
}
