/** The retry delay of a failing target, in 64-bit nanoseconds. */
module Backoff {
  import opened Base

  function Pow2(k: nat): (p: nat)
    ensures p >= 1
  {
    if k == 0 then 1 else 2 * Pow2(k - 1)
  }

  /** Two's-complement doubling. */
  function Doubled(d: int): int { (2 * d + 0x8000_0000_0000_0000) % 0x1_0000_0000_0000_0000 - 0x8000_0000_0000_0000 }

  /** `k` doublings with early exit at the cap, then the final cap. */
  function Delay(d: int, k: nat, cap: int): int
    decreases k
  {
    if k == 0 then (if d > cap then cap else d)
    else if Doubled(d) >= cap then cap
    else Delay(Doubled(d), k - 1, cap)
  }

  /** The delay after `consecutive` failures. */
  method BackoffFor(base: int, cap: int, consecutive: int) returns (d: int)
    ensures d == Delay(base, if consecutive < 1 then 0 else consecutive - 1, cap)
  {
    d := base;
    var i := 1;
    while i < consecutive
      invariant consecutive < 1 ==> i == 1 && d == base
      invariant consecutive >= 1 ==>
                  i <= consecutive && Delay(d, consecutive - i, cap) == Delay(base, consecutive - 1, cap)
    {
      d := Doubled(d);
      if d >= cap { return cap; }
      i := i + 1;
    }
    if d > cap { d := cap; }
  }

  predicate Duration(d: int) { 0 < d < 0x8000_0000_0000_0000 }

  /** The one doubling of `d` that can no longer be doubled in 63 bits. */
  function Peak(d: int): (p: int)
    requires Duration(d)
    ensures 0x4000_0000_0000_0000 <= p < 0x8000_0000_0000_0000
    decreases 0x8000_0000_0000_0000 - d
  {
    if d >= 0x4000_0000_0000_0000 then d else Peak(2 * d)
  }

  /** No doubling wraps before the cap is reached. */
  predicate NeverWraps(base: int, cap: int)
    requires Duration(base)
  {
    base < 0x4000_0000_0000_0000 && cap <= Peak(base)
  }

  lemma DoubledExact(d: int)
    requires Duration(d)
    ensures Doubled(d) == if d < 0x4000_0000_0000_0000 then 2 * d else 2 * d - 0x1_0000_0000_0000_0000
  {
  }

  lemma Scale(d: int, k: nat)
    requires k > 0
    ensures d * Pow2(k) == (2 * d) * Pow2(k - 1)
  {
  }

  lemma AtLeastSelf(d: int, p: nat)
    requires d > 0 && p >= 1
    ensures d * p >= d
  {
    assert d * p == d + d * (p - 1);
    assert d * (p - 1) >= 0;
  }

  lemma {:induction false} DelayIsMin(d: int, k: nat, cap: int)
    requires Duration(d) && Duration(cap) && cap <= Peak(d) && (d < 0x4000_0000_0000_0000 || k == 0)
    ensures Delay(d, k, cap) == Min(d * Pow2(k), cap)
    decreases k
  {
    if k > 0 {
      DoubledExact(d);
      Scale(d, k);
      if 2 * d >= cap {
        AtLeastSelf(2 * d, Pow2(k - 1));
      } else {
        assert Peak(d) == Peak(2 * d);
        DelayIsMin(2 * d, k - 1, cap);
      }
    }
  }

  /** Where a doubling wraps the delay turns negative. */
  lemma {:induction false} WrapShows(d: int, cap: int) returns (k: nat)
    requires Duration(d) && Duration(cap) && (d >= 0x4000_0000_0000_0000 || cap > Peak(d))
    ensures Delay(d, k, cap) < 0
    decreases 0x8000_0000_0000_0000 - d
  {
    DoubledExact(d);
    if d >= 0x4000_0000_0000_0000 {
      k := 1;
      assert Delay(Doubled(d), 0, cap) == Doubled(d);
    } else {
      assert Peak(d) == Peak(2 * d);
      PeakAbove(2 * d);
      k := WrapShows(2 * d, cap);
      k := k + 1;
    }
  }

  lemma {:induction false} PeakAbove(d: int)
    requires Duration(d)
    ensures Peak(d) >= d
    decreases 0x8000_0000_0000_0000 - d
  {
    if d < 0x4000_0000_0000_0000 { PeakAbove(2 * d); }
  }

  lemma MinPositive(d: int, p: nat, cap: int)
    requires d > 0 && p >= 1 && cap > 0
    ensures Min(d * p, cap) > 0
  {
    AtLeastSelf(d, p);
  }

  /** The delay is min(base * 2^k, cap) after every number of failures exactly when no
      doubling wraps; then it is positive, capped and never shrinks. */
  lemma BackoffExact(base: int, cap: int)
    requires Duration(base) && Duration(cap)
    ensures (forall k: nat :: Delay(base, k, cap) == Min(base * Pow2(k), cap)) <==> NeverWraps(base, cap)
  {
    if NeverWraps(base, cap) {
      forall k: nat ensures Delay(base, k, cap) == Min(base * Pow2(k), cap) {
        DelayIsMin(base, k, cap);
      }
    } else {
      var k := WrapShows(base, cap);
      MinPositive(base, Pow2(k), cap);
    }
  }

  /** Durations below 2^62 never wrap. */
  lemma BelowHalfIsSafe(base: int, cap: int, k: nat)
    requires 0 < base < 0x4000_0000_0000_0000 && 0 < cap < 0x4000_0000_0000_0000
    ensures NeverWraps(base, cap) && Delay(base, k, cap) == Min(base * Pow2(k), cap)
  {
    DelayIsMin(base, k, cap);
  }

  lemma {:induction false} PowGrows(j: nat, k: nat)
    requires j <= k
    ensures Pow2(j) <= Pow2(k)
  {
    if j < k { PowGrows(j, k - 1); }
  }

  lemma Monotone(base: int, p: nat, q: nat)
    requires base > 0 && p <= q
    ensures base * p <= base * q
  {
    assert base * q == base * p + base * (q - p);
    assert base * (q - p) >= 0;
  }

  /** More failures never mean a shorter delay, and no delay exceeds the cap. */
  lemma BackoffMonotone(base: int, cap: int, j: nat, k: nat)
    requires Duration(base) && Duration(cap) && NeverWraps(base, cap) && j <= k
    ensures 0 < Delay(base, j, cap) <= Delay(base, k, cap) <= cap
  {
    DelayIsMin(base, j, cap);
    DelayIsMin(base, k, cap);
    PowGrows(j, k);
    Monotone(base, Pow2(j), Pow2(k));
    MinPositive(base, Pow2(j), cap);
  }
}
