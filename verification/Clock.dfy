/** The controllers' millisecond clocks: 32 bits wide and wrapping. */
module Clock {
  const WRAP := 0x1_0000_0000
  const HALF := 0x8000_0000

  type U32 = x: int | 0 <= x < WRAP witness 0

  /** What a 32-bit clock shows at the unbounded time t. */
  function Shown(t: int): U32 { t % WRAP }

  function ElapsedMs(now: U32, since: U32): U32 { (now - since) % WRAP }

  predicate IntervalElapsed(now: U32, since: U32, interval: U32) { ElapsedMs(now, since) >= interval }

  /** The signed 32-bit difference is not negative. */
  predicate TimeReached(now: U32, deadline: U32) { ElapsedMs(now, deadline) < HALF }

  /** Within one wrap the shown clock measures true time. */
  lemma ElapsedIsTrue(now: int, since: int)
    requires since <= now < since + WRAP
    ensures ElapsedMs(Shown(now), Shown(since)) == now - since
  {
    var a, b := now / WRAP, since / WRAP;
    assert now == a * WRAP + Shown(now) && since == b * WRAP + Shown(since);
  }

  /** A longer true time shows up as its remainder. */
  lemma ElapsedIsModular(now: int, since: int)
    ensures ElapsedMs(Shown(now), Shown(since)) == Shown(now - since)
  {
    var a, b := now / WRAP, since / WRAP;
    assert now == a * WRAP + Shown(now) && since == b * WRAP + Shown(since);
    ModuloAddsWraps(Shown(now) - Shown(since), a - b);
    assert Shown(now) - Shown(since) + (a - b) * WRAP == now - since;
  }

  lemma ModuloAddsWraps(x: int, k: int)
    ensures (x + k * WRAP) % WRAP == x % WRAP
  {
    var q := x / WRAP;
    assert x == q * WRAP + x % WRAP;
    assert x + k * WRAP == (q + k) * WRAP + x % WRAP;
    QuotientIsUnique(x + k * WRAP, q + k, x % WRAP);
  }

  /** Adding to a shown value shows the sum. */
  lemma ShownSum(t: int, d: int)
    ensures Shown(Shown(t) + d) == Shown(t + d)
  {
    var q := t / WRAP;
    assert t == q * WRAP + Shown(t);
    ModuloAddsWraps(Shown(t) + d, q);
  }

  lemma QuotientIsUnique(x: int, q: int, r: int)
    requires x == q * WRAP + r && 0 <= r < WRAP
    ensures x % WRAP == r && x / WRAP == q
  {
  }

  /** Shifting both clock values by the same amount changes no difference. */
  lemma ElapsedIgnoresShift(now: U32, since: U32, shift: int)
    ensures ElapsedMs(Shown(now + shift), Shown(since + shift)) == ElapsedMs(now, since)
  {
    ElapsedIsModular(now + shift, since + shift);
  }

  /** Up to half a wrap before the deadline and less than that after it, the test tells whether it has passed. */
  lemma TimeReachedIsTrue(now: int, deadline: int)
    requires -HALF <= now - deadline < HALF
    ensures TimeReached(Shown(now), Shown(deadline)) <==> now >= deadline
  {
    ElapsedIsModular(now, deadline);
    if now < deadline {
      ModuloAddsWraps(now - deadline, 1);
    }
  }
}
