/** The two backoff rules: the worker's (whole seconds) and the scheduler's (int64 nanoseconds). */
module Backoffs {

  function Min(x: int, y: int): int { if x <= y then x else y }

  function Pow2(k: nat): nat
    ensures Pow2(k) >= 1
  {
    if k == 0 then 1 else 2 * Pow2(k - 1)
  }

  // ---------------------------------------------------------------- worker

  /** `k` doublings of `delay`, giving up at the first one above `max`. */
  function Doubled(delay: int, max: int, k: nat): int
    decreases k
  {
    if k == 0 then delay
    else if 2 * delay > max then max
    else Doubled(2 * delay, max, k - 1)
  }

  function TaskDelay(initial: int, max: int, retry: int): int {
    if retry <= 1 then initial else Doubled(initial, max, retry - 1)
  }

  method TaskBackoff(initial: int, max: int, retry: int) returns (delay: int)
    ensures delay == TaskDelay(initial, max, retry)
  {
    delay := initial;
    var i := 0;
    while i < retry - 1
      invariant 0 <= i && (i <= retry - 1 || i == 0)
      invariant retry > 1 ==> Doubled(delay, max, retry - 1 - i) == TaskDelay(initial, max, retry)
      invariant retry <= 1 ==> delay == initial
    {
      delay := delay * 2;
      if delay > max {
        return max;
      }
      i := i + 1;
    }
  }

  lemma {:induction false} ShiftDoubling(d: int, k: nat)
    requires k > 0
    ensures d * Pow2(k) == 2 * d * Pow2(k - 1)
  {
    calc {
      d * Pow2(k);
      d * (2 * Pow2(k - 1));
      2 * d * Pow2(k - 1);
    }
  }

  lemma AtLeastOnce(d: int, k: nat)
    requires d >= 0
    ensures d * Pow2(k) >= d
  {
  }

  lemma {:induction false} DoubledClosedForm(d: int, max: int, k: nat)
    requires 0 <= d <= max
    ensures Doubled(d, max, k) == Min(max, d * Pow2(k))
    decreases k
  {
    if k > 0 {
      ShiftDoubling(d, k);
      AtLeastOnce(2 * d, k - 1);
      if 2 * d <= max {
        DoubledClosedForm(2 * d, max, k - 1);
      }
    }
  }

  /** The delay before retry n is min(max, initial * 2^(n-1)); the cap can only be exceeded by a
      first retry whose configured initial delay is already above it. */
  lemma TaskDelayClosedForm(initial: int, max: int, retry: int)
    requires retry >= 1
    ensures 0 <= initial <= max ==> TaskDelay(initial, max, retry) == Min(max, initial * Pow2(retry - 1))
    ensures 0 <= initial && 0 <= max ==>
              TaskDelay(initial, max, retry) >= 0
              && (TaskDelay(initial, max, retry) <= max <==> initial <= max || retry > 1)
  {
    if 0 <= initial <= max {
      DoubledClosedForm(initial, max, retry - 1);
      AtLeastOnce(initial, retry - 1);
    }
  }

  // ---------------------------------------------------------------- scheduler

  const TWO_62: int := 0x4000_0000_0000_0000
  const TWO_63: int := 0x8000_0000_0000_0000
  const TWO_64: int := 0x1_0000_0000_0000_0000

  /** The int64 a mathematical result is stored as. */
  function Wrap(x: int): int { (x + TWO_63) % TWO_64 - TWO_63 }

  datatype RetryConfig = RetryConfig(retryCount: int, maxRetryDuration: int,
                                     minBackoff: int, maxBackoff: int, maxDoublings: int)

  function Cap(max: int, d: int): int { if max > 0 && d > max then max else d }

  function DoubledInt64(d: int, max: int, k: nat): int
    decreases k
  {
    if k == 0 then d
    else
      var d2 := Wrap(2 * d);
      if max > 0 && d2 >= max then max else DoubledInt64(d2, max, k - 1)
  }

  /** The uncapped linear value past the doublings. */
  function Linear(r: RetryConfig, retry: int): int {
    r.minBackoff * Pow2(if r.maxDoublings > 0 then r.maxDoublings else 0) * (retry - r.maxDoublings)
  }

  /** What the int64 code returns. */
  function Backoff(r: RetryConfig, retry: int): int {
    var n := if retry < 1 then 1 else retry;
    if n - 1 <= r.maxDoublings then Cap(r.maxBackoff, DoubledInt64(r.minBackoff, r.maxBackoff, n - 1))
    else Cap(r.maxBackoff, Wrap(Linear(r, n)))
  }

  /** What the documentation promises: doubling maxDoublings times, then linear, capped. */
  function PromisedBackoff(r: RetryConfig, retry: nat): int
    requires retry >= 1 && r.maxDoublings >= 0
  {
    if retry <= r.maxDoublings + 1 then Min(r.maxBackoff, r.minBackoff * Pow2(retry - 1))
    else Min(r.maxBackoff, r.minBackoff * Pow2(r.maxDoublings) * (retry - r.maxDoublings))
  }

  /** What validation leaves of the three fields that Backoff reads; the bound is that of an int64. */
  predicate Sane(r: RetryConfig) {
    0 <= r.minBackoff <= r.maxBackoff < TWO_63 && r.maxDoublings >= 0
  }

  lemma WrapIdentity(x: int)
    requires -TWO_63 <= x < TWO_63
    ensures Wrap(x) == x
  {
  }

  lemma WrapPeriod(x: int, j: int)
    ensures Wrap(x + TWO_64 * j) == Wrap(x)
  {
    var y := x + TWO_63;
    assert (y + TWO_64 * j) % TWO_64 == y % TWO_64 by {
      var q, m := y / TWO_64, y % TWO_64;
      assert y + TWO_64 * j == TWO_64 * (q + j) + m;
    }
  }

  lemma WrapOffset(x: int) returns (j: int)
    ensures Wrap(x) == x + TWO_64 * j
  {
    j := -((x + TWO_63) / TWO_64);
  }

  /** Wrapping early or late makes no difference to a product. */
  lemma WrapProduct(x: int, k: int)
    ensures Wrap(Wrap(x) * k) == Wrap(x * k)
  {
    var j := WrapOffset(x);
    assert (x + TWO_64 * j) * k == x * k + TWO_64 * (j * k) by {
      calc {
        (x + TWO_64 * j) * k;
        x * k + (TWO_64 * j) * k;
        x * k + TWO_64 * (j * k);
      }
    }
    WrapPeriod(x * k, j * k);
  }

  /** RetryConfig.Backoff with its two int64 loops. */
  method ComputeBackoff(r: RetryConfig, retry: int) returns (d: int)
    requires -TWO_63 <= r.minBackoff < TWO_63
    ensures d == Backoff(r, retry)
  {
    var n := if retry < 1 then 1 else retry;
    d := r.minBackoff;
    var doublings := n - 1;
    if doublings <= r.maxDoublings {
      var i := 0;
      while i < doublings
        invariant 0 <= i <= doublings
        invariant DoubledInt64(d, r.maxBackoff, doublings - i) == DoubledInt64(r.minBackoff, r.maxBackoff, doublings)
      {
        d := Wrap(d * 2);
        if r.maxBackoff > 0 && d >= r.maxBackoff {
          return r.maxBackoff;
        }
        i := i + 1;
      }
    } else {
      var base := r.minBackoff;
      WrapIdentity(base);
      var i := 0;
      while i < r.maxDoublings
        invariant 0 <= i && (i <= r.maxDoublings || i == 0)
        invariant base == Wrap(r.minBackoff * Pow2(i))
      {
        WrapProduct(r.minBackoff * Pow2(i), 2);
        assert r.minBackoff * Pow2(i) * 2 == r.minBackoff * Pow2(i + 1) by {
          ShiftDoubling(r.minBackoff, i + 1);
        }
        base := Wrap(base * 2);
        i := i + 1;
      }
      WrapProduct(r.minBackoff * Pow2(i), doublings - r.maxDoublings + 1);
      d := Wrap(base * (doublings - r.maxDoublings + 1));
    }
    if r.maxBackoff > 0 && d > r.maxBackoff {
      d := r.maxBackoff;
    }
  }

  /** Some doubling of x among the first k, as an int64, is at or above the cap. */
  ghost predicate HitsCap(x: int, max: int, k: nat) {
    exists j :: 1 <= j <= k && Wrap(x * Pow2(j)) >= max
  }

  lemma HitsCapShift(x: int, max: int, k: nat)
    requires k > 0
    ensures HitsCap(x, max, k) <==> Wrap(2 * x) >= max || HitsCap(2 * x, max, k - 1)
  {
    ShiftDoubling(x, 1);
    if j :| 1 <= j <= k && Wrap(x * Pow2(j)) >= max && j > 1 {
      ShiftDoubling(x, j);
      assert Wrap(2 * x * Pow2(j - 1)) >= max;
    }
    if j :| 1 <= j <= k - 1 && Wrap(2 * x * Pow2(j)) >= max {
      ShiftDoubling(x, j + 1);
      assert Wrap(x * Pow2(j + 1)) >= max;
    }
    if Wrap(2 * x) >= max {
      assert Wrap(x * Pow2(1)) >= max;
    }
  }

  /** What the doubling loop returns, whatever it wraps to on the way. */
  lemma {:induction false} DoubledInt64Value(x: int, max: int, k: nat)
    requires max > 0
    ensures DoubledInt64(Wrap(x), max, k) == if HitsCap(x, max, k) then max else Wrap(x * Pow2(k))
    decreases k
  {
    if k > 0 {
      WrapProduct(x, 2);
      HitsCapShift(x, max, k);
      ShiftDoubling(x, k);
      if Wrap(2 * x) < max {
        DoubledInt64Value(2 * x, max, k - 1);
      }
    }
  }

  /** The product stays within the int64 range, or wraps on the way to something at or above the cap. */
  ghost predicate KeepsPromise(r: RetryConfig, retry: nat)
    requires retry >= 1
  {
    if retry <= r.maxDoublings + 1
    then r.minBackoff * Pow2(retry - 1) < TWO_63 || HitsCap(r.minBackoff, r.maxBackoff, retry - 1)
    else Linear(r, retry) < TWO_63 || Wrap(Linear(r, retry)) >= r.maxBackoff
  }

  /** For every config that passes validation, the int64 code returns the promised value exactly
      when KeepsPromise says so. */
  lemma BackoffMeetsPromise(r: RetryConfig, retry: nat)
    requires Sane(r) && retry >= 1
    ensures Backoff(r, retry) == PromisedBackoff(r, retry) <==> KeepsPromise(r, retry)
  {
    if retry <= r.maxDoublings + 1 {
      DoublingMeetsPromise(r.minBackoff, r.maxBackoff, retry - 1);
    } else {
      LinearRange(r, retry);
      LinearMeetsPromise(Linear(r, retry), r.maxBackoff);
    }
  }

  lemma LinearRange(r: RetryConfig, retry: nat)
    requires Sane(r) && retry > r.maxDoublings + 1
    ensures Linear(r, retry) >= 0 && (r.maxBackoff == 0 ==> Linear(r, retry) == 0)
  {
    AtLeastOnce(r.minBackoff, r.maxDoublings);
  }

  lemma LinearMeetsPromise(x: int, max: int)
    requires 0 <= x && 0 <= max < TWO_63 && (max == 0 ==> x == 0)
    ensures Cap(max, Wrap(x)) == Min(max, x) <==> x < TWO_63 || Wrap(x) >= max
  {
    if x < TWO_63 {
      WrapIdentity(x);
    }
  }

  lemma DoublingMeetsPromise(d: int, max: int, k: nat)
    requires 0 <= d <= max < TWO_63
    ensures Cap(max, DoubledInt64(d, max, k)) == Min(max, d * Pow2(k)) <==> d * Pow2(k) < TWO_63 || HitsCap(d, max, k)
  {
    AtLeastOnce(d, k);
    WrapIdentity(d);
    if max == 0 {
      DoubledZero(k);
    } else {
      DoubledInt64Value(d, max, k);
      if d * Pow2(k) < TWO_63 {
        WrapIdentity(d * Pow2(k));
        if j :| 1 <= j <= k && Wrap(d * Pow2(j)) >= max {
          DoublingsGrow(d, j, k);
          WrapIdentity(d * Pow2(j));
        }
        if k > 0 && d * Pow2(k) >= max {
          assert HitsCap(d, max, k);
        }
      } else if j :| 1 <= j <= k && Wrap(d * Pow2(j)) >= max {
        assert d * Pow2(k) >= max;
      }
    }
  }

  lemma {:induction false} DoubledZero(k: nat)
    ensures DoubledInt64(0, 0, k) == 0
  {
    if k > 0 {
      WrapIdentity(0);
      DoubledZero(k - 1);
    }
  }

  lemma {:induction false} DoublingsGrow(d: int, j: nat, k: nat)
    requires d >= 0 && j <= k
    ensures d * Pow2(j) <= d * Pow2(k)
    decreases k - j
  {
    if j < k {
      ShiftDoubling(d, k);
      DoublingsGrow(d, j, k - 1);
      AtLeastOnce(d, k - 1);
    }
  }

  lemma {:induction false} SmallCapIsHit(d: int, max: int, k: nat)
    requires 0 <= d <= max < TWO_62
    ensures d * Pow2(k) < TWO_63 || HitsCap(d, max, k)
    decreases k
  {
    if k > 0 {
      ShiftDoubling(d, k);
      WrapIdentity(2 * d);
      HitsCapShift(d, max, k);
      if 2 * d < max {
        SmallCapIsHit(2 * d, max, k - 1);
      }
    }
  }

  /** Below 2^62 ns (146 years) the doublings always keep the promise, and only the linear part past
      them can break it. */
  lemma DoublingsKeepPromise(r: RetryConfig, retry: nat)
    requires Sane(r) && r.maxBackoff < TWO_62 && 1 <= retry <= r.maxDoublings + 1
    ensures KeepsPromise(r, retry) && Backoff(r, retry) == PromisedBackoff(r, retry)
  {
    SmallCapIsHit(r.minBackoff, r.maxBackoff, retry - 1);
    BackoffMeetsPromise(r, retry);
  }

  /** The second way to fail: if the first doubling at or above the cap leaves the int64 range, the
      wait is negative. */
  lemma FirstOverflowIsNegative(r: RetryConfig, retry: nat)
    requires Sane(r) && 2 <= retry <= r.maxDoublings + 1
    requires r.minBackoff * Pow2(retry - 2) < r.maxBackoff && TWO_63 <= r.minBackoff * Pow2(retry - 1)
    ensures Backoff(r, retry) < 0 && PromisedBackoff(r, retry) == r.maxBackoff
  {
    var d, k := r.minBackoff, retry - 1;
    ShiftDoubling(d, k);
    WrapAbove(d * Pow2(k));
    NoHitBelow(d, r.maxBackoff, k);
    WrapIdentity(d);
    DoubledInt64Value(d, r.maxBackoff, k);
  }

  lemma WrapAbove(x: int)
    requires TWO_63 <= x < TWO_64
    ensures Wrap(x) == x - TWO_64 < 0
  {
    WrapPeriod(x - TWO_64, 1);
    WrapIdentity(x - TWO_64);
  }

  lemma NoHitBelow(d: int, max: int, k: nat)
    requires 0 <= d && k > 0 && d * Pow2(k - 1) < max < TWO_63 && Wrap(d * Pow2(k)) < max
    ensures !HitsCap(d, max, k)
  {
    forall j | 1 <= j < k ensures Wrap(d * Pow2(j)) < max {
      DoublingsGrow(d, j, k - 1);
      AtLeastOnce(d, j);
      WrapIdentity(d * Pow2(j));
    }
  }

  /** With the largest cap in whole milliseconds the 32nd wait of a 5 s minimum is negative. */
  lemma BackoffCanGoNegative()
    ensures var r := RetryConfig(50, 0, 5_000_000_000, 9_223_372_036_854_000_000, 40);
            Sane(r) && Backoff(r, 32) < 0 && PromisedBackoff(r, 32) == r.maxBackoff
  {
    Pow2Of31();
    FirstOverflowIsNegative(RetryConfig(50, 0, 5_000_000_000, 9_223_372_036_854_000_000, 40), 32);
  }

  lemma Pow2Of31()
    ensures Pow2(30) == 0x4000_0000 && Pow2(31) == 0x8000_0000
  {
    assert Pow2(8) == 0x100;
    assert Pow2(16) == 0x1_0000;
    assert Pow2(24) == 0x100_0000;
  }

  lemma Pow2Of64()
    ensures Pow2(64) == TWO_64
  {
    assert Pow2(8) == 0x100;
    assert Pow2(16) == 0x1_0000;
    assert Pow2(24) == 0x100_0000;
    assert Pow2(32) == 0x1_0000_0000;
    assert Pow2(40) == 0x100_0000_0000;
    assert Pow2(48) == 0x1_0000_0000_0000;
    assert Pow2(56) == 0x100_0000_0000_0000;
  }

  /** With 64 doublings configured the 66th wait is zero instead of the maximum. */
  lemma BackoffCanVanish()
    ensures var r := RetryConfig(100, 0, 5_000_000_000, 3_600_000_000_000, 64);
            Sane(r) && Backoff(r, 66) == 0 && PromisedBackoff(r, 66) == r.maxBackoff
  {
    Pow2Of64();
    var r := RetryConfig(100, 0, 5_000_000_000, 3_600_000_000_000, 64);
    assert Linear(r, 66) == 5_000_000_000 * TWO_64 * 2;
    assert Wrap(5_000_000_000 * TWO_64 * 2) == 0;
  }

  /** The promised waits never shrink from one retry to the next. */
  lemma PromiseNonDecreasing(r: RetryConfig, retry: nat)
    requires Sane(r) && retry >= 1
    ensures PromisedBackoff(r, retry) <= PromisedBackoff(r, retry + 1) <= r.maxBackoff
  {
    if retry <= r.maxDoublings {
      ShiftDoubling(r.minBackoff, retry);
      AtLeastOnce(r.minBackoff, retry - 1);
      NextDoubling(r, retry);
    } else {
      AtLeastOnce(r.minBackoff, r.maxDoublings);
      NextLinear(r.minBackoff * Pow2(r.maxDoublings), retry - r.maxDoublings);
    }
  }

  lemma NextDoubling(r: RetryConfig, retry: nat)
    requires 1 <= retry <= r.maxDoublings
    ensures PromisedBackoff(r, retry) == Min(r.maxBackoff, r.minBackoff * Pow2(retry - 1))
    ensures PromisedBackoff(r, retry + 1) == Min(r.maxBackoff, r.minBackoff * Pow2(retry))
  {
  }

  lemma NextLinear(base: int, n: nat)
    requires base >= 0
    ensures base * n <= base * (n + 1)
  {
    assert base * (n + 1) == base * n + base;
  }
}
