/** The per-queue dispatch-rate limiter. Tokens are real numbers; time is in milliseconds. */
module TokenBucket {

  datatype Bucket = Bucket(tokens: real, last: int)

  function Min(x: real, y: real): real { if x <= y then x else y }

  /** The bucket holds at least one token, so that slow queues still dispatch. */
  function Capacity(rate: int): real { if rate <= 1 then 1.0 else rate as real }

  /** Tokens earned in `elapsed` milliseconds at `rate` per second. */
  function Earned(rate: int, elapsed: int): real { (elapsed * rate) as real / 1000.0 }

  function Refill(b: Bucket, now: int, rate: int): Bucket {
    Bucket(Min(Capacity(rate), b.tokens + Earned(rate, now - b.last)), now)
  }

  /** Go's float-to-int conversion. */
  function Truncate(x: real): int { if x >= 0.0 then x.Floor else -((-x).Floor) }

  lemma EarnedAdds(rate: int, x: int, y: int)
    ensures Earned(rate, x + y) == Earned(rate, x) + Earned(rate, y)
  {
    assert (x + y) * rate == x * rate + y * rate;
  }

  lemma EarnedGrows(rate: int, x: int, y: int)
    requires rate >= 0 && x <= y
    ensures Earned(rate, x) <= Earned(rate, y)
  {
    assert x * rate <= y * rate;
  }

  lemma RefillRange(b: Bucket, now: int, rate: int)
    requires b.tokens >= 0.0 && b.last <= now && rate >= 0
    ensures 0.0 <= Refill(b, now, rate).tokens <= Capacity(rate)
  {
    EarnedGrows(rate, 0, now - b.last);
  }

  /** Refilling at each of the given instants in turn. */
  function RefillAt(b: Bucket, instants: seq<int>, rate: int): Bucket {
    if instants == [] then b
    else Refill(RefillAt(b, instants[..|instants| - 1], rate), instants[|instants| - 1], rate)
  }

  predicate Ascending(from: int, instants: seq<int>) {
    && (forall i :: 0 <= i < |instants| ==> from <= instants[i])
    && (forall i, j :: 0 <= i < j < |instants| ==> instants[i] <= instants[j])
  }

  /** Lazy refill: one refill at the end is the same as refilling at any instants in between. */
  lemma {:induction false} LazyRefill(b: Bucket, instants: seq<int>, rate: int)
    requires rate >= 0 && instants != [] && Ascending(b.last, instants)
    ensures RefillAt(b, instants, rate) == Refill(b, instants[|instants| - 1], rate)
  {
    var n := |instants| - 1;
    var init := instants[..n];
    if init == [] {
      assert RefillAt(b, init, rate) == b;
    } else {
      LazyRefill(b, init, rate);
      assert init[|init| - 1] == instants[n - 1];
      var t, u := instants[n - 1], instants[n];
      EarnedAdds(rate, t - b.last, u - t);
      EarnedGrows(rate, 0, u - t);
      assert (t - b.last) + (u - t) == u - b.last;
    }
  }

  /** The refill in figures: the tokens there were, plus R for each second since the last refill, up to
      max(1, R). */
  lemma RefillInFigures(b: Bucket, now: int, rate: int)
    requires rate >= 1
    ensures var grown, most := b.tokens + rate as real * (now - b.last) as real / 1000.0, rate as real;
            Refill(b, now, rate) == Bucket(if grown <= most then grown else most, now)
  {
    EarnedInFigures(rate, now - b.last);
  }

  lemma EarnedInFigures(rate: int, elapsed: int)
    ensures Earned(rate, elapsed) == rate as real * elapsed as real / 1000.0
  {
    assert (elapsed * rate) as real == rate as real * elapsed as real;
  }

  /** A bucket left alone for a second is full, whatever was in it; with less time, it is full exactly
      when the time makes up for what was missing. */
  lemma FullAgain(b: Bucket, now: int, rate: int)
    requires rate >= 1 && 0.0 <= b.tokens <= rate as real && b.last <= now
    ensures now - b.last >= 1000 ==> Refill(b, now, rate).tokens == rate as real
    ensures Refill(b, now, rate).tokens == rate as real
            <==> rate as real * (now - b.last) as real >= 1000.0 * (rate as real - b.tokens)
  {
    RefillInFigures(b, now, rate);
    if now - b.last >= 1000 {
      assert rate as real * (now - b.last) as real >= rate as real * 1000.0;
    }
  }
}
