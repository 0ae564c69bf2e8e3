/** Dispatcher.Fire: the retry loop of one execution of a job. */
module Firing {
  import opened Options
  import opened Backoffs

  const CODE_OK := 0

  /** What the outside world does around attempt n: the code it ends with, how long it takes,
      whether the context is cancelled by its end or during the sleep after it, and by how much
      the timer overshoots that sleep. */
  datatype Turn = Turn(code: int, duration: nat, cancelled: bool, cancelledAsleep: bool, overshoot: nat)

  datatype Record = Record(at: int, ok: bool, code: int)

  function Retries(retryCount: int): nat { if retryCount < 0 then 0 else retryCount }

  /** The first n waits of a backoff rule, in order. */
  function Waits(backoff: int -> int, n: nat): seq<int> {
    if n == 0 then [] else Waits(backoff, n - 1) + [backoff(n)]
  }

  /** A timer never fires early, and a negative wait fires at once. */
  function Slept(wait: int): nat { if wait > 0 then wait else 0 }

  /** The time slept in all. */
  function TotalSlept(waits: seq<int>): nat {
    if waits == [] then 0 else TotalSlept(waits[..|waits| - 1]) + Slept(waits[|waits| - 1])
  }

  /** Attempt i + 2 starts when attempt i + 1 has run, its sleep is over and the timer has gone off. */
  ghost predicate PacedAt(records: seq<Record>, sleeps: seq<int>, world: nat -> Turn, i: nat)
    requires i + 1 < |records| && i < |sleeps|
  {
    records[i + 1].at == records[i].at + world(i + 1).duration + Slept(sleeps[i]) + world(i + 1).overshoot
  }

  ghost predicate Paced(records: seq<Record>, sleeps: seq<int>, world: nat -> Turn) {
    forall i: nat :: i + 1 < |records| && i < |sleeps| ==> PacedAt(records, sleeps, world, i)
  }

  /** When the attempt after the recorded ones starts. */
  ghost function NextStart(records: seq<Record>, sleeps: seq<int>, world: nat -> Turn): int
    requires 0 < |records| == |sleeps|
  {
    var n := |records|;
    records[n - 1].at + world(n).duration + Slept(sleeps[n - 1]) + world(n).overshoot
  }

  /** Record i carries the code of attempt i + 1. */
  ghost predicate ReportsAt(records: seq<Record>, world: nat -> Turn, i: nat)
    requires i < |records|
  {
    records[i].code == world(i + 1).code && records[i].ok == (records[i].code == CODE_OK)
  }

  ghost predicate Reports(records: seq<Record>, world: nat -> Turn) {
    forall i: nat :: i < |records| ==> ReportsAt(records, world, i)
  }

  /** The parts of a job's retry config that Fire uses. */
  datatype Policy = Policy(retryCount: int, maxRetryDuration: int, backoff: int -> int)

  /** The window check: time.Since, which saturates, plus the wait, which wraps, against the window. */
  predicate PastWindow(elapsed: int, wait: int, window: int) {
    window > 0 && Wrap(Min(elapsed, TWO_63 - 1) + wait) > window
  }

  /** The time from the start to the end of attempt n. */
  ghost function Elapsed(world: nat -> Turn, start: int, records: seq<Record>, n: nat): int
    requires 1 <= n <= |records|
  {
    records[n - 1].at + world(n).duration - start
  }

  /** Why the loop stops after failed attempt n when it was not the last allowed one: the context is
      cancelled, or the window check says that the next wait would end past the retry window. */
  ghost predicate StopsAfter(job: Policy, world: nat -> Turn, start: int, records: seq<Record>, n: nat)
    requires 1 <= n <= |records|
  {
    || world(n).cancelled || world(n).cancelledAsleep
    || PastWindow(Elapsed(world, start, records, n), job.backoff(n), job.maxRetryDuration)
  }

  /** None of the first m window checks overflows. */
  ghost predicate NoOverflow(job: Policy, world: nat -> Turn, start: int, records: seq<Record>, m: nat)
    requires m <= |records|
  {
    forall n: nat :: 1 <= n <= m ==> Elapsed(world, start, records, n) + job.backoff(n) < TWO_63
  }

  /** The window check is right exactly when the sum does not overflow. */
  lemma WindowCheckIsExact(elapsed: int, wait: int, window: int)
    requires 0 <= elapsed < TWO_63 && -TWO_63 <= wait < TWO_63 && 0 < window < TWO_63
    ensures (PastWindow(elapsed, wait, window) <==> elapsed + wait > window) <==> elapsed + wait < TWO_63
  {
    if elapsed + wait < TWO_63 {
      WrapIdentity(elapsed + wait);
    } else {
      WrapAbove(elapsed + wait);
    }
  }

  ghost predicate RetriedAfter(job: Policy, world: nat -> Turn, start: int, records: seq<Record>, n: nat)
    requires 1 <= n <= |records|
  {
    !records[n - 1].ok && !StopsAfter(job, world, start, records, n)
  }

  /** The first m attempts failed and gave the loop no reason to stop. */
  ghost predicate Retried(job: Policy, world: nat -> Turn, start: int, records: seq<Record>, m: nat)
    requires m <= |records|
  {
    forall n: nat :: 1 <= n <= m ==> RetriedAfter(job, world, start, records, n)
  }

  /** What holds before attempt |records| + 1, which starts at `now`. */
  ghost predicate Retrying(job: Policy, world: nat -> Turn, start: int, records: seq<Record>, sleeps: seq<int>,
                           now: int) {
    && |records| == |sleeps| <= Retries(job.retryCount)
    && Reports(records, world) && Retried(job, world, start, records, |records|)
    && sleeps == Waits(job.backoff, |records|) && Paced(records, sleeps, world)
    && (if records == [] then now == start
        else records[0].at == start && NextStart(records, sleeps, world) == now)
    && TotalSlept(sleeps) <= now - start
    && (job.maxRetryDuration > 0 && NoOverflow(job, world, start, records, |records|) ==>
          TotalSlept(sleeps) <= job.maxRetryDuration)
  }

  /** What Fire promises about the records it wrote and the sleeps it made. */
  ghost predicate Fired(job: Policy, world: nat -> Turn, start: int, records: seq<Record>, sleeps: seq<int>) {
    // one record per attempt, at least one attempt, at most retryCount + 1
    && 1 <= |records| <= Retries(job.retryCount) + 1 && Reports(records, world)
    // every attempt but the last failed and left no reason to stop
    && Retried(job, world, start, records, |records| - 1)
    // the sleeps are backoff(1), backoff(2), ..., and each attempt starts after the sleep before it
    && sleeps == Waits(job.backoff, |records| - 1) && records[0].at == start && Paced(records, sleeps, world)
    // the retry window bounds all the sleeping, unless one of its checks overflows
    && (job.maxRetryDuration > 0 && NoOverflow(job, world, start, records, |records| - 1) ==>
          TotalSlept(sleeps) <= job.maxRetryDuration)
  }

  lemma OneMoreRecord(job: Policy, world: nat -> Turn, start: int, records: seq<Record>, sleeps: seq<int>, now: int)
    requires Retrying(job, world, start, records, sleeps, now)
    ensures var code := world(|records| + 1).code;
            Fired(job, world, start, records + [Record(now, code == CODE_OK, code)], sleeps)
  {
    var code := world(|records| + 1).code;
    var next := Record(now, code == CODE_OK, code);
    ReportsGrow(records, world, now);
    RetriedGrows(job, world, start, records, next);
    PacedByRecord(records, sleeps, world, next);
    OverflowPersists(job, world, start, records, next);
  }

  lemma OverflowPersists(job: Policy, world: nat -> Turn, start: int, records: seq<Record>, next: Record)
    ensures NoOverflow(job, world, start, records + [next], |records|) ==>
              NoOverflow(job, world, start, records, |records|)
  {
    forall n: nat | 1 <= n <= |records|
      ensures Elapsed(world, start, records, n) == Elapsed(world, start, records + [next], n)
    {
    }
  }

  lemma ReportsGrow(records: seq<Record>, world: nat -> Turn, now: int)
    requires Reports(records, world)
    ensures var code := world(|records| + 1).code; Reports(records + [Record(now, code == CODE_OK, code)], world)
  {
    var code := world(|records| + 1).code;
    var grown := records + [Record(now, code == CODE_OK, code)];
    forall i: nat | i < |grown| ensures ReportsAt(grown, world, i) {
      assert i < |records| ==> ReportsAt(records, world, i);
    }
  }

  lemma RetriedGrows(job: Policy, world: nat -> Turn, start: int, records: seq<Record>, next: Record)
    requires Retried(job, world, start, records, |records|)
    ensures Retried(job, world, start, records + [next], |records|)
  {
    forall n: nat | 1 <= n <= |records| ensures RetriedAfter(job, world, start, records + [next], n) {
      assert RetriedAfter(job, world, start, records, n);
    }
  }

  lemma PacedByRecord(records: seq<Record>, sleeps: seq<int>, world: nat -> Turn, next: Record)
    requires Paced(records, sleeps, world) && |records| == |sleeps|
    requires records != [] ==> NextStart(records, sleeps, world) == next.at
    ensures Paced(records + [next], sleeps, world)
  {
    forall i: nat | i + 1 < |records| + 1 && i < |sleeps| ensures PacedAt(records + [next], sleeps, world, i) {
      assert i + 1 < |records| ==> PacedAt(records, sleeps, world, i);
    }
  }

  lemma OneMoreSleep(job: Policy, world: nat -> Turn, start: int, records: seq<Record>, sleeps: seq<int>,
                     now: int, later: int)
    requires Fired(job, world, start, records, sleeps) && RetriedAfter(job, world, start, records, |records|)
    requires now == records[|records| - 1].at + world(|records|).duration && TotalSlept(sleeps) <= now - start
    requires |records| <= Retries(job.retryCount)
    requires later == now + Slept(job.backoff(|records|)) + world(|records|).overshoot
    ensures Retrying(job, world, start, records, sleeps + [job.backoff(|records|)], later)
  {
    var n := |records|;
    WaitsLength(job.backoff, n - 1);
    TotalGrows(sleeps, job.backoff(n));
    PacedGrows(records, sleeps, world, job.backoff(n));
    if job.maxRetryDuration > 0 && NoOverflow(job, world, start, records, n) {
      WithinWindow(job, world, start, records, now - start);
    }
  }

  lemma WithinWindow(job: Policy, world: nat -> Turn, start: int, records: seq<Record>, elapsed: int)
    requires records != [] && RetriedAfter(job, world, start, records, |records|) && job.maxRetryDuration > 0
    requires NoOverflow(job, world, start, records, |records|)
    requires elapsed == Elapsed(world, start, records, |records|) >= 0
    ensures job.backoff(|records|) > 0 ==> elapsed + job.backoff(|records|) <= job.maxRetryDuration
  {
    assert Elapsed(world, start, records, |records|) + job.backoff(|records|) < TWO_63;
    if job.backoff(|records|) > 0 {
      WrapIdentity(elapsed + job.backoff(|records|));
    }
  }

  lemma TotalGrows(waits: seq<int>, wait: int)
    ensures TotalSlept(waits + [wait]) == TotalSlept(waits) + Slept(wait)
  {
    assert (waits + [wait])[..|waits|] == waits;
  }

  lemma PacedGrows(records: seq<Record>, sleeps: seq<int>, world: nat -> Turn, wait: int)
    requires Paced(records, sleeps, world) && |records| == |sleeps| + 1
    ensures Paced(records, sleeps + [wait], world)
  {
    forall i: nat | i + 1 < |records| ensures PacedAt(records, sleeps + [wait], world, i) {
      assert PacedAt(records, sleeps, world, i);
    }
  }

  lemma {:induction false} WaitsLength(backoff: int -> int, n: nat)
    ensures |Waits(backoff, n)| == n
  {
    if n > 0 {
      WaitsLength(backoff, n - 1);
    }
  }

  /** What Fire did, start to end: it does not give up before the last allowed attempt without a reason. */
  ghost predicate Completed(job: Policy, world: nat -> Turn, start: int, records: seq<Record>, sleeps: seq<int>) {
    && Fired(job, world, start, records, sleeps)
    && (|records| <= Retries(job.retryCount) ==> !RetriedAfter(job, world, start, records, |records|))
  }

  /** Dispatcher.Fire after it has acquired the job. */
  method Fire(job: Policy, world: nat -> Turn, start: int) returns (records: seq<Record>, sleeps: seq<int>)
    ensures Completed(job, world, start, records, sleeps)
  {
    records, sleeps := [], [];
    var now, attempt := start, 0;
    while true
      invariant attempt == |records| && Retrying(job, world, start, records, sleeps, now)
      decreases Retries(job.retryCount) - attempt
    {
      attempt := attempt + 1;
      var turn := world(attempt);
      OneMoreRecord(job, world, start, records, sleeps, now);
      records := records + [Record(now, turn.code == CODE_OK, turn.code)];
      now := now + turn.duration;
      if turn.code == CODE_OK || attempt > job.retryCount || turn.cancelled {
        return;
      }
      var wait := job.backoff(attempt);
      if job.maxRetryDuration > 0 && Wrap(Min(now - start, TWO_63 - 1) + wait) > job.maxRetryDuration {
        return;
      }
      if turn.cancelledAsleep {
        return;
      }
      ghost var later := now + Slept(wait) + turn.overshoot;
      assert RetriedAfter(job, world, start, records, attempt);
      OneMoreSleep(job, world, start, records, sleeps, now, later);
      now := now + Slept(wait) + turn.overshoot;
      sleeps := sleeps + [wait];
      assert Retrying(job, world, start, records, sleeps, now);
    }
  }

  lemma {:induction false} WaitsAt(backoff: int -> int, n: nat, i: nat)
    requires i < n
    ensures |Waits(backoff, n)| == n && Waits(backoff, n)[i] == backoff(i + 1)
    decreases n
  {
    if i < n - 1 {
      WaitsAt(backoff, n - 1, i);
    } else if n > 1 {
      WaitsAt(backoff, n - 1, 0);
    }
  }

  /** The policy of a retry config. */
  function PolicyOf(r: RetryConfig): Policy {
    Policy(r.retryCount, r.maxRetryDuration, n => Backoff(r, n))
  }

  /** For every validated retry config, the job's n-th sleep is the promised wait before retry n
      exactly when the int64 arithmetic keeps the promise. */
  lemma SleepsArePromised(r: RetryConfig, n: nat, i: nat)
    requires Sane(r) && i < n
    ensures |Waits(PolicyOf(r).backoff, n)| == n
    ensures Waits(PolicyOf(r).backoff, n)[i] == PromisedBackoff(r, i + 1) <==> KeepsPromise(r, i + 1)
  {
    WaitsAt(PolicyOf(r).backoff, n, i);
    BackoffMeetsPromise(r, i + 1);
  }

  /** Each retry that Fire makes starts, timer permitting, within the retry window exactly when its
      check did not overflow. */
  lemma RetryInWindow(job: Policy, world: nat -> Turn, start: int, records: seq<Record>, sleeps: seq<int>, n: nat)
    requires Fired(job, world, start, records, sleeps) && 1 <= n < |records|
    requires 0 < job.maxRetryDuration < TWO_63 && -TWO_63 <= job.backoff(n) < TWO_63
    requires Elapsed(world, start, records, n) < TWO_63
    ensures var e := Elapsed(world, start, records, n);
            e + job.backoff(n) <= job.maxRetryDuration <==> e + job.backoff(n) < TWO_63
  {
    assert RetriedAfter(job, world, start, records, n);
    WaitsLength(job.backoff, |records| - 1);
    RecordsStartLater(records, sleeps, world, n - 1);
    WindowCheckIsExact(Elapsed(world, start, records, n), job.backoff(n), job.maxRetryDuration);
  }

  lemma {:induction false} RecordsStartLater(records: seq<Record>, sleeps: seq<int>, world: nat -> Turn, i: nat)
    requires i < |records| && |records| <= |sleeps| + 1 && Paced(records, sleeps, world)
    ensures records[0].at <= records[i].at
  {
    if i > 0 {
      RecordsStartLater(records, sleeps, world, i - 1);
      assert PacedAt(records, sleeps, world, i - 1);
    }
  }

  /** A validated retry config with a one-hour window and the longest backoff in whole milliseconds. */
  const LONG_WAIT: RetryConfig :=
    RetryConfig(1, 3_600_000_000_000, 9_223_372_036_854_000_000, 9_223_372_036_854_000_000, 5)

  /** With it, after one failed attempt of a millisecond, Fire sleeps for 292 years. */
  lemma WindowCanBePassed(world: nat -> Turn, start: int, records: seq<Record>, sleeps: seq<int>)
    requires world(1) == Turn(2, 1_000_000, false, false, 0)
    requires Completed(PolicyOf(LONG_WAIT), world, start, records, sleeps)
    ensures Sane(LONG_WAIT) && sleeps == [LONG_WAIT.minBackoff]
    ensures TotalSlept(sleeps) > LONG_WAIT.maxRetryDuration > 0
  {
    var job := PolicyOf(LONG_WAIT);
    assert job.backoff(1) == LONG_WAIT.minBackoff;
    assert ReportsAt(records, world, 0);
    WrapAbove(1_000_000 + LONG_WAIT.minBackoff);
    assert RetriedAfter(job, world, start, records, 1);
    assert Waits(job.backoff, 1) == [job.backoff(1)];
    TotalGrows([], job.backoff(1));
  }
}
