/** The dispatch-rate limit over whole runs. */
module WorkerRates {
  import opened Options
  import opened TaskRows
  import opened TokenBucket
  import opened WorkerSystem
  import opened WorkerSafety

  /** A window of poll times for one queue, during which its rate is `rate` per second. */
  datatype Window = Window(queue: QueueId, from: int, to: int, rate: int)

  predicate Within(w: Window, now: int) { w.from <= now <= w.to }

  /** The step is a successful claim of a task of the queue by a poll of the window. */
  ghost predicate ClaimsIn(w: Window, s: State, l: Label) {
    l == Poller(ClaimHead) && s.pc.Slot? && s.pc.pending != [] && Claimable(s)
    && s.pc.visit.queue.id == w.queue && Within(w, s.pc.visit.now)
  }

  /** If the step reads the queue's limits in the window, it reads the window's rate. */
  ghost predicate ReadsRate(w: Window, s: State, l: Label) {
    l == Poller(ReadLimits) && s.pc.Roomed? && s.pc.visit.queue.id == w.queue && Within(w, s.pc.visit.now)
    ==> s.pc.visit.queue.rate == w.rate
  }

  ghost predicate RateHeld(c: Config, s: State, ls: seq<Label>, w: Window)
    decreases |ls|
  {
    ls == [] || (
      var ls0 := ls[..|ls| - 1];
      && RateHeld(c, s, ls0, w)
      && Exec(c, s, ls).Some?
      && ReadsRate(w, Exec(c, s, ls0).value, ls[|ls| - 1]))
  }

  ghost function ClaimCount(c: Config, s: State, ls: seq<Label>, w: Window): nat
    requires Exec(c, s, ls).Some?
    decreases |ls|
  {
    if ls == [] then 0 else
      var ls0 := ls[..|ls| - 1];
      ClaimCount(c, s, ls0, w) + if ClaimsIn(w, Exec(c, s, ls0).value, ls[|ls| - 1]) then 1 else 0
  }

  /** A restart that can hand the window another bucket: it comes after a claim of the window, and
      before the window has passed. */
  ghost predicate RestartsIn(w: Window, s: State, l: Label, n: nat) { l == Crash && n > 0 && s.clock <= w.to }

  /** One full bucket, and one more for each restart of the window. */
  ghost function Allowance(c: Config, s: State, ls: seq<Label>, w: Window): real
    requires Exec(c, s, ls).Some?
    decreases |ls|
  {
    if ls == [] then w.rate as real else
      var ls0 := ls[..|ls| - 1];
      Allowance(c, s, ls0, w)
      + if RestartsIn(w, Exec(c, s, ls0).value, ls[|ls| - 1], ClaimCount(c, s, ls0, w)) then w.rate as real else 0.0
  }

  /** What the queue has earned from the start of the window to t. */
  function Income(w: Window, t: int): real { Earned(w.rate, t - w.from) }

  lemma IncomeGrows(w: Window, t: int, u: int)
    requires w.rate >= 1 && w.from <= t <= u
    ensures 0.0 <= Income(w, t) <= Income(w, u) == Income(w, t) + Earned(w.rate, u - t)
  {
    EarnedGrows(w.rate, 0, t - w.from);
    EarnedGrows(w.rate, t - w.from, u - w.from);
    EarnedAdds(w.rate, t - w.from, u - t);
    assert (t - w.from) + (u - t) == u - w.from;
  }

  /** A claim of the window whose token has not been paid yet. */
  function Unpaid(w: Window, pc: Pc): real {
    if pc.Claimed? && pc.visit.queue.id == w.queue && Within(w, pc.visit.now) then 1.0 else 0.0
  }

  function Earlier(t: int, u: int): int { if t <= u then t else u }

  /** n claims so far with allowance a: claims and tokens together never exceed the allowance, of which
      a process without a bucket has one bucket still to come, plus the income up to the last refill. */
  ghost predicate Solvent(w: Window, s: State, n: nat, a: real) {
    a >= w.rate as real && (
      if w.queue in s.buckets then
        var b := s.buckets[w.queue];
        if b.last < w.from then n == 0
        else if b.last <= w.to then n as real + b.tokens - Unpaid(w, s.pc) <= a + Income(w, b.last)
        else n as real <= a + Income(w, w.to)
      else
        n == 0 || (w.from <= PollTime(s.pc, s.clock)
                   && n as real <= (if PollTime(s.pc, s.clock) > w.to then a else a - w.rate as real)
                                   + Income(w, Earlier(PollTime(s.pc, s.clock), w.to))))
  }

  /** Whatever the bucket looks like, n is covered up to any later time. */
  lemma CoveredLater(c: Config, w: Window, s: State, n: nat, a: real, t: int)
    requires Accounted(s) && WithinLimits(c, s) && Solvent(w, s, n, a) && w.rate >= 1 && w.from <= w.to
    requires PollTime(s.pc, s.clock) <= t
    ensures n == 0 || (w.from <= t && n as real <= a + Income(w, Earlier(t, w.to)))
  {
    if n > 0 {
      if w.queue in s.buckets {
        var b := s.buckets[w.queue];
        if b.last <= w.to {
          IncomeGrows(w, b.last, Earlier(t, w.to));
          if Unpaid(w, s.pc) == 1.0 {
            assert Holds(s.pc, s.pc.visit.queue);
            assert |s.pc.pending| as real >= 1.0;
          }
        }
      } else {
        IncomeGrows(w, Earlier(PollTime(s.pc, s.clock), w.to), Earlier(t, w.to));
      }
    }
  }

  lemma RefillStaysSolvent(c: Config, w: Window, s: State, n: nat, a: real)
    requires Accounted(s) && WithinLimits(c, s) && Solvent(w, s, n, a) && w.rate >= 1 && w.from <= w.to
    requires s.pc.Roomed? && s.pc.visit.queue.id == w.queue
    requires Within(w, s.pc.visit.now) ==> s.pc.visit.queue.rate == w.rate
    ensures Solvent(w, ComputeLimits(s), n, a)
  {
    var v := s.pc.visit;
    assert Holds(s.pc, v.queue);
    RefillIsCovered(c, w, s, n, a);
    assert ComputeLimits(s).buckets[w.queue] == Refilled(s.buckets, v);
  }

  /** The refilled bucket and the claims so far are within the allowance and the income. */
  lemma RefillIsCovered(c: Config, w: Window, s: State, n: nat, a: real)
    requires Accounted(s) && WithinLimits(c, s) && Solvent(w, s, n, a) && w.rate >= 1 && w.from <= w.to
    requires s.pc.Roomed? && s.pc.visit.queue.id == w.queue
    requires Within(w, s.pc.visit.now) ==> s.pc.visit.queue.rate == w.rate
    ensures var now := s.pc.visit.now;
            && (now < w.from ==> n == 0)
            && (Within(w, now) ==> n as real + Refilled(s.buckets, s.pc.visit).tokens <= a + Income(w, now))
            && (now > w.to ==> n as real <= a + Income(w, w.to))
  {
    var v := s.pc.visit;
    if Within(w, v.now) {
      IncomeGrows(w, w.from, v.now);
      if w.queue in s.buckets && s.buckets[w.queue].last >= w.from {
        IncomeGrows(w, s.buckets[w.queue].last, v.now);
      }
    } else if v.now > w.to {
      CoveredLater(c, w, s, n, a, v.now);
      IncomeGrows(w, w.from, w.to);
    }
  }

  lemma PollerStaysSolvent(c: Config, w: Window, s: State, l: PollStep, n: nat, a: real)
    requires Accounted(s) && WithinLimits(c, s) && Solvent(w, s, n, a) && w.rate >= 1 && w.from <= w.to
    requires PollNext(c, s, l).Some? && ReadsRate(w, s, Poller(l))
    ensures Solvent(w, PollNext(c, s, l).value, n + if ClaimsIn(w, s, Poller(l)) then 1 else 0, a)
  {
    match l
    case ReadLimits =>
      if s.pc.visit.queue.id == w.queue {
        RefillStaysSolvent(c, w, s, n, a);
      } else {
        OtherRefillStaysSolvent(c, w, s, n, a);
      }
    case ClaimHead => ClaimStaysSolvent(c, w, s, n, a);
    case Spawn(g) => SpawnStaysSolvent(c, w, s, g, n, a);
    case _ => WaitingStaysSolvent(c, w, s, PollNext(c, s, l).value, n, a);
  }

  lemma OtherRefillStaysSolvent(c: Config, w: Window, s: State, n: nat, a: real)
    requires Solvent(w, s, n, a) && s.pc.Roomed? && s.pc.visit.queue.id != w.queue
    ensures Solvent(w, ComputeLimits(s), n, a)
  {
  }

  lemma ClaimStaysSolvent(c: Config, w: Window, s: State, n: nat, a: real)
    requires WithinLimits(c, s) && Solvent(w, s, n, a)
    requires s.pc.Slot? && s.pc.pending != []
    ensures Solvent(w, ClaimOrSkip(s), n + if ClaimsIn(w, s, Poller(ClaimHead)) then 1 else 0, a)
  {
    assert Holds(s.pc, s.pc.visit.queue);
  }

  lemma SpawnStaysSolvent(c: Config, w: Window, s: State, g: nat, n: nat, a: real)
    requires WithinLimits(c, s) && Solvent(w, s, n, a)
    requires s.pc.Claimed? && s.pc.pending != [] && g !in s.live
    ensures Solvent(w, SpawnDispatch(s, g), n, a)
  {
    assert Holds(s.pc, s.pc.visit.queue);
  }

  /** Steps without a refill, a claim or a payment only let poll time pass. */
  lemma WaitingStaysSolvent(c: Config, w: Window, s: State, s': State, n: nat, a: real)
    requires Solvent(w, s, n, a) && w.rate >= 1 && w.from <= w.to
    requires s'.buckets == s.buckets && Unpaid(w, s'.pc) == Unpaid(w, s.pc)
    requires PollTime(s.pc, s.clock) <= PollTime(s'.pc, s'.clock)
    ensures Solvent(w, s', n, a)
  {
    if w.queue !in s.buckets && n > 0 {
      IncomeGrows(w, Earlier(PollTime(s.pc, s.clock), w.to), Earlier(PollTime(s'.pc, s'.clock), w.to));
    }
  }

  lemma StepStaysSolvent(c: Config, w: Window, s: State, l: Label, n: nat, a: real)
    requires Accounted(s) && WithinLimits(c, s) && Solvent(w, s, n, a) && w.rate >= 1 && w.from <= w.to
    requires Next(c, s, l).Some? && ReadsRate(w, s, l)
    ensures Solvent(w, Next(c, s, l).value, n + if ClaimsIn(w, s, l) then 1 else 0,
                    a + if RestartsIn(w, s, l, n) then w.rate as real else 0.0)
  {
    var s' := Next(c, s, l).value;
    match l
    case Outside(call) =>
      CallFrame(s, call);
      WaitingStaysSolvent(c, w, s, s', n, a);
    case Crash => CoveredLater(c, w, s, n, a, s.clock);
    case Recover => WaitingStaysSolvent(c, w, s, s', n, a);
    case Goroutine(g, go) =>
      GoFrame(c, s, g, go);
      WaitingStaysSolvent(c, w, s, s', n, a);
    case Poller(poll) => PollerStaysSolvent(c, w, s, poll, n, a);
  }

  lemma {:induction false} RunStaysSolvent(c: Config, clock: int, ls: seq<Label>, w: Window)
    requires RateHeld(c, Boot(clock), ls, w) && w.rate >= 1 && w.from <= w.to
    ensures Exec(c, Boot(clock), ls).Some?
    ensures Solvent(w, Exec(c, Boot(clock), ls).value,
                    ClaimCount(c, Boot(clock), ls, w), Allowance(c, Boot(clock), ls, w))
    decreases |ls|
  {
    if ls != [] {
      var b, ls0 := Boot(clock), ls[..|ls| - 1];
      RunStaysSolvent(c, clock, ls0, w);
      BootIsAccounted(c, clock);
      RunsStayAccounted(c, b, ls0);
      StepStaysSolvent(c, w, Exec(c, b, ls0).value, ls[|ls| - 1], ClaimCount(c, b, ls0, w), Allowance(c, b, ls0, w));
    }
  }

  lemma ClaimsAreCovered(c: Config, clock: int, ls: seq<Label>, w: Window)
    requires RateHeld(c, Boot(clock), ls, w) && w.rate >= 1 && w.from <= w.to
    ensures Exec(c, Boot(clock), ls).Some?
    ensures ClaimCount(c, Boot(clock), ls, w) as real <= Allowance(c, Boot(clock), ls, w) + Income(w, w.to)
  {
    RunStaysSolvent(c, clock, ls, w);
    BootIsAccounted(c, clock);
    RunsStayAccounted(c, Boot(clock), ls);
    CoveredInFull(c, w, Exec(c, Boot(clock), ls).value,
                  ClaimCount(c, Boot(clock), ls, w), Allowance(c, Boot(clock), ls, w));
  }

  /** In any run, the claims on a queue by polls whose clock reading lies in [a, b], while its rate
      is R, number at most R * (restarts + 1) + R * (b - a) seconds, where only restarts between the
      window's first claim and its end count: each hands out one more full bucket. */
  lemma RateIsBounded(c: Config, clock: int, ls: seq<Label>, w: Window)
    requires RateHeld(c, Boot(clock), ls, w) && w.rate >= 1 && w.from <= w.to
    ensures Exec(c, Boot(clock), ls).Some?
    ensures ClaimCount(c, Boot(clock), ls, w) as real
            <= Allowance(c, Boot(clock), ls, w) + w.rate as real * (w.to - w.from) as real / 1000.0
  {
    ClaimsAreCovered(c, clock, ls, w);
    AtMost(w, ClaimCount(c, Boot(clock), ls, w) as real, Allowance(c, Boot(clock), ls, w));
  }

  lemma AtMost(w: Window, n: real, a: real)
    requires n <= a + Income(w, w.to)
    ensures n <= a + w.rate as real * (w.to - w.from) as real / 1000.0
  {
    EarnedInFigures(w.rate, w.to - w.from);
  }

  /** No process crashes during the window; before and after it any number may. */
  ghost predicate OneLife(c: Config, s: State, ls: seq<Label>, w: Window)
    decreases |ls|
  {
    ls == [] || (
      var ls0 := ls[..|ls| - 1];
      && OneLife(c, s, ls0, w)
      && Exec(c, s, ls).Some?
      && (ls[|ls| - 1] == Crash ==> !Within(w, Exec(c, s, ls0).value.clock)))
  }

  lemma ClaimsComeAfterStart(c: Config, w: Window, s: State, n: nat, a: real)
    requires WithinLimits(c, s) && Solvent(w, s, n, a) && n > 0
    ensures w.from <= s.clock
  {
  }

  lemma {:induction false} OneLifeHasNoRestart(c: Config, clock: int, ls: seq<Label>, w: Window)
    requires RateHeld(c, Boot(clock), ls, w) && w.rate >= 1 && w.from <= w.to && OneLife(c, Boot(clock), ls, w)
    ensures Exec(c, Boot(clock), ls).Some? && Allowance(c, Boot(clock), ls, w) == w.rate as real
    decreases |ls|
  {
    if ls != [] {
      var ls0 := ls[..|ls| - 1];
      OneLifeHasNoRestart(c, clock, ls0, w);
      RunStaysSolvent(c, clock, ls0, w);
      BootIsAccounted(c, clock);
      RunsStayAccounted(c, Boot(clock), ls0);
      var s, n := Exec(c, Boot(clock), ls0).value, ClaimCount(c, Boot(clock), ls0, w);
      if n > 0 {
        ClaimsComeAfterStart(c, w, s, n, Allowance(c, Boot(clock), ls0, w));
      }
    }
  }

  /** In every process life, the first or a later one: at most R + R * (b - a) claims. */
  lemma RateWithinOneLife(c: Config, clock: int, ls: seq<Label>, w: Window)
    requires RateHeld(c, Boot(clock), ls, w) && w.rate >= 1 && w.from <= w.to && OneLife(c, Boot(clock), ls, w)
    ensures Exec(c, Boot(clock), ls).Some?
    ensures ClaimCount(c, Boot(clock), ls, w) as real
            <= w.rate as real + w.rate as real * (w.to - w.from) as real / 1000.0
  {
    RateIsBounded(c, clock, ls, w);
    OneLifeHasNoRestart(c, clock, ls, w);
  }

  lemma CoveredInFull(c: Config, w: Window, s: State, n: nat, a: real)
    requires Accounted(s) && WithinLimits(c, s) && Solvent(w, s, n, a) && w.rate >= 1 && w.from <= w.to
    ensures n as real <= a + Income(w, w.to)
  {
    CoveredLater(c, w, s, n, a, s.clock);
    IncomeGrows(w, w.from, w.to);
    if n > 0 {
      IncomeGrows(w, Earlier(s.clock, w.to), w.to);
    }
  }

  // ---------------------------------------------------------------- token range

  /** Every visit of the queue in the run reads the same rate. */
  ghost predicate SteadyRate(c: Config, s: State, ls: seq<Label>, q: QueueId, rate: int)
    decreases |ls|
  {
    ls == [] || (
      var ls0 := ls[..|ls| - 1];
      && SteadyRate(c, s, ls0, q, rate)
      && Exec(c, s, ls).Some?
      && (ls[|ls| - 1] == Poller(ReadLimits) ==>
            var v := Exec(c, s, ls0).value.pc.visit;
            v.queue.id == q ==> v.queue.rate == rate))
  }

  ghost predicate InRange(s: State, q: QueueId, rate: int) {
    q in s.buckets ==> 0.0 <= s.buckets[q].tokens <= if rate <= 1 then 1.0 else rate as real
  }

  lemma LimitsKeepRange(c: Config, s: State, q: QueueId, rate: int)
    requires WithinLimits(c, s) && InRange(s, q, rate) && s.pc.Roomed?
    requires s.pc.visit.queue.id == q ==> s.pc.visit.queue.rate == rate
    ensures InRange(ComputeLimits(s), q, rate)
  {
    LimitsStep(c, s);
  }

  lemma PollerKeepsRange(c: Config, s: State, l: PollStep, q: QueueId, rate: int)
    requires Accounted(s) && WithinLimits(c, s) && InRange(s, q, rate) && PollNext(c, s, l).Some?
    requires l == ReadLimits ==> s.pc.visit.queue.id == q ==> s.pc.visit.queue.rate == rate
    ensures InRange(PollNext(c, s, l).value, q, rate)
  {
    match l
    case ReadLimits => LimitsKeepRange(c, s, q, rate);
    case Spawn(g) => assert s.pc.visit.queue.id == q ==> Holds(s.pc, s.pc.visit.queue);
    case BeginPoll(_) =>
    case NextQueue =>
    case ListTasks(_) =>
    case TakeSlot => assert AcquireSlot(c, s).buckets == s.buckets;
    case ClaimHead => assert ClaimOrSkip(s).buckets == s.buckets;
  }

  /** While every visit reads rate R, the bucket stays within [0, max(1, R)]. */
  lemma {:induction false} TokensStayInRange(c: Config, clock: int, ls: seq<Label>, q: QueueId, rate: int)
    requires SteadyRate(c, Boot(clock), ls, q, rate)
    ensures Exec(c, Boot(clock), ls).Some? && InRange(Exec(c, Boot(clock), ls).value, q, rate)
    decreases |ls|
  {
    if ls != [] {
      var ls0, l := ls[..|ls| - 1], ls[|ls| - 1];
      TokensStayInRange(c, clock, ls0, q, rate);
      BootIsAccounted(c, clock);
      RunsStayAccounted(c, Boot(clock), ls0);
      var s := Exec(c, Boot(clock), ls0).value;
      match l
      case Outside(call) => CallFrame(s, call);
      case Goroutine(g, go) => GoFrame(c, s, g, go);
      case Poller(poll) => PollerKeepsRange(c, s, poll, q, rate);
      case _ =>
    }
  }
}
