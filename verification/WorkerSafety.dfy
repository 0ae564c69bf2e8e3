/** What every reachable state of the worker keeps: exact slot and in-flight accounting, and the
    limits of each visit. */
module WorkerSafety {
  import opened Options
  import opened TaskRows
  import opened TokenBucket
  import opened WorkerSystem

  // ---------------------------------------------------------------- accounting

  /** Goroutines of a queue that have not yet given their in-flight count back. */
  ghost function Counted(live: map<nat, Dispatch>, q: QueueId): set<nat> {
    set g | g in live && live[g].task.queue == q && live[g].phase != Uncounted
  }

  /** The slot the poller holds between taking it and handing it to a goroutine. */
  function Held(pc: Pc): int { if pc.Slot? || pc.Claimed? then 1 else 0 }

  predicate HasPending(pc: Pc) { pc.Drain? || pc.Slot? || pc.Claimed? }

  /** The listing the poller is working through (empty elsewhere). */
  function PendingOf(pc: Pc): seq<Listed> { if HasPending(pc) then pc.pending else [] }

  ghost predicate OfOneQueue(pc: Pc) {
    HasPending(pc) ==> forall i :: 0 <= i < |pc.pending| ==> pc.pending[i].task.queue == pc.visit.queue.id
  }

  /** The semaphore fill is the number of goroutines plus the poller's own slot, and each queue's
      in-flight counter is the number of its counted goroutines. */
  ghost predicate Accounted(s: State) {
    && s.sem == |s.live| + Held(s.pc)
    && (forall q :: Inflight(s.inflight, q) == |Counted(s.live, q)|)
    && OfOneQueue(s.pc)
    && (s.pc.Slot? || s.pc.Claimed? ==> s.pc.pending != [])
    && (s.pc.Starting? ==> s.live == map[])
  }

  function One(b: bool): int { if b then 1 else 0 }

  lemma CountedAdd(live: map<nat, Dispatch>, g: nat, d: Dispatch, q: QueueId)
    requires g !in live && d.phase != Uncounted
    ensures |Counted(live[g := d], q)| == |Counted(live, q)| + One(q == d.task.queue)
  {
    if q == d.task.queue {
      assert Counted(live[g := d], q) == Counted(live, q) + {g};
    } else {
      assert Counted(live[g := d], q) == Counted(live, q);
    }
  }

  lemma CountedPhase(live: map<nat, Dispatch>, g: nat, p: Phase, q: QueueId)
    requires g in live && live[g].phase != Uncounted
    ensures |Counted(live[g := live[g].(phase := p)], q)|
         == |Counted(live, q)| - One(q == live[g].task.queue && p == Uncounted)
  {
    var after := live[g := live[g].(phase := p)];
    if q == live[g].task.queue && p == Uncounted {
      assert Counted(live, q) == Counted(after, q) + {g};
    } else {
      assert Counted(after, q) == Counted(live, q);
    }
  }

  lemma CountedDrop(live: map<nat, Dispatch>, g: nat, q: QueueId)
    requires g in live && live[g].phase == Uncounted
    ensures Counted(live - {g}, q) == Counted(live, q)
  {
  }

  lemma GoroutineKeepsAccounted(c: Config, s: State, g: nat, l: GoStep)
    requires Accounted(s) && GoNext(c, s, g, l).Some?
    ensures Accounted(GoNext(c, s, g, l).value)
  {
    var s' := GoNext(c, s, g, l).value;
    forall q ensures Inflight(s'.inflight, q) == |Counted(s'.live, q)| {
      assert Inflight(s.inflight, q) == |Counted(s.live, q)|;
      match l
      case Release => CountedDrop(s.live, g, q);
      case Uncount => CountedPhase(s.live, g, Uncounted, q);
      case _ => CountedPhase(s.live, g, Recorded, q);
    }
    if l.Release? {
      assert s'.live.Keys == s.live.Keys - {g};
    } else {
      assert s'.live.Keys == s.live.Keys;
    }
  }

  /** One more goroutine of queue v, and one more in flight. */
  lemma SpawnCounts(inflight: map<QueueId, int>, live: map<nat, Dispatch>, g: nat, d: Dispatch, q: QueueId)
    requires g !in live && d.phase == Requesting && Inflight(inflight, q) == |Counted(live, q)|
    ensures var v := d.task.queue;
            Inflight(inflight[v := Inflight(inflight, v) + 1], q) == |Counted(live[g := d], q)|
    ensures |live[g := d]| == |live| + 1
  {
    CountedAdd(live, g, d, q);
    assert live[g := d].Keys == live.Keys + {g};
  }

  lemma SpawnKeepsAccounted(s: State, g: nat)
    requires Accounted(s) && s.pc.Claimed? && g !in s.live
    ensures Accounted(SpawnDispatch(s, g))
  {
    var s', head := SpawnDispatch(s, g), s.pc.pending[0];
    assert head.task.queue == s.pc.visit.queue.id;
    forall q ensures Inflight(s'.inflight, q) == |Counted(s'.live, q)| && |s'.live| == |s.live| + 1 {
      assert Inflight(s.inflight, q) == |Counted(s.live, q)|;
      SpawnCounts(s.inflight, s.live, g, Dispatch(head.id, head.task, Requesting), q);
    }
    assert |s'.live| == |s.live| + 1 by {
      assert Inflight(s'.inflight, head.task.queue) == |Counted(s'.live, head.task.queue)|;
    }
  }

  /** Steps that start and end no goroutine: the slot they take or give back is the poller's own. */
  lemma MoveKeepsAccounted(s: State, s': State)
    requires Accounted(s) && s'.inflight == s.inflight && s'.live == s.live
    requires s'.sem - Held(s'.pc) == s.sem - Held(s.pc)
    requires OfOneQueue(s'.pc) && !s'.pc.Starting? && (s'.pc.Slot? || s'.pc.Claimed? ==> s'.pc.pending != [])
    ensures Accounted(s')
  {
  }

  lemma ClaimKeepsAccounted(s: State)
    requires Accounted(s) && s.pc.Slot?
    ensures Accounted(ClaimOrSkip(s))
  {
    MoveKeepsAccounted(s, ClaimOrSkip(s));
  }

  lemma SlotKeepsAccounted(c: Config, s: State)
    requires Accounted(s) && s.pc.Drain?
    ensures Accounted(AcquireSlot(c, s))
  {
    MoveKeepsAccounted(s, AcquireSlot(c, s));
  }

  lemma LimitsKeepAccounted(s: State)
    requires Accounted(s) && s.pc.Roomed?
    ensures Accounted(ComputeLimits(s))
  {
    MoveKeepsAccounted(s, ComputeLimits(s));
  }

  lemma PollerKeepsAccounted(c: Config, s: State, l: PollStep)
    requires Accounted(s) && PollNext(c, s, l).Some?
    ensures Accounted(PollNext(c, s, l).value)
  {
    match l
    case Spawn(g) => SpawnKeepsAccounted(s, g);
    case ClaimHead => ClaimKeepsAccounted(s);
    case TakeSlot => SlotKeepsAccounted(c, s);
    case ReadLimits => LimitsKeepAccounted(s);
    case _ => MoveKeepsAccounted(s, PollNext(c, s, l).value);
  }

  lemma StepKeepsAccounted(c: Config, s: State, l: Label)
    requires Accounted(s) && Next(c, s, l).Some?
    ensures Accounted(Next(c, s, l).value)
  {
    match l
    case Outside(call) => CallFrame(s, call);
    case Goroutine(g, go) => GoroutineKeepsAccounted(c, s, g, go);
    case Poller(poll) => PollerKeepsAccounted(c, s, poll);
    case _ => assert forall q :: Counted(map[], q) == {};
  }

  // ---------------------------------------------------------------- limits

  ghost predicate PositiveLimits(q: Queue) { q.rate >= 1 && q.concurrency >= 1 }

  /** The queue snapshots a poll still holds. */
  ghost predicate Holds(pc: Pc, q: Queue) {
    || (pc.Scan? && q in pc.rest)
    || ((pc.Roomed? || pc.Limited? || HasPending(pc)) && (q == pc.visit.queue || q in pc.visit.rest))
  }

  /** What the visit may still add, against every limit it read. */
  ghost predicate Fits(c: Config, s: State, v: Visit, more: int) {
    && s.sem - Held(s.pc) + more <= c.slots
    && (v.queue.concurrency > 0 ==> Inflight(s.inflight, v.queue.id) + more <= v.queue.concurrency)
    && (v.queue.rate > 0 ==> v.queue.id in s.buckets
                             && s.buckets[v.queue.id].tokens >= more as real
                             && s.buckets[v.queue.id].last == v.now)
  }

  function PollTime(pc: Pc, clock: int): int {
    if pc.Starting? || pc.Idle? then clock else if pc.Scan? then pc.now else pc.visit.now
  }

  ghost predicate WithinLimits(c: Config, s: State) {
    && s.sem <= c.slots
    && PollTime(s.pc, s.clock) <= s.clock
    && (forall q :: q in s.buckets ==> s.buckets[q].tokens >= 0.0 && s.buckets[q].last <= PollTime(s.pc, s.clock))
    && (forall q :: q in s.queues ==> s.queues[q].id == q && PositiveLimits(s.queues[q]))
    && (forall q :: Holds(s.pc, q) ==> PositiveLimits(q))
    && match s.pc
       case Roomed(v, room) => room >= 1 && s.sem + room <= c.slots
       case Limited(v, limit) => limit >= 1 && Fits(c, s, v, limit)
       case Drain(v, pending) => Fits(c, s, v, |pending|)
       case Slot(v, pending) => Fits(c, s, v, |pending|)
       case Claimed(v, pending) => Fits(c, s, v, |pending|)
       case _ => true
  }

  lemma LimitsStep(c: Config, s: State)
    requires WithinLimits(c, s) && s.pc.Roomed?
    ensures WithinLimits(c, ComputeLimits(s))
  {
    var v := s.pc.visit;
    assert Holds(s.pc, v.queue);
    var b := if v.queue.id in s.buckets then s.buckets[v.queue.id] else Bucket(Capacity(v.queue.rate), v.now);
    RefillRange(b, v.now, v.queue.rate);
    forall q | Holds(ComputeLimits(s).pc, q) ensures PositiveLimits(q) {
      assert Holds(s.pc, q);
    }
  }

  lemma CallKeepsLimits(c: Config, s: State, l: Call)
    requires WithinLimits(c, s) && CallNext(s, l).Some?
    ensures WithinLimits(c, CallNext(s, l).value)
  {
    CallFrame(s, l);
  }

  lemma GoroutineKeepsLimits(c: Config, s: State, g: nat, l: GoStep)
    requires WithinLimits(c, s) && GoNext(c, s, g, l).Some?
    ensures WithinLimits(c, GoNext(c, s, g, l).value)
  {
  }

  /** A snapshot held after a poller step was held before it or is a stored queue. */
  lemma SnapshotsStep(c: Config, s: State, l: PollStep, q: Queue)
    requires PollNext(c, s, l).Some? && Holds(PollNext(c, s, l).value.pc, q)
    ensures if l.BeginPoll? then q.id in s.queues && s.queues[q.id] == q else Holds(s.pc, q)
  {
    match l
    case BeginPoll(listing) => var i :| 0 <= i < |listing| && listing[i] == q;
    case _ => assert Holds(s.pc, q);
  }

  lemma SpawnKeepsLimits(c: Config, s: State, g: nat)
    requires WithinLimits(c, s) && s.pc.Claimed? && s.pc.pending != [] && g !in s.live
    requires forall q :: Holds(SpawnDispatch(s, g).pc, q) ==> PositiveLimits(q)
    ensures WithinLimits(c, SpawnDispatch(s, g))
  {
  }

  lemma ClaimKeepsLimits(c: Config, s: State)
    requires WithinLimits(c, s) && s.pc.Slot? && s.pc.pending != []
    requires forall q :: Holds(ClaimOrSkip(s).pc, q) ==> PositiveLimits(q)
    ensures WithinLimits(c, ClaimOrSkip(s))
  {
  }

  lemma SlotKeepsLimits(c: Config, s: State)
    requires WithinLimits(c, s) && s.pc.Drain?
    requires forall q :: Holds(AcquireSlot(c, s).pc, q) ==> PositiveLimits(q)
    ensures WithinLimits(c, AcquireSlot(c, s))
  {
  }

  lemma PollerKeepsLimits(c: Config, s: State, l: PollStep)
    requires WithinLimits(c, s) && PollNext(c, s, l).Some?
    ensures WithinLimits(c, PollNext(c, s, l).value)
  {
    var s' := PollNext(c, s, l).value;
    forall q | Holds(s'.pc, q) ensures PositiveLimits(q) {
      SnapshotsStep(c, s, l, q);
    }
    match l
    case ReadLimits => LimitsStep(c, s);
    case Spawn(g) => SpawnKeepsLimits(c, s, g);
    case ClaimHead => ClaimKeepsLimits(c, s);
    case TakeSlot => SlotKeepsLimits(c, s);
    case _ =>
  }

  lemma StepKeepsLimits(c: Config, s: State, l: Label)
    requires WithinLimits(c, s) && Next(c, s, l).Some?
    ensures WithinLimits(c, Next(c, s, l).value)
  {
    match l
    case Outside(call) => CallKeepsLimits(c, s, call);
    case Goroutine(g, go) => GoroutineKeepsLimits(c, s, g, go);
    case Poller(poll) => PollerKeepsLimits(c, s, poll);
    case _ =>
  }

  // ---------------------------------------------------------------- whole runs

  lemma BootIsAccounted(c: Config, clock: int)
    ensures Accounted(Boot(clock)) && WithinLimits(c, Boot(clock))
  {
    assert forall q :: Counted(map[], q) == {};
  }

  /** Slot accounting and visit limits hold after every run. */
  lemma {:induction false} RunsStayAccounted(c: Config, s: State, ls: seq<Label>)
    requires Accounted(s) && WithinLimits(c, s) && Exec(c, s, ls).Some?
    ensures Accounted(Exec(c, s, ls).value) && WithinLimits(c, Exec(c, s, ls).value)
    decreases |ls|
  {
    if ls != [] {
      var ls0 := ls[..|ls| - 1];
      RunsStayAccounted(c, s, ls0);
      StepKeepsAccounted(c, Exec(c, s, ls0).value, ls[|ls| - 1]);
      StepKeepsLimits(c, Exec(c, s, ls0).value, ls[|ls| - 1]);
    }
  }

  /** Every reachable state: the semaphore fill is the goroutines plus the poller's slot and never
      exceeds the pool; each queue's counter is its counted goroutines. */
  lemma SlotsAreExact(c: Config, clock: int, ls: seq<Label>)
    requires Exec(c, Boot(clock), ls).Some?
    ensures var s := Exec(c, Boot(clock), ls).value;
            && s.sem == |s.live| + Held(s.pc) <= c.slots
            && forall q :: Inflight(s.inflight, q) == |Counted(s.live, q)|
  {
    BootIsAccounted(c, clock);
    RunsStayAccounted(c, Boot(clock), ls);
  }

  /** In every reachable state in which the poller is about to take a slot for a listed task, it gets
      one: the "semaphore full" return inside the task loop is unreachable. */
  lemma SlotAlwaysFree(c: Config, clock: int, ls: seq<Label>)
    requires Exec(c, Boot(clock), ls).Some?
    ensures var s := Exec(c, Boot(clock), ls).value;
            s.pc.Drain? && s.pc.pending != [] ==>
              Next(c, s, Poller(TakeSlot)) == Some(s.(sem := s.sem + 1, pc := Slot(s.pc.visit, s.pc.pending)))
  {
    BootIsAccounted(c, clock);
    RunsStayAccounted(c, Boot(clock), ls);
  }
}
