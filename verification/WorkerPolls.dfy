/** What a poll does with each queue of its listing: a paused one is skipped, every other one gets its
    visit as long as slots are free, and a visit takes as many tasks as its limits allow. */
module WorkerPolls {
  import opened Options
  import opened TaskRows
  import opened TokenBucket
  import opened WorkerSystem
  import opened WorkerSafety
  import opened WorkerExclusion

  predicate InVisit(pc: Pc) { pc.Roomed? || pc.Limited? || HasPending(pc) }

  // ---------------------------------------------------------------- paused queues

  /** The queue is stored as paused, or not stored. */
  predicate OnHold(s: State, q: QueueId) { q in s.queues ==> s.queues[q].paused }

  /** The call neither resumes the queue nor creates it. */
  predicate LeavesOnHold(l: Label, q: QueueId) {
    l.Outside? ==> l.call != PauseQueue(q, false) && !(l.call.CreateQueue? && l.call.queue == q)
  }

  /** The poll is not on a visit of the queue, and comes to it, if at all, as a paused one. */
  ghost predicate Skips(pc: Pc, q: QueueId) {
    && (InVisit(pc) ==> pc.visit.queue.id != q)
    && (forall v :: Holds(pc, v) && v.id == q ==> v.paused)
  }

  /** The name of a task determines its queue: rows, listed copies and new tasks agree on it. */
  ghost predicate AtHome(s: State, home: TaskId -> QueueId) {
    && (forall id :: id in s.tasks ==> s.tasks[id].queue == home(id))
    && (forall i :: 0 <= i < |PendingOf(s.pc)| ==> PendingOf(s.pc)[i].task.queue == home(PendingOf(s.pc)[i].id))
  }

  predicate CreatesAtHome(l: Label, home: TaskId -> QueueId) {
    l.Outside? && l.call.CreateTask? ==> l.call.queue == home(l.call.id)
  }

  lemma PollStaysAtHome(c: Config, s: State, l: PollStep, home: TaskId -> QueueId)
    requires AtHome(s, home) && PollNext(c, s, l).Some?
    ensures AtHome(PollNext(c, s, l).value, home)
  {
    PollFrame(c, s, l);
    if !l.ListTasks? {
      PendingShrinks(c, s, l);
    }
  }

  lemma PendingShrinks(c: Config, s: State, l: PollStep)
    requires PollNext(c, s, l).Some? && !l.ListTasks?
    ensures var p, p' := PendingOf(s.pc), PendingOf(PollNext(c, s, l).value.pc);
            p' == p || p' == [] || (p != [] && p' == p[1..])
  {
  }

  lemma CallStaysAtHome(s: State, l: Call, home: TaskId -> QueueId)
    requires AtHome(s, home) && CreatesAtHome(Outside(l), home) && CallNext(s, l).Some?
    ensures AtHome(CallNext(s, l).value, home)
  {
    CallFrame(s, l);
    forall id | id in CallNext(s, l).value.tasks ensures CallNext(s, l).value.tasks[id].queue == home(id) {
      CallOnRow(s, l, id);
    }
  }

  lemma StaysAtHome(c: Config, s: State, l: Label, home: TaskId -> QueueId)
    requires AtHome(s, home) && CreatesAtHome(l, home) && Next(c, s, l).Some?
    ensures AtHome(Next(c, s, l).value, home)
  {
    match l
    case Outside(call) => CallStaysAtHome(s, call, home);
    case Goroutine(g, go) => GoFrame(c, s, g, go);
    case Poller(poll) => PollStaysAtHome(c, s, poll, home);
    case _ =>
  }

  lemma StaysOnHold(c: Config, s: State, l: Label, q: QueueId)
    requires OnHold(s, q) && LeavesOnHold(l, q) && Next(c, s, l).Some?
    ensures OnHold(Next(c, s, l).value, q)
  {
    match l
    case Goroutine(g, go) => GoFrame(c, s, g, go);
    case Poller(poll) => PollFrame(c, s, poll);
    case _ =>
  }

  lemma PollSkips(c: Config, s: State, l: PollStep, q: QueueId)
    requires WithinLimits(c, s) && PollNext(c, s, l).Some? && (if l.BeginPoll? then OnHold(s, q) else Skips(s.pc, q))
    ensures Skips(PollNext(c, s, l).value.pc, q)
  {
    var s' := PollNext(c, s, l).value;
    forall v | Holds(s'.pc, v) && v.id == q ensures v.paused {
      SnapshotsStep(c, s, l, v);
    }
    if l == NextQueue && s'.pc.Roomed? {
      assert Holds(s.pc, s.pc.rest[0]);
    }
  }

  lemma StepSkips(c: Config, s: State, l: Label, q: QueueId)
    requires WithinLimits(c, s) && Next(c, s, l).Some?
    requires if l.Poller? && l.poll.BeginPoll? then OnHold(s, q) else Skips(s.pc, q)
    ensures Skips(Next(c, s, l).value.pc, q)
  {
    match l
    case Outside(call) => CallFrame(s, call);
    case Goroutine(g, go) => GoFrame(c, s, g, go);
    case Poller(poll) => PollSkips(c, s, poll, q);
    case _ =>
  }

  /** The step claims a task whose row belongs to the queue. */
  ghost predicate ClaimsOf(s: State, l: Label, q: QueueId) {
    l == Poller(ClaimHead) && s.pc.Slot? && s.pc.pending != [] && Claimable(s) && s.tasks[s.pc.pending[0].id].queue == q
  }

  /** A run from s on during which the queue stays paused or unstored. */
  ghost predicate HeldRun(ls: seq<Label>, q: QueueId, home: TaskId -> QueueId) {
    forall i :: 0 <= i < |ls| ==> LeavesOnHold(ls[i], q) && CreatesAtHome(ls[i], home)
  }

  predicate Polled(ls: seq<Label>) { exists i :: 0 <= i < |ls| && ls[i].Poller? && ls[i].poll.BeginPoll? }

  lemma {:induction false} RunStaysOnHold(c: Config, s: State, ls: seq<Label>, q: QueueId, home: TaskId -> QueueId)
    requires OnHold(s, q) && AtHome(s, home) && Exec(c, s, ls).Some? && HeldRun(ls, q, home)
    ensures OnHold(Exec(c, s, ls).value, q) && AtHome(Exec(c, s, ls).value, home)
    decreases |ls|
  {
    if ls != [] {
      var ls0, l := ls[..|ls| - 1], ls[|ls| - 1];
      RunStaysOnHold(c, s, ls0, q, home);
      StaysOnHold(c, Exec(c, s, ls0).value, l, q);
      StaysAtHome(c, Exec(c, s, ls0).value, l, home);
    }
  }

  lemma {:induction false} HeldRunSkips(c: Config, s: State, ls: seq<Label>, q: QueueId, home: TaskId -> QueueId)
    requires Accounted(s) && WithinLimits(c, s) && OnHold(s, q) && AtHome(s, home)
    requires Exec(c, s, ls).Some? && HeldRun(ls, q, home) && (Polled(ls) || Skips(s.pc, q))
    ensures Skips(Exec(c, s, ls).value.pc, q)
    decreases |ls|
  {
    if ls != [] {
      var ls0, l := ls[..|ls| - 1], ls[|ls| - 1];
      RunsStayAccounted(c, s, ls0);
      RunStaysOnHold(c, s, ls0, q, home);
      if !(l.Poller? && l.poll.BeginPoll?) {
        PolledBefore(ls);
        HeldRunSkips(c, s, ls0, q, home);
      }
      StepSkips(c, Exec(c, s, ls0).value, l, q);
    }
  }

  lemma PolledBefore(ls: seq<Label>)
    requires ls != [] && !(ls[|ls| - 1].Poller? && ls[|ls| - 1].poll.BeginPoll?)
    ensures Polled(ls) ==> Polled(ls[..|ls| - 1])
  {
    if Polled(ls) {
      var i :| 0 <= i < |ls| && ls[i].Poller? && ls[i].poll.BeginPoll?;
      assert ls[..|ls| - 1][i] == ls[i];
    }
  }

  lemma {:induction false} RunsStayAtHome(c: Config, clock: int, ls: seq<Label>, home: TaskId -> QueueId)
    requires Exec(c, Boot(clock), ls).Some? && forall i :: 0 <= i < |ls| ==> CreatesAtHome(ls[i], home)
    ensures AtHome(Exec(c, Boot(clock), ls).value, home)
    decreases |ls|
  {
    if ls != [] {
      RunsStayAtHome(c, clock, ls[..|ls| - 1], home);
      StaysAtHome(c, Exec(c, Boot(clock), ls[..|ls| - 1]).value, ls[|ls| - 1], home);
    }
  }

  /** With the queue on hold and skipped by the poll, no step claims a task of it. */
  lemma SkippedIsNotClaimed(s: State, l: Label, q: QueueId, home: TaskId -> QueueId)
    requires Accounted(s) && AtHome(s, home) && Skips(s.pc, q)
    ensures !ClaimsOf(s, l, q)
  {
    HeadOfPending(s);
  }

  lemma HeadOfPending(s: State)
    ensures HasPending(s.pc) && s.pc.pending != [] ==> PendingOf(s.pc)[0] == s.pc.pending[0]
  {
  }

  /** What is needed of the state in which the queue is found paused. */
  ghost predicate MayHold(c: Config, s: State, q: QueueId, home: TaskId -> QueueId) {
    Accounted(s) && WithinLimits(c, s) && AtHome(s, home) && OnHold(s, q)
  }

  lemma ReachableMayHold(c: Config, clock: int, before: seq<Label>, q: QueueId, home: TaskId -> QueueId)
    requires Exec(c, Boot(clock), before).Some? && forall i :: 0 <= i < |before| ==> CreatesAtHome(before[i], home)
    requires OnHold(Exec(c, Boot(clock), before).value, q)
    ensures MayHold(c, Exec(c, Boot(clock), before).value, q, home)
  {
    BootIsAccounted(c, clock);
    RunsStayAccounted(c, Boot(clock), before);
    RunsStayAtHome(c, clock, before, home);
  }

  /** From a reachable state with the queue paused, and as long as nobody resumes or re-creates it: a
      poll that begins later (or one that was not under way) claims no task of the queue. */
  lemma PausedQueueIsNotServed(c: Config, s: State, ls: seq<Label>, l: Label, q: QueueId, home: TaskId -> QueueId)
    requires MayHold(c, s, q, home) && Exec(c, s, ls).Some? && HeldRun(ls, q, home)
    requires Polled(ls) || s.pc.Idle? || s.pc.Starting?
    ensures !ClaimsOf(Exec(c, s, ls).value, l, q)
  {
    HeldRunSkips(c, s, ls, q, home);
    RunStaysOnHold(c, s, ls, q, home);
    RunsStayAccounted(c, s, ls);
    SkippedIsNotClaimed(Exec(c, s, ls).value, l, q, home);
  }

  lemma {:induction false} PollGoesOnSkipping(c: Config, s: State, ls: seq<Label>, q: QueueId, home: TaskId -> QueueId)
    requires Accounted(s) && WithinLimits(c, s) && AtHome(s, home) && Skips(s.pc, q) && Exec(c, s, ls).Some?
    requires forall i :: 0 <= i < |ls| ==> SamePoll(ls[i]) && CreatesAtHome(ls[i], home)
    ensures Skips(Exec(c, s, ls).value.pc, q) && AtHome(Exec(c, s, ls).value, home)
    decreases |ls|
  {
    if ls != [] {
      var ls0, l := ls[..|ls| - 1], ls[|ls| - 1];
      PollGoesOnSkipping(c, s, ls0, q, home);
      RunsStayAccounted(c, s, ls0);
      StepSkips(c, Exec(c, s, ls0).value, l, q);
      StaysAtHome(c, Exec(c, s, ls0).value, l, home);
    }
  }

  /** A poll that lists the queue as paused claims no task of it, even if the queue is resumed meanwhile. */
  lemma PausedWhenListed(c: Config, s: State, listing: seq<Queue>, ls: seq<Label>, l: Label, q: QueueId,
                         home: TaskId -> QueueId)
    requires MayHold(c, s, q, home) && Next(c, s, Poller(BeginPoll(listing))).Some?
    requires Exec(c, Next(c, s, Poller(BeginPoll(listing))).value, ls).Some?
    requires forall i :: 0 <= i < |ls| ==> SamePoll(ls[i]) && CreatesAtHome(ls[i], home)
    ensures !ClaimsOf(Exec(c, Next(c, s, Poller(BeginPoll(listing))).value, ls).value, l, q)
  {
    var begin := Poller(BeginPoll(listing));
    var s1 := Next(c, s, begin).value;
    StepSkips(c, s, begin, q);
    StaysAtHome(c, s, begin, home);
    StepKeepsAccounted(c, s, begin);
    StepKeepsLimits(c, s, begin);
    PollGoesOnSkipping(c, s1, ls, q, home);
    RunsStayAccounted(c, s1, ls);
    SkippedIsNotClaimed(Exec(c, s1, ls).value, l, q, home);
  }

  // ---------------------------------------------------------------- every other queue

  /** The step reads the limits of the queue: its visit. */
  ghost predicate Reads(s: State, l: Label, q: Queue) {
    l == Poller(ReadLimits) && s.pc.Roomed? && s.pc.visit.queue == q
  }

  /** The step ends the poll because no slot is free for an unpaused queue. */
  ghost predicate FoundFull(c: Config, s: State, l: Label) {
    l == Poller(NextQueue) && s.pc.Scan? && s.pc.rest != [] && !s.pc.rest[0].paused && s.sem >= c.slots
  }

  ghost predicate WasRead(c: Config, s: State, ls: seq<Label>, q: Queue)
    requires Exec(c, s, ls).Some?
    decreases |ls|
  {
    ls != [] && (
      var ls0 := ls[..|ls| - 1];
      WasRead(c, s, ls0, q) || Reads(Exec(c, s, ls0).value, ls[|ls| - 1], q))
  }

  ghost predicate WasFull(c: Config, s: State, ls: seq<Label>)
    requires Exec(c, s, ls).Some?
    decreases |ls|
  {
    ls != [] && (
      var ls0 := ls[..|ls| - 1];
      WasFull(c, s, ls0) || FoundFull(c, Exec(c, s, ls0).value, ls[|ls| - 1]))
  }

  /** The first n queues of the listing are paused or have had their visit. */
  ghost predicate Handled(c: Config, s: State, ls: seq<Label>, listing: seq<Queue>, n: int)
    requires Exec(c, s, ls).Some? && n <= |listing|
  {
    forall i :: 0 <= i < n ==> listing[i].paused || WasRead(c, s, ls, listing[i])
  }

  /** How many queues of the listing the poll has passed, with the one it is about to visit not counted. */
  function Passed(pc: Pc, listing: seq<Queue>): int {
    if pc.Idle? || pc.Starting? then |listing|
    else if pc.Scan? then |listing| - |pc.rest|
    else if pc.Roomed? then |listing| - |pc.visit.rest| - 1
    else |listing| - |pc.visit.rest|
  }

  /** The poll works through the rest of its listing. */
  predicate WorksThrough(pc: Pc, listing: seq<Queue>) {
    var n := Passed(pc, listing);
    && 0 <= n <= |listing|
    && (pc.Scan? ==> pc.rest == listing[n..])
    && (pc.Roomed? ==> n < |listing| && pc.visit.queue == listing[n] && pc.visit.rest == listing[n + 1..])
    && (InVisit(pc) && !pc.Roomed? ==> pc.visit.rest == listing[n..])
  }

  /** A step of the same poll, or of somebody else. */
  predicate SamePoll(l: Label) { !l.Crash? && !l.Recover? && (l.Poller? ==> !l.poll.BeginPoll?) }

  lemma PollStepHandles(c: Config, s: State, l: PollStep, listing: seq<Queue>)
    requires WithinLimits(c, s) && PollNext(c, s, l).Some? && !l.BeginPoll? && WorksThrough(s.pc, listing)
    requires !FoundFull(c, s, Poller(l))
    ensures WorksThrough(PollNext(c, s, l).value.pc, listing)
    ensures var n, n' := Passed(s.pc, listing), Passed(PollNext(c, s, l).value.pc, listing);
            n' == n || (n' == n + 1 <= |listing| && (listing[n].paused || Reads(s, Poller(l), listing[n])))
  {
    match l
    case NextQueue => NextHandles(c, s, listing);
    case ReadLimits =>
    case _ => SameRest(c, s, l);
  }

  lemma NextHandles(c: Config, s: State, listing: seq<Queue>)
    requires s.pc.Scan? && WorksThrough(s.pc, listing) && !FoundFull(c, s, Poller(NextQueue))
    ensures WorksThrough(VisitQueue(c, s), listing)
    ensures var n, n' := Passed(s.pc, listing), Passed(VisitQueue(c, s), listing);
            n' == n || (n' == n + 1 <= |listing| && listing[n].paused)
  {
  }

  /** The steps within a visit keep its place in the listing. */
  lemma SameRest(c: Config, s: State, l: PollStep)
    requires WithinLimits(c, s) && PollNext(c, s, l).Some? && !l.BeginPoll? && !l.NextQueue? && !l.ReadLimits?
    ensures var pc, pc' := s.pc, PollNext(c, s, l).value.pc;
            && InVisit(pc) && !pc.Roomed?
            && ((pc'.Scan? && pc'.rest == pc.visit.rest) || (InVisit(pc') && !pc'.Roomed? && pc'.visit == pc.visit))
  {
  }

  lemma StepHandles(c: Config, s: State, l: Label, listing: seq<Queue>)
    requires WithinLimits(c, s) && Next(c, s, l).Some? && SamePoll(l) && WorksThrough(s.pc, listing)
    requires !FoundFull(c, s, l)
    ensures WorksThrough(Next(c, s, l).value.pc, listing)
    ensures var n, n' := Passed(s.pc, listing), Passed(Next(c, s, l).value.pc, listing);
            n' == n || (n' == n + 1 <= |listing| && (listing[n].paused || Reads(s, l, listing[n])))
  {
    match l
    case Outside(call) => CallFrame(s, call);
    case Goroutine(g, go) => GoFrame(c, s, g, go);
    case Poller(poll) => PollStepHandles(c, s, poll, listing);
  }

  /** One step of the poll: it handles at most one more queue of the listing. */
  lemma HandlesMore(c: Config, s: State, ls: seq<Label>, listing: seq<Queue>, n: int)
    requires ls != [] && Exec(c, s, ls).Some? && 0 <= n <= |listing| && Handled(c, s, ls[..|ls| - 1], listing, n)
    ensures Handled(c, s, ls, listing, n)
    ensures var s0 := Exec(c, s, ls[..|ls| - 1]).value;
            n < |listing| && (listing[n].paused || Reads(s0, ls[|ls| - 1], listing[n])) ==>
              Handled(c, s, ls, listing, n + 1)
  {
  }

  lemma {:induction false} PollHandles(c: Config, s: State, ls: seq<Label>, listing: seq<Queue>)
    requires Accounted(s) && WithinLimits(c, s) && s.pc == Scan(s.clock, listing)
    requires Exec(c, s, ls).Some? && forall i :: 0 <= i < |ls| ==> SamePoll(ls[i])
    ensures var s' := Exec(c, s, ls).value;
            WasFull(c, s, ls)
            || (WorksThrough(s'.pc, listing) && Handled(c, s, ls, listing, Passed(s'.pc, listing)))
    decreases |ls|
  {
    if ls != [] {
      var ls0, l := ls[..|ls| - 1], ls[|ls| - 1];
      PollHandles(c, s, ls0, listing);
      RunsStayAccounted(c, s, ls0);
      if !WasFull(c, s, ls) {
        var s0 := Exec(c, s, ls0).value;
        StepHandles(c, s0, l, listing);
        HandlesMore(c, s, ls, listing, Passed(s0.pc, listing));
      }
    }
  }

  /** A poll from its listing to its end visits every queue of the listing that was not paused, unless
      it found the worker pool full. */
  lemma EveryQueueGetsItsVisit(c: Config, clock: int, before: seq<Label>, listing: seq<Queue>, ls: seq<Label>, q: Queue)
    requires Exec(c, Boot(clock), before).Some?
    requires Next(c, Exec(c, Boot(clock), before).value, Poller(BeginPoll(listing))).Some?
    requires var s := Next(c, Exec(c, Boot(clock), before).value, Poller(BeginPoll(listing))).value;
             && Exec(c, s, ls).Some? && (forall i :: 0 <= i < |ls| ==> SamePoll(ls[i])) && Exec(c, s, ls).value.pc.Idle?
    requires q.id in Exec(c, Boot(clock), before).value.queues && q == Exec(c, Boot(clock), before).value.queues[q.id]
    ensures var s := Next(c, Exec(c, Boot(clock), before).value, Poller(BeginPoll(listing))).value;
            q.paused || WasRead(c, s, ls, q) || WasFull(c, s, ls)
  {
    var s0 := Exec(c, Boot(clock), before).value;
    var s := Next(c, s0, Poller(BeginPoll(listing))).value;
    BootIsAccounted(c, clock);
    RunsStayAccounted(c, Boot(clock), before);
    StepKeepsAccounted(c, s0, Poller(BeginPoll(listing)));
    StepKeepsLimits(c, s0, Poller(BeginPoll(listing)));
    PollHandles(c, s, ls, listing);
    var i :| 0 <= i < |listing| && listing[i].id == q.id;
    assert listing[i] == q;
  }

  // ---------------------------------------------------------------- one visit

  /** The visit may take k tasks: slots, concurrency and tokens suffice. */
  predicate MayTake(s: State, v: Visit, room: int, k: int) {
    && k <= room
    && (v.queue.concurrency > 0 ==> Inflight(s.inflight, v.queue.id) + k <= v.queue.concurrency)
    && (v.queue.rate > 0 ==> k as real <= TokensAt(s.buckets, v))
  }

  /** The tokens at the time of the poll: a new bucket is full, an old one has earned rate per second
      since its last refill, up to a full bucket. */
  function TokensAt(buckets: map<QueueId, Bucket>, v: Visit): real
    requires v.queue.rate > 0
  {
    var full := v.queue.rate as real;
    if v.queue.id !in buckets then full
    else
      var b := buckets[v.queue.id];
      var grown := b.tokens + full * (v.now - b.last) as real / 1000.0;
      if grown <= full then grown else full
  }

  lemma RefilledIs(buckets: map<QueueId, Bucket>, v: Visit)
    requires v.queue.rate > 0
    ensures Refilled(buckets, v) == Bucket(TokensAt(buckets, v), v.now)
  {
    var b := if v.queue.id in buckets then buckets[v.queue.id] else Bucket(v.queue.rate as real, v.now);
    RefillInFigures(b, v.now, v.queue.rate);
  }

  /** A visit that starts is offered exactly the free slots, at the clock reading of its poll. */
  lemma RoomIsFreeSlots(c: Config, s: State)
    requires PollNext(c, s, NextQueue).Some? && PollNext(c, s, NextQueue).value.pc.Roomed?
    ensures var pc := PollNext(c, s, NextQueue).value.pc;
            pc.room == c.slots - s.sem >= 1 && pc.visit.now == s.pc.now
  {
  }

  /** The limit of a visit is the largest number it may take; a visit that may take none is passed over. */
  lemma LimitIsLargest(c: Config, s: State)
    requires WithinLimits(c, s) && s.pc.Roomed?
    ensures var v, room, s' := s.pc.visit, s.pc.room, ComputeLimits(s);
            && (s'.pc.Limited? ==>
                  s'.pc.visit == v && s'.pc.limit >= 1
                  && MayTake(s, v, room, s'.pc.limit) && !MayTake(s, v, room, s'.pc.limit + 1))
            && (!s'.pc.Limited? ==> s'.pc == Scan(v.now, v.rest) && !MayTake(s, v, room, 1))
  {
    var v := s.pc.visit;
    assert Holds(s.pc, v.queue);
    RefilledIs(s.buckets, v);
    LimitsStep(c, s);
    var b := if v.queue.id in s.buckets then s.buckets[v.queue.id] else Bucket(Capacity(v.queue.rate), v.now);
    RefillRange(b, v.now, v.queue.rate);
  }

  /** The clock when the last poll of the run listed the queues. */
  ghost function BeganAt(c: Config, s: State, ls: seq<Label>): int
    requires Exec(c, s, ls).Some?
    decreases |ls|
  {
    if ls == [] then s.clock else
      var ls0, l := ls[..|ls| - 1], ls[|ls| - 1];
      if l.Poller? && l.poll.BeginPoll? then Exec(c, s, ls0).value.clock else BeganAt(c, s, ls0)
  }

  lemma ClockIsKept(c: Config, s: State, l: Label)
    requires Next(c, s, l).Some? && !(l.Poller? && l.poll.BeginPoll?)
    ensures var pc, pc' := s.pc, Next(c, s, l).value.pc;
            !pc'.Starting? && !pc'.Idle? ==> !pc.Starting? && !pc.Idle? && PollTime(pc', 0) == PollTime(pc, 0)
  {
    match l
    case Outside(call) => CallFrame(s, call);
    case Goroutine(g, go) => GoFrame(c, s, g, go);
    case _ =>
  }

  /** All visits of a poll use its one clock reading. */
  lemma {:induction false} PollReadsTheClock(c: Config, clock: int, ls: seq<Label>)
    requires Exec(c, Boot(clock), ls).Some?
    ensures var pc := Exec(c, Boot(clock), ls).value.pc;
            !pc.Starting? && !pc.Idle? ==> PollTime(pc, 0) == BeganAt(c, Boot(clock), ls)
    decreases |ls|
  {
    if ls != [] {
      var ls0, l := ls[..|ls| - 1], ls[|ls| - 1];
      PollReadsTheClock(c, clock, ls0);
      if !(l.Poller? && l.poll.BeginPoll?) {
        ClockIsKept(c, Exec(c, Boot(clock), ls0).value, l);
      }
    }
  }
}
