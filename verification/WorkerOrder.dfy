/** Order within a queue: how many due tasks stand ahead of an overdue one, what can raise that
    number, and how every visit of the poller lowers it. */
module WorkerOrder {
  import opened Options
  import opened TaskRows
  import opened WorkerSystem
  import opened WorkerSafety
  import opened WorkerExclusion
  import opened WorkerIdentity
  import opened WorkerRetries
  import Backoffs

  /** The PENDING tasks of the same queue that sort before row t. */
  ghost function Ahead(rows: Rows, t: Task): set<TaskId> {
    set u | u in rows && rows[u].queue == t.queue && rows[u].status == Pending && Before(rows[u], t)
  }

  /** The task waits: its row is t, PENDING and strictly past due. */
  ghost predicate Overdue(s: State, id: TaskId, t: Task) {
    id in s.tasks && s.tasks[id] == t && t.status == Pending && t.nextAttempt < s.clock
  }

  /** No earlier dispatch of that name is still to write its outcome. */
  ghost predicate NoRequest(s: State, id: TaskId) { forall g :: !Requests(s, g, id) }

  /** Neither queue-jumping event: creating a task of the queue with an earlier schedule time, or
      run-now on the task itself; and no restart. */
  ghost predicate Orderly(l: Label, id: TaskId, t: Task) {
    && !l.Recover?
    && (l.Outside? ==> l.call != RunTaskNow(id))
    && (l.Outside? && l.call.CreateTask? && l.call.queue == t.queue ==> l.call.at >= t.nextAttempt)
  }

  /** A step other than those leaves the task waiting, unless it claims or removes it, and puts no
      other task ahead of it. */
  lemma AheadOnlyShrinks(c: Config, s: State, l: Label, id: TaskId, t: Task)
    requires Overdue(s, id, t) && NoRequest(s, id) && Next(c, s, l).Some? && Orderly(l, id, t)
    requires 0 <= c.initialBackoff && 0 <= c.maxBackoff
    ensures Ahead(Next(c, s, l).value.tasks, t) <= Ahead(s.tasks, t)
    ensures Overdue(Next(c, s, l).value, id, t) || id !in Next(c, s, l).value.tasks || ClaimsTask(s, l, id)
  {
    match l
    case Outside(call) => CallOrder(s, call, id, t);
    case Crash =>
    case Goroutine(g, go) => OutcomeOrder(c, s, g, go, id, t);
    case Poller(poll) => PollFrame(c, s, poll);
  }

  lemma CallOrder(s: State, l: Call, id: TaskId, t: Task)
    requires Overdue(s, id, t) && CallNext(s, l).Some? && Orderly(Outside(l), id, t)
    ensures Ahead(CallNext(s, l).value.tasks, t) <= Ahead(s.tasks, t)
    ensures Overdue(CallNext(s, l).value, id, t) || id !in CallNext(s, l).value.tasks
  {
    CallFrame(s, l);
    var s' := CallNext(s, l).value;
    forall u | u in Ahead(s'.tasks, t) ensures u in Ahead(s.tasks, t) {
      CallOnRow(s, l, u);
      assert l.CreateTask? ==> s.tasks[id].rowid < l.rowid;
    }
    if id in s'.tasks {
      CallOnRow(s, l, id);
    }
  }

  lemma OutcomeOrder(c: Config, s: State, g: nat, l: GoStep, id: TaskId, t: Task)
    requires Overdue(s, id, t) && NoRequest(s, id) && GoNext(c, s, g, l).Some?
    requires 0 <= c.initialBackoff && 0 <= c.maxBackoff
    ensures Ahead(GoNext(c, s, g, l).value.tasks, t) <= Ahead(s.tasks, t)
    ensures Overdue(GoNext(c, s, g, l).value, id, t)
  {
    GoFrame(c, s, g, l);
    var s', d := GoNext(c, s, g, l).value, s.live[g];
    assert !Requests(s, g, id);
    if d.phase == Requesting {
      forall u | u in Ahead(s'.tasks, t) ensures u in Ahead(s.tasks, t) {
        if d.task.retries >= 0 {
          Backoffs.TaskDelayClosedForm(c.initialBackoff, c.maxBackoff, d.task.retries + 1);
        }
      }
    }
  }

  /** In every run that respects the proviso for the one name, a waiting task has no request out. */
  lemma WaitingHasNoRequest(c: Config, clock: int, ls: seq<Label>, id: TaskId, t: Task)
    requires CarefulRun(c, Boot(clock), ls, id)
    ensures Exec(c, Boot(clock), ls).Some?
    ensures var s := Exec(c, Boot(clock), ls).value; Overdue(s, id, t) ==> NoRequest(s, id) && !JustClaimed(s, id)
  {
    RunsStayExclusive(c, Boot(clock), ls, id);
  }

  // ---------------------------------------------------------------- visits

  /** A possible run of orderly steps within one process life. */
  ghost predicate OrderlyRun(c: Config, s: State, ls: seq<Label>, id: TaskId, t: Task) {
    Exec(c, s, ls).Some? && forall i :: 0 <= i < |ls| ==> Orderly(ls[i], id, t) && !ls[i].Crash?
  }

  /** Some step of the run claims the task, or some state of it is without the task. */
  ghost predicate ClaimedOrGone(c: Config, s: State, ls: seq<Label>, id: TaskId)
    requires Exec(c, s, ls).Some?
    decreases |ls|
  {
    var s' := Exec(c, s, ls).value;
    || id !in s'.tasks
    || (ls != [] && (
          var ls0 := ls[..|ls| - 1];
          ClaimsTask(Exec(c, s, ls0).value, ls[|ls| - 1], id) || ClaimedOrGone(c, s, ls0, id)))
  }

  ghost function Ids(p: seq<Listed>): set<TaskId> { set i | 0 <= i < |p| :: p[i].id }

  predicate Distinct(p: seq<Listed>) { forall i, j :: 0 <= i < j < |p| ==> p[i].id != p[j].id }

  /** The task waits, and is not being dispatched. */
  ghost predicate Waiting(s: State, id: TaskId, t: Task) {
    Overdue(s, id, t) && NoRequest(s, id) && !JustClaimed(s, id)
  }

  lemma WaitingStep(c: Config, s: State, l: Label, id: TaskId, t: Task)
    requires Waiting(s, id, t) && Next(c, s, l).Some? && Orderly(l, id, t) && !l.Crash?
    requires 0 <= c.initialBackoff && 0 <= c.maxBackoff
    requires !ClaimsTask(s, l, id) && id in Next(c, s, l).value.tasks
    ensures Waiting(Next(c, s, l).value, id, t) && Ahead(Next(c, s, l).value.tasks, t) <= Ahead(s.tasks, t)
  {
    AheadOnlyShrinks(c, s, l, id, t);
    match l
    case Outside(call) =>
      CallFrame(s, call);
      assert forall h :: Requests(Next(c, s, l).value, h, id) <==> Requests(s, h, id);
    case Goroutine(g, go) =>
      GoFrame(c, s, g, go);
      assert forall h :: Requests(Next(c, s, l).value, h, id) ==> Requests(s, h, id);
    case Poller(poll) => PollerLeavesWaiting(c, s, poll, id);
  }

  lemma PollerLeavesWaiting(c: Config, s: State, l: PollStep, id: TaskId)
    requires NoRequest(s, id) && !JustClaimed(s, id) && PollNext(c, s, l).Some? && !ClaimsTask(s, Poller(l), id)
    ensures NoRequest(PollNext(c, s, l).value, id) && !JustClaimed(PollNext(c, s, l).value, id)
  {
    PollFrame(c, s, l);
    forall h ensures !Requests(PollNext(c, s, l).value, h, id) {
      assert !Requests(s, h, id);
    }
  }

  /** A visit that may take `limit` tasks, with at most `bound` tasks ahead of the waiting one when it
      began: it will still come to the task, or every entry it has dealt with was ahead and is so no more. */
  ghost predicate Serving(s: State, id: TaskId, t: Task, limit: int, bound: int) {
    var rest := ToClaim(s.pc);
    id in Ids(rest) || (Distinct(rest) && |Ahead(s.tasks, t) + Ids(rest)| + limit - |rest| <= bound)
  }

  lemma Smaller(a: set<TaskId>, b: set<TaskId>)
    requires a <= b
    ensures |a| <= |b|
  {
    assert b == a + (b - a);
  }

  /** Steps that deal with no entry. */
  lemma ShrinkServes(s: State, s': State, id: TaskId, t: Task, limit: int, bound: int)
    requires Serving(s, id, t, limit, bound) && ToClaim(s'.pc) == ToClaim(s.pc)
    requires Ahead(s'.tasks, t) <= Ahead(s.tasks, t)
    ensures Serving(s', id, t, limit, bound)
  {
    Smaller(Ahead(s'.tasks, t) + Ids(ToClaim(s'.pc)), Ahead(s.tasks, t) + Ids(ToClaim(s.pc)));
  }

  lemma IdsOfTail(p: seq<Listed>)
    requires p != []
    ensures Ids(p) == {p[0].id} + Ids(p[1..]) && (Distinct(p) ==> Distinct(p[1..]) && p[0].id !in Ids(p[1..]))
  {
    forall u ensures u in Ids(p) <==> u == p[0].id || u in Ids(p[1..]) {
      if u in Ids(p) {
        var i :| 0 <= i < |p| && p[i].id == u;
        assert i > 0 ==> p[1..][i - 1].id == u;
      }
      if u in Ids(p[1..]) {
        var i :| 0 <= i < |p[1..]| && p[1..][i].id == u;
        assert p[i + 1].id == u;
      }
    }
    assert forall i :: 0 <= i < |p| - 1 ==> p[1..][i] == p[i + 1];
  }

  /** Claimed or not, the head of the listing is not PENDING afterwards. */
  lemma HeadLeavesAhead(s: State, t: Task)
    requires s.pc.Slot? && s.pc.pending != []
    ensures s.pc.pending[0].id !in Ahead(ClaimOrSkip(s).tasks, t)
    ensures ToClaim(s.pc) == s.pc.pending && ToClaim(ClaimOrSkip(s).pc) == s.pc.pending[1..]
  {
  }

  lemma ClaimServes(s: State, id: TaskId, t: Task, limit: int, bound: int)
    requires s.pc.Slot? && s.pc.pending != [] && s.pc.pending[0].id != id && Serving(s, id, t, limit, bound)
    requires Ahead(ClaimOrSkip(s).tasks, t) <= Ahead(s.tasks, t)
    ensures Serving(ClaimOrSkip(s), id, t, limit, bound)
  {
    HeadLeavesAhead(s, t);
    IdsOfTail(s.pc.pending);
    HeadDealtWith(Ahead(ClaimOrSkip(s).tasks, t), Ahead(s.tasks, t), s.pc.pending);
  }

  lemma HeadDealtWith(after: set<TaskId>, before: set<TaskId>, p: seq<Listed>)
    requires p != [] && after <= before && p[0].id !in after
    ensures Distinct(p) ==> |after + Ids(p[1..])| + 1 <= |before + Ids(p)|
  {
    if Distinct(p) {
      IdsOfTail(p);
      var rest := after + Ids(p[1..]);
      Smaller(rest + {p[0].id}, before + Ids(p));
      assert |rest + {p[0].id}| == |rest| + 1;
    }
  }

  lemma ServingStep(c: Config, s: State, l: Label, id: TaskId, t: Task, limit: int, bound: int)
    requires WithinLimits(c, s) && Overdue(s, id, t) && Serving(s, id, t, limit, bound)
    requires Next(c, s, l).Some? && !l.Crash? && !l.Recover? && OneVisit([l]) && !ClaimsTask(s, l, id)
    requires Ahead(Next(c, s, l).value.tasks, t) <= Ahead(s.tasks, t)
    ensures Serving(Next(c, s, l).value, id, t, limit, bound)
  {
    assert [l][0] == l;
    if l == Poller(ClaimHead) {
      ClaimServes(s, id, t, limit, bound);
    } else {
      KeepsToClaim(c, s, l);
      ShrinkServes(s, Next(c, s, l).value, id, t, limit, bound);
    }
  }

  lemma KeepsToClaim(c: Config, s: State, l: Label)
    requires WithinLimits(c, s) && Next(c, s, l).Some? && (l.Poller? ==> l.poll.TakeSlot? || l.poll.Spawn?)
    requires !l.Crash? && !l.Recover?
    ensures ToClaim(Next(c, s, l).value.pc) == ToClaim(s.pc)
  {
    match l
    case Outside(call) => CallFrame(s, call);
    case Goroutine(g, go) => GoFrame(c, s, g, go);
    case Poller(poll) =>
  }

  /** No visit of another queue, and no new listing, inside the run. */
  ghost predicate OneVisit(ls: seq<Label>) {
    forall i :: 0 <= i < |ls| ==> ls[i].Poller? ==>
      ls[i].poll.TakeSlot? || ls[i].poll.ClaimHead? || ls[i].poll.Spawn?
  }

  lemma {:induction false} DistinctIds(p: seq<Listed>)
    requires Distinct(p)
    ensures |Ids(p)| == |p|
  {
    if p != [] {
      var p0, last := p[..|p| - 1], p[|p| - 1].id;
      DistinctIds(p0);
      assert last !in Ids(p0);
      forall u ensures u in Ids(p) <==> u in Ids(p0) + {last} {
        if u in Ids(p0) {
          var i :| 0 <= i < |p0| && p0[i].id == u;
          assert p[i].id == u;
        }
        if u in Ids(p) && u != last {
          var i :| 0 <= i < |p| && p[i].id == u;
          assert p0[i].id == u;
        }
      }
      assert Ids(p) == Ids(p0) + {last};
    } else {
      assert Ids(p) == {};
    }
  }

  /** An overdue task that a listing of its queue left out: the listing is full and all of it
      stands ahead of the task. */
  lemma LeftOutOfListing(s: State, p: seq<Listed>, id: TaskId, t: Task)
    requires s.pc.Limited? && s.pc.visit.queue.id == t.queue && Overdue(s, id, t) && id !in Ids(p)
    requires IsListing(s.tasks, t.queue, s.clock, s.pc.limit, p)
    ensures Distinct(p) && |p| == |Ids(p)| == s.pc.limit && Ids(p) <= Ahead(s.tasks, t)
  {
    assert !Lists(p, id);
    forall i, j | 0 <= i < j < |p| ensures p[i].id != p[j].id {
      assert Before(p[i].task, p[j].task);
    }
    DistinctIds(p);
  }

  /** A listing of the queue begins a visit that serves the task. */
  lemma ListingServes(s: State, p: seq<Listed>, id: TaskId, t: Task)
    requires s.pc.Limited? && s.pc.visit.queue.id == t.queue && Overdue(s, id, t)
    requires IsListing(s.tasks, t.queue, s.clock, s.pc.limit, p)
    ensures Serving(s.(pc := Drain(s.pc.visit, p)), id, t, s.pc.limit, |Ahead(s.tasks, t)|)
  {
    if id !in Ids(p) {
      LeftOutOfListing(s, p, id, t);
      assert Ahead(s.tasks, t) + Ids(p) == Ahead(s.tasks, t);
    }
  }

  /** When nothing is left to claim, the visit has shortened the line by its limit. */
  lemma ServedInFull(s: State, id: TaskId, t: Task, limit: int, bound: int)
    requires Serving(s, id, t, limit, bound) && ToClaim(s.pc) == []
    ensures |Ahead(s.tasks, t)| + limit <= bound
  {
    assert Ids([]) == {};
    assert Ahead(s.tasks, t) + {} == Ahead(s.tasks, t);
  }

  // ---------------------------------------------------------------- whole runs

  /** The step lists tasks of the queue, and so begins the part of a visit that claims. */
  ghost predicate Begins(s: State, l: Label, q: QueueId) {
    l.Poller? && l.poll.ListTasks? && s.pc.Limited? && s.pc.visit.queue.id == q
  }

  /** The step ends a visit: its listing is worked through. */
  ghost predicate Ends(s: State, l: Label) { l == Poller(TakeSlot) && s.pc.Drain? && s.pc.pending == [] }

  /** The limit of the visit of the queue that is under way, `first` at the start; zero if there is none. */
  ghost function UnderWay(c: Config, s: State, ls: seq<Label>, q: QueueId, first: int): int
    requires Exec(c, s, ls).Some?
    decreases |ls|
  {
    if ls == [] then first else
      var ls0, l := ls[..|ls| - 1], ls[|ls| - 1];
      var s0 := Exec(c, s, ls0).value;
      if Begins(s0, l, q) then s0.pc.limit else if Ends(s0, l) then 0 else UnderWay(c, s, ls0, q, first)
  }

  /** The sum of the limits of the visits of the queue that ended in the run. */
  ghost function Finished(c: Config, s: State, ls: seq<Label>, q: QueueId, first: int): int
    requires Exec(c, s, ls).Some?
    decreases |ls|
  {
    if ls == [] then 0 else
      var ls0, l := ls[..|ls| - 1], ls[|ls| - 1];
      Finished(c, s, ls0, q, first) + if Ends(Exec(c, s, ls0).value, l) then UnderWay(c, s, ls0, q, first) else 0
  }

  /** The finished visits have shortened the line by their limits, and the one under way is on its way to. */
  ghost predicate Shortened(s: State, id: TaskId, t: Task, finished: int, underWay: int, bound: int) {
    && |Ahead(s.tasks, t)| + finished <= bound && 0 <= underWay
    && (underWay > 0 ==>
          HasPending(s.pc) && s.pc.visit.queue.id == t.queue && Serving(s, id, t, underWay, bound - finished))
  }

  lemma VisitGoesOn(c: Config, s: State, l: Label, q: QueueId)
    requires WithinLimits(c, s) && HasPending(s.pc) && s.pc.visit.queue.id == q && Next(c, s, l).Some?
    requires !l.Crash? && !l.Recover?
    ensures OneVisit([l]) && !Begins(s, l, q)
    ensures if Ends(s, l) then ToClaim(s.pc) == [] && !HasPending(Next(c, s, l).value.pc)
            else HasPending(Next(c, s, l).value.pc) && Next(c, s, l).value.pc.visit.queue.id == q
  {
    match l
    case Outside(call) => CallFrame(s, call);
    case Goroutine(g, go) => GoFrame(c, s, g, go);
    case Poller(poll) =>
  }

  /** A step while a visit of the queue is under way. */
  lemma VisitShortens(c: Config, s: State, l: Label, id: TaskId, t: Task, finished: int, underWay: int, bound: int)
    requires WithinLimits(c, s) && Overdue(s, id, t) && Shortened(s, id, t, finished, underWay, bound) && underWay > 0
    requires Next(c, s, l).Some? && !l.Crash? && !l.Recover? && !ClaimsTask(s, l, id)
    requires Ahead(Next(c, s, l).value.tasks, t) <= Ahead(s.tasks, t)
    ensures !Begins(s, l, t.queue)
    ensures Ends(s, l) ==> Shortened(Next(c, s, l).value, id, t, finished + underWay, 0, bound)
    ensures !Ends(s, l) ==> Shortened(Next(c, s, l).value, id, t, finished, underWay, bound)
  {
    VisitGoesOn(c, s, l, t.queue);
    ServingStep(c, s, l, id, t, underWay, bound - finished);
    Smaller(Ahead(Next(c, s, l).value.tasks, t), Ahead(s.tasks, t));
    if Ends(s, l) {
      ServedInFull(Next(c, s, l).value, id, t, underWay, bound - finished);
    }
  }

  lemma ShortenedStep(c: Config, s: State, l: Label, id: TaskId, t: Task, finished: int, underWay: int, bound: int)
    requires WithinLimits(c, s) && Overdue(s, id, t) && Shortened(s, id, t, finished, underWay, bound)
    requires Next(c, s, l).Some? && !l.Crash? && !l.Recover? && !ClaimsTask(s, l, id)
    requires Ahead(Next(c, s, l).value.tasks, t) <= Ahead(s.tasks, t)
    ensures Shortened(Next(c, s, l).value, id, t, finished + if Ends(s, l) then underWay else 0,
                      if Begins(s, l, t.queue) then s.pc.limit else if Ends(s, l) then 0 else underWay, bound)
  {
    if underWay > 0 {
      VisitShortens(c, s, l, id, t, finished, underWay, bound);
    } else {
      Smaller(Ahead(Next(c, s, l).value.tasks, t), Ahead(s.tasks, t));
      if Begins(s, l, t.queue) {
        ListingServes(s, l.poll.pending, id, t);
      }
    }
  }

  lemma {:induction false} RunShortens(c: Config, s: State, ls: seq<Label>, id: TaskId, t: Task, first: int, bound: int)
    requires Accounted(s) && WithinLimits(c, s) && Waiting(s, id, t) && OrderlyRun(c, s, ls, id, t)
    requires 0 <= c.initialBackoff && 0 <= c.maxBackoff && Shortened(s, id, t, 0, first, bound)
    ensures var s', q := Exec(c, s, ls).value, t.queue;
            || ClaimedOrGone(c, s, ls, id)
            || (Waiting(s', id, t)
                && Shortened(s', id, t, Finished(c, s, ls, q, first), UnderWay(c, s, ls, q, first), bound))
    decreases |ls|
  {
    if ls != [] {
      var ls0, l, q := ls[..|ls| - 1], ls[|ls| - 1], t.queue;
      assert OrderlyRun(c, s, ls0, id, t);
      RunShortens(c, s, ls0, id, t, first, bound);
      RunsStayAccounted(c, s, ls0);
      if !ClaimedOrGone(c, s, ls, id) {
        var s0 := Exec(c, s, ls0).value;
        WaitingStep(c, s0, l, id, t);
        ShortenedStep(c, s0, l, id, t, Finished(c, s, ls0, q, first), UnderWay(c, s, ls0, q, first), bound);
      }
    }
  }

  /** Over any orderly run within one process life: the overdue task is claimed (or removed), or the
      visits of its queue that began and ended in the run have shortened the line ahead of it by the
      sum of their limits. So once that sum exceeds the number ahead, the task has been served. */
  lemma WaitIsBounded(c: Config, s: State, ls: seq<Label>, id: TaskId, t: Task)
    requires Accounted(s) && WithinLimits(c, s) && Waiting(s, id, t) && OrderlyRun(c, s, ls, id, t)
    requires 0 <= c.initialBackoff && 0 <= c.maxBackoff
    ensures ClaimedOrGone(c, s, ls, id)
            || |Ahead(Exec(c, s, ls).value.tasks, t)| + Finished(c, s, ls, t.queue, 0) <= |Ahead(s.tasks, t)|
    ensures Finished(c, s, ls, t.queue, 0) > |Ahead(s.tasks, t)| ==> ClaimedOrGone(c, s, ls, id)
  {
    RunShortens(c, s, ls, id, t, 0, |Ahead(s.tasks, t)|);
  }

  // ---------------------------------------------------------------- one visit

  /** Within one visit its limit is under way until it is finished. */
  lemma {:induction false} OneVisitFinishes(c: Config, s: State, ls: seq<Label>, q: QueueId, first: int)
    requires OneVisit(ls) && Exec(c, s, ls).Some?
    ensures Finished(c, s, ls, q, first) + UnderWay(c, s, ls, q, first) == first
    decreases |ls|
  {
    if ls != [] {
      var ls0 := ls[..|ls| - 1];
      assert OneVisit(ls0);
      OneVisitFinishes(c, s, ls0, q, first);
    }
  }

  /** Every visit that may take k tasks of the queue either claims the overdue task (or finds it
      removed), or leaves at least k fewer tasks ahead of it. */
  lemma VisitServesOrShortens(c: Config, s: State, p: seq<Listed>, ls: seq<Label>, id: TaskId, t: Task)
    requires Accounted(s) && WithinLimits(c, s) && Overdue(s, id, t) && NoRequest(s, id)
    requires s.pc.Limited? && s.pc.visit.queue.id == t.queue
    requires IsListing(s.tasks, t.queue, s.clock, s.pc.limit, p)
    requires OrderlyRun(c, s.(pc := Drain(s.pc.visit, p)), ls, id, t) && OneVisit(ls)
    requires 0 <= c.initialBackoff && 0 <= c.maxBackoff
    ensures Next(c, s, Poller(ListTasks(p))) == Some(s.(pc := Drain(s.pc.visit, p)))
    ensures Exec(c, s.(pc := Drain(s.pc.visit, p)), ls).Some?
    ensures var s1 := s.(pc := Drain(s.pc.visit, p));
            var s2 := Exec(c, s1, ls).value;
            !HasPending(s2.pc) && !ClaimedOrGone(c, s1, ls, id) ==>
              Overdue(s2, id, t) && |Ahead(s2.tasks, t)| + s.pc.limit <= |Ahead(s.tasks, t)|
  {
    var s1 := s.(pc := Drain(s.pc.visit, p));
    ListingBegins(c, s, p, id);
    ListingServes(s, p, id, t);
    RunShortens(c, s1, ls, id, t, s.pc.limit, |Ahead(s.tasks, t)|);
    OneVisitFinishes(c, s1, ls, t.queue, s.pc.limit);
  }

  lemma ListingBegins(c: Config, s: State, p: seq<Listed>, id: TaskId)
    requires Accounted(s) && WithinLimits(c, s) && NoRequest(s, id)
    requires s.pc.Limited? && IsListing(s.tasks, s.pc.visit.queue.id, s.clock, s.pc.limit, p)
    ensures var s1 := s.(pc := Drain(s.pc.visit, p));
            Next(c, s, Poller(ListTasks(p))) == Some(s1) && Accounted(s1) && WithinLimits(c, s1) && NoRequest(s1, id)
  {
    StepKeepsAccounted(c, s, Poller(ListTasks(p)));
    StepKeepsLimits(c, s, Poller(ListTasks(p)));
    assert forall g :: Requests(s.(pc := Drain(s.pc.visit, p)), g, id) <==> Requests(s, g, id);
  }
}
