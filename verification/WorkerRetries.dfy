/** Retry bookkeeping over whole runs: what the attempt count means, how many dispatches a task
    can get, how many dispatches a queue can have out, and how long a failed task waits. */
module WorkerRetries {
  import opened Options
  import opened TaskRows
  import opened WorkerSystem
  import opened WorkerSafety
  import opened WorkerExclusion
  import opened WorkerIdentity
  import Backoffs

  // ---------------------------------------------------------------- concurrency

  /** A call that leaves the stored concurrency limit of q at or below m. */
  ghost predicate Modest(l: Label, q: QueueId, m: int) {
    && (l.Outside? && l.call.CreateQueue? && l.call.queue == q ==>
          NewQueue(q, l.call.rate, l.call.concurrency).concurrency <= m)
    && (l.Outside? && l.call.LimitQueue? && l.call.queue == q ==> l.call.concurrency <= m)
  }

  ghost predicate LimitAtMost(s: State, q: QueueId, m: int) {
    && (q in s.queues ==> s.queues[q].concurrency <= m)
    && (forall v :: Holds(s.pc, v) && v.id == q ==> v.concurrency <= m)
    && Inflight(s.inflight, q) <= m
  }

  lemma PollerKeepsLimitAtMost(c: Config, s: State, l: PollStep, q: QueueId, m: int)
    requires WithinLimits(c, s) && LimitAtMost(s, q, m)
    requires PollNext(c, s, l).Some?
    ensures LimitAtMost(PollNext(c, s, l).value, q, m)
  {
    PollFrame(c, s, l);
    forall v | Holds(PollNext(c, s, l).value.pc, v) && v.id == q ensures v.concurrency <= m {
      SnapshotsStep(c, s, l, v);
    }
    if l.Spawn? {
      assert Holds(s.pc, s.pc.visit.queue);
    }
  }

  lemma CallKeepsLimitAtMost(s: State, l: Call, q: QueueId, m: int)
    requires LimitAtMost(s, q, m) && Modest(Outside(l), q, m) && CallNext(s, l).Some?
    ensures LimitAtMost(CallNext(s, l).value, q, m)
  {
    CallFrame(s, l);
  }

  lemma StepKeepsLimitAtMost(c: Config, s: State, l: Label, q: QueueId, m: int)
    requires WithinLimits(c, s) && LimitAtMost(s, q, m) && Modest(l, q, m) && m >= 0
    requires Next(c, s, l).Some?
    ensures LimitAtMost(Next(c, s, l).value, q, m)
  {
    match l
    case Outside(call) => CallKeepsLimitAtMost(s, call, q, m);
    case Goroutine(g, go) => GoFrame(c, s, g, go);
    case Poller(poll) => PollerKeepsLimitAtMost(c, s, poll, q, m);
    case _ =>
  }

  /** While a queue's limit never exceeds m, it never has more than m dispatches out. */
  lemma {:induction false} ConcurrencyBounded(c: Config, clock: int, ls: seq<Label>, q: QueueId, m: int)
    requires Exec(c, Boot(clock), ls).Some? && m >= 0
    requires forall i :: 0 <= i < |ls| ==> Modest(ls[i], q, m)
    ensures LimitAtMost(Exec(c, Boot(clock), ls).value, q, m)
    ensures |Counted(Exec(c, Boot(clock), ls).value.live, q)| <= m
    decreases |ls|
  {
    BootIsAccounted(c, clock);
    RunsStayAccounted(c, Boot(clock), ls);
    var s := Exec(c, Boot(clock), ls).value;
    if ls != [] {
      var ls0 := ls[..|ls| - 1];
      ConcurrencyBounded(c, clock, ls0, q, m);
      RunsStayAccounted(c, Boot(clock), ls0);
      StepKeepsLimitAtMost(c, Exec(c, Boot(clock), ls0).value, ls[|ls| - 1], q, m);
    }
    assert Inflight(s.inflight, q) == |Counted(s.live, q)|;
  }

  // ---------------------------------------------------------------- attempts

  /** The step claims the task: the poller's UPDATE changes its row from PENDING to RUNNING. */
  ghost predicate ClaimsTask(s: State, l: Label, id: TaskId) {
    l == Poller(ClaimHead) && s.pc.Slot? && s.pc.pending != [] && s.pc.pending[0].id == id && Claimable(s)
  }

  /** The step gives the task a fresh start: it is created, or run-now re-queues it. */
  ghost predicate Renews(s: State, l: Label, id: TaskId) {
    l.Outside? && (
      || (l.call.CreateTask? && l.call.id == id)
      || (l.call == RunTaskNow(id) && id in s.tasks
          && (s.tasks[id].status == Failed || s.tasks[id].status == Completed)))
  }

  ghost predicate RecoversTask(s: State, l: Label, id: TaskId) {
    l == Recover && id in s.tasks && s.tasks[id].status == Running
  }

  /** Claims of the task since its last fresh start. */
  ghost function Dispatched(c: Config, s: State, ls: seq<Label>, id: TaskId): nat
    requires Exec(c, s, ls).Some?
    decreases |ls|
  {
    if ls == [] then 0 else
      var ls0, l := ls[..|ls| - 1], ls[|ls| - 1];
      var s0 := Exec(c, s, ls0).value;
      if Renews(s0, l, id) then 0
      else Dispatched(c, s, ls0, id) + if ClaimsTask(s0, l, id) then 1 else 0
  }

  /** Crash recoveries of the task since its last fresh start. */
  ghost function Recovered(c: Config, s: State, ls: seq<Label>, id: TaskId): nat
    requires Exec(c, s, ls).Some?
    decreases |ls|
  {
    if ls == [] then 0 else
      var ls0, l := ls[..|ls| - 1], ls[|ls| - 1];
      var s0 := Exec(c, s, ls0).value;
      if Renews(s0, l, id) then 0
      else Recovered(c, s, ls0, id) + if RecoversTask(s0, l, id) then 1 else 0
  }

  lemma OutcomeCounts(c: Config, s: State, g: nat, l: GoStep, id: TaskId)
    requires Identity(s, id) && GoNext(c, s, g, l).Some? && id in GoNext(c, s, g, l).value.tasks
    ensures id in s.tasks && Attempts(GoNext(c, s, g, l).value.tasks[id]) == Attempts(s.tasks[id])
  {
    GoFrame(c, s, g, l);
    if s.live[g].phase == Requesting {
      assert Requests(s, g, s.live[g].id);
    }
  }

  lemma AttemptsStep(c: Config, s: State, l: Label, id: TaskId)
    requires Identity(s, id) && Next(c, s, l).Some? && id in Next(c, s, l).value.tasks
    ensures var t := Next(c, s, l).value.tasks[id];
            if Renews(s, l, id) then Attempts(t) == 0
            else id in s.tasks
                 && Attempts(t) == Attempts(s.tasks[id]) + One(ClaimsTask(s, l, id)) - One(RecoversTask(s, l, id))
  {
    match l
    case Outside(call) => CallOnRow(s, call, id);
    case Goroutine(g, go) => OutcomeCounts(c, s, g, go, id);
    case Poller(poll) => PollFrame(c, s, poll);
    case _ =>
  }

  /** Under the proviso, Attempts() is the number of dispatches since the task was created or last
      re-queued, less the crash recoveries. */
  lemma {:induction false} AttemptsCountDispatches(c: Config, clock: int, ls: seq<Label>, id: TaskId)
    requires CourteousRun(c, Boot(clock), ls, id)
    ensures Exec(c, Boot(clock), ls).Some?
    ensures var s := Exec(c, Boot(clock), ls).value;
            id in s.tasks ==>
              Attempts(s.tasks[id]) == Dispatched(c, Boot(clock), ls, id) - Recovered(c, Boot(clock), ls, id)
    decreases |ls|
  {
    if ls != [] {
      var ls0, l := ls[..|ls| - 1], ls[|ls| - 1];
      AttemptsCountDispatches(c, clock, ls0, id);
      RunsKeepIdentity(c, Boot(clock), ls0, id);
      if id in Exec(c, Boot(clock), ls).value.tasks {
        AttemptsStep(c, Exec(c, Boot(clock), ls0).value, l, id);
      }
    }
  }

  function Budget(t: Task): nat { if t.maxRetries < 0 then 0 else t.maxRetries }

  /** A task gets at most max(0, MaxRetries) + 1 dispatches, plus one for each crash it lived
      through, before it must be COMPLETED or FAILED; with the last of them it is not PENDING. The
      copy that each of its requests carries has the row's retry count. */
  lemma DispatchesBounded(c: Config, clock: int, ls: seq<Label>, id: TaskId)
    requires CourteousRun(c, Boot(clock), ls, id)
    requires Exec(c, Boot(clock), ls).Some? && id in Exec(c, Boot(clock), ls).value.tasks
    ensures var s := Exec(c, Boot(clock), ls).value;
            var t := s.tasks[id];
            var spent := Dispatched(c, Boot(clock), ls, id) - Recovered(c, Boot(clock), ls, id);
            && spent <= Budget(t) + 1
            && (spent == Budget(t) + 1 ==> t.status != Pending)
            && forall g :: Requests(s, g, id) ==> s.live[g].task.retries == t.retries
  {
    AttemptsCountDispatches(c, clock, ls, id);
    RunsKeepIdentity(c, Boot(clock), ls, id);
  }

  // ---------------------------------------------------------------- backoff

  /** The step records failure number n of the task and schedules a retry. */
  ghost predicate RecordsFailure(s: State, l: Label, id: TaskId, n: int) {
    && l.Goroutine? && l.go == Fail && Requests(s, l.g, id) && id in s.tasks
    && n == s.live[l.g].task.retries + 1 <= s.live[l.g].task.maxRetries
  }

  /** No call in the run makes the task due early or replaces it. */
  ghost predicate LeavesAlone(ls: seq<Label>, id: TaskId) {
    forall i :: 0 <= i < |ls| ==>
      !(ls[i].Outside? && (ls[i].call == RunTaskNow(id) || (ls[i].call.CreateTask? && ls[i].call.id == id)))
  }

  /** The row is not due before `due`, and has left PENDING only after it. */
  ghost predicate NotBefore(s: State, id: TaskId, due: int) {
    id in s.tasks ==> s.tasks[id].nextAttempt >= due && (s.tasks[id].status == Pending || s.clock >= due)
  }

  lemma OutcomeKeepsNotBefore(c: Config, s: State, g: nat, l: GoStep, id: TaskId, due: int)
    requires Identity(s, id) && GoNext(c, s, g, l).Some? && NotBefore(s, id, due)
    requires 0 <= c.initialBackoff && 0 <= c.maxBackoff
    ensures NotBefore(GoNext(c, s, g, l).value, id, due)
  {
    GoFrame(c, s, g, l);
    var d := s.live[g];
    if d.phase == Requesting && d.id == id && id in s.tasks {
      assert Requests(s, g, id);
      assert d.task.retries + 1 >= 1;
      Backoffs.TaskDelayClosedForm(c.initialBackoff, c.maxBackoff, d.task.retries + 1);
    }
  }

  lemma StepKeepsNotBefore(c: Config, s: State, l: Label, id: TaskId, due: int)
    requires Identity(s, id) && Next(c, s, l).Some? && NotBefore(s, id, due) && LeavesAlone([l], id)
    requires 0 <= c.initialBackoff && 0 <= c.maxBackoff
    ensures NotBefore(Next(c, s, l).value, id, due)
  {
    assert [l][0] == l;
    match l
    case Outside(call) =>
      CallFrame(s, call);
      if id in CallNext(s, call).value.tasks {
        CallOnRow(s, call, id);
      }
    case Goroutine(g, go) => OutcomeKeepsNotBefore(c, s, g, go, id, due);
    case Poller(poll) =>
      PollFrame(c, s, poll);
      if poll.ClaimHead? {
        assert PendingOf(s.pc)[0] == s.pc.pending[0];
      }
    case _ =>
  }

  lemma {:induction false} RunKeepsNotBefore(c: Config, s: State, ls: seq<Label>, id: TaskId, due: int)
    requires Identity(s, id) && Exec(c, s, ls).Some? && NotBefore(s, id, due) && LeavesAlone(ls, id)
    requires 0 <= c.initialBackoff && 0 <= c.maxBackoff
    ensures Identity(Exec(c, s, ls).value, id) && NotBefore(Exec(c, s, ls).value, id, due)
    decreases |ls|
  {
    if ls != [] {
      var ls0, l := ls[..|ls| - 1], ls[|ls| - 1];
      RunKeepsNotBefore(c, s, ls0, id, due);
      StepKeepsIdentity(c, Exec(c, s, ls0).value, l, id);
      StepKeepsNotBefore(c, Exec(c, s, ls0).value, l, id, due);
    }
  }

  /** After failure number n at time T, no claim of the task happens before
      T + min(max, initial * 2^(n-1)) seconds, crashes and restarts included, unless run-now or a
      new task of that name intervenes. */
  lemma BackoffIsRespected(c: Config, s: State, failure: Label, ls: seq<Label>, id: TaskId, n: int)
    requires Identity(s, id) && RecordsFailure(s, failure, id, n)
    requires 0 <= c.initialBackoff <= c.maxBackoff
    requires Next(c, s, failure).Some? && Exec(c, Next(c, s, failure).value, ls).Some? && LeavesAlone(ls, id)
    requires ClaimsTask(Exec(c, Next(c, s, failure).value, ls).value, Poller(ClaimHead), id)
    ensures n >= 1
    ensures Exec(c, Next(c, s, failure).value, ls).value.clock
            >= s.clock + 1000 * Backoffs.Min(c.maxBackoff, c.initialBackoff * Backoffs.Pow2(n - 1))
  {
    var s1 := Next(c, s, failure).value;
    var due := RetryAt(c, s.clock, n);
    StepKeepsIdentity(c, s, failure, id);
    RunKeepsNotBefore(c, s1, ls, id, due);
    var s2 := Exec(c, s1, ls).value;
    assert PendingOf(s2.pc)[0] == s2.pc.pending[0];
    Backoffs.TaskDelayClosedForm(c.initialBackoff, c.maxBackoff, n);
  }
}
