/** What the worker's steps write, column by column: the API calls, the outcome of a request, crash
    and recovery. */
module WorkerEffects {
  import opened Options
  import opened TaskRows
  import opened WorkerSystem
  import opened WorkerExclusion
  import Backoffs

  /** The task's row, or its absence, is as it was. */
  predicate SameTask(s: State, s': State, id: TaskId) {
    (id in s'.tasks <==> id in s.tasks) && (id in s.tasks ==> s'.tasks[id] == s.tasks[id])
  }

  predicate SameQueue(s: State, s': State, q: QueueId) {
    (q in s'.queues <==> q in s.queues) && (q in s.queues ==> s'.queues[q] == s.queues[q])
  }

  /** Columns that are written once. */
  predicate SameOrigin(t: Task, t': Task) {
    t'.queue == t.queue && t'.rowid == t.rowid && t'.maxRetries == t.maxRetries
  }

  // ---------------------------------------------------------------- API calls

  /** Run-now: a pending task becomes due, an ended one starts from scratch, a running one is left alone. */
  predicate DueNow(t: Task, t': Task, now: int) {
    && SameOrigin(t, t')
    && match t.status
       case Pending => t'.status == Pending && t'.retries == t.retries && t'.nextAttempt == now
       case Running => t' == t
       case Completed => t'.status == Pending && t'.retries == 0 && t'.nextAttempt == now
       case Failed => t'.status == Pending && t'.retries == 0 && t'.nextAttempt == now
  }

  predicate Fresh(t: Task, q: QueueId, rowid: int, maxRetries: int, at: int) {
    && t.queue == q && t.rowid == rowid && t.maxRetries == maxRetries
    && t.status == Pending && t.retries == 0 && t.nextAttempt == at
  }

  /** What a call does to one task. */
  lemma CallOnTask(s: State, l: Call, id: TaskId)
    requires CallNext(s, l).Some?
    ensures var s' := CallNext(s, l).value;
            match l
            case CreateTask(u, q, rowid, maxRetries, at) =>
              if id == u then id !in s.tasks && id in s'.tasks && Fresh(s'.tasks[id], q, rowid, maxRetries, at)
              else SameTask(s, s', id)
            case DeleteTask(gone) => if id == gone then id !in s'.tasks else SameTask(s, s', id)
            case RunTaskNow(u) =>
              if id == u && id in s.tasks then id in s'.tasks && DueNow(s.tasks[id], s'.tasks[id], s.clock)
              else SameTask(s, s', id)
            case DeleteQueue(q) =>
              if q in s.queues && id in s.tasks && s.tasks[id].queue == q then id !in s'.tasks else SameTask(s, s', id)
            case PurgeQueue(q) =>
              if q in s.queues && id in s.tasks && s.tasks[id].queue == q then id !in s'.tasks else SameTask(s, s', id)
            case _ => SameTask(s, s', id)
  {
  }

  /** What a call does to one queue. */
  lemma CallOnQueue(s: State, l: Call, q: QueueId)
    requires CallNext(s, l).Some?
    ensures var s' := CallNext(s, l).value;
            match l
            case CreateQueue(u, rate, concurrency) =>
              if q == u then
                && q !in s.queues && q in s'.queues && s'.queues[q].id == q && !s'.queues[q].paused
                && s'.queues[q].rate == (if rate > 0 then rate else 500)
                && s'.queues[q].concurrency == (if concurrency > 0 then concurrency else 1000)
              else SameQueue(s, s', q)
            case DeleteQueue(gone) => if q == gone then q !in s'.queues else SameQueue(s, s', q)
            case PauseQueue(u, paused) =>
              if q == u && q in s.queues then
                && q in s'.queues && s'.queues[q].id == s.queues[q].id && s'.queues[q].paused == paused
                && s'.queues[q].rate == s.queues[q].rate && s'.queues[q].concurrency == s.queues[q].concurrency
              else SameQueue(s, s', q)
            case LimitQueue(u, rate, concurrency) =>
              if q == u && q in s.queues then
                && q in s'.queues && s'.queues[q].id == s.queues[q].id && s'.queues[q].paused == s.queues[q].paused
                && s'.queues[q].rate == (if rate > 0 then rate else s.queues[q].rate)
                && s'.queues[q].concurrency == (if concurrency > 0 then concurrency else s.queues[q].concurrency)
              else SameQueue(s, s', q)
            case _ => SameQueue(s, s', q)
  {
  }

  /** Every call is possible at any moment, but for the clock going back and for a name that is taken. */
  lemma CallIsPossible(s: State, l: Call)
    ensures CallNext(s, l).Some? <==>
              match l
              case Advance(to) => s.clock <= to
              case CreateTask(id, _, rowid, _, _) =>
                id !in s.tasks && forall u :: u in s.tasks ==> s.tasks[u].rowid < rowid
              case CreateQueue(q, _, _) => q !in s.queues
              case _ => true
  {
  }

  /** A goroutine sends its request, records the outcome, gives its count back and then its slot. */
  lemma OutcomeIsPossible(c: Config, s: State, g: nat, l: GoStep)
    ensures GoNext(c, s, g, l).Some? <==>
              g in s.live && match s.live[g].phase
                             case Requesting => l == Succeed || l == Fail
                             case Recorded => l == Uncount
                             case Uncounted => l == Release
  {
  }

  /** Only Advance moves the clock. */
  lemma CallOnClock(s: State, l: Call)
    requires CallNext(s, l).Some?
    ensures CallNext(s, l).value.clock == if l.Advance? then l.to else s.clock
  {
  }

  // ---------------------------------------------------------------- crash and recovery

  /** A crash loses the process memory and nothing else; recovery makes RUNNING rows PENDING. */
  lemma RestartKeepsTables(c: Config, s: State, l: Label, id: TaskId)
    requires (l.Crash? || l.Recover?) && Next(c, s, l).Some?
    ensures var s' := Next(c, s, l).value;
            && s'.clock == s.clock && s'.queues == s.queues
            && (l.Crash? ==> s'.tasks == s.tasks)
            && (id in s'.tasks <==> id in s.tasks)
            && (l.Recover? && id in s.tasks ==>
                  if s.tasks[id].status == Running then
                    && SameOrigin(s.tasks[id], s'.tasks[id]) && s'.tasks[id].status == Pending
                    && s'.tasks[id].retries == s.tasks[id].retries
                    && s'.tasks[id].nextAttempt == s.tasks[id].nextAttempt
                  else s'.tasks[id] == s.tasks[id])
  {
  }

  // ---------------------------------------------------------------- outcomes

  /** The delay in seconds before retry n: min(max, initial * 2^(n-1)), but the configured initial
      delay before the first. */
  predicate IsDelay(c: Config, n: int, delay: int) {
    n >= 1 && 0 <= c.initialBackoff && 0 <= c.maxBackoff ==>
      if n == 1 then delay == c.initialBackoff
      else if c.initialBackoff * Backoffs.Pow2(n - 1) <= c.maxBackoff
      then delay == c.initialBackoff * Backoffs.Pow2(n - 1)
      else delay == c.maxBackoff
  }

  lemma TaskDelayIs(c: Config, n: int)
    ensures IsDelay(c, n, Backoffs.TaskDelay(c.initialBackoff, c.maxBackoff, n))
  {
    if n >= 1 && 0 <= c.initialBackoff && 0 <= c.maxBackoff {
      Backoffs.TaskDelayClosedForm(c.initialBackoff, c.maxBackoff, n);
      if n > 1 && c.initialBackoff > c.maxBackoff {
        Backoffs.AtLeastOnce(c.initialBackoff, n - 1);
        assert Backoffs.TaskDelay(c.initialBackoff, c.maxBackoff, n) == c.maxBackoff;
      }
    }
  }

  /** The outcome of request g for a task whose row was t: a 2xx response completes it; otherwise it
      fails for good after its last retry, or becomes due again after the backoff. */
  predicate Outcome(c: Config, clock: int, d: Dispatch, ok: bool, t: Task, t': Task) {
    && SameOrigin(t, t')
    && (ok ==> t'.status == Completed && t'.retries == t.retries && t'.nextAttempt == t.nextAttempt)
    && (!ok && d.task.retries + 1 > d.task.maxRetries ==>
          t'.status == Failed && t'.retries == t.retries && t'.nextAttempt == t.nextAttempt)
    && (!ok && d.task.retries + 1 <= d.task.maxRetries ==>
          && t'.status == Pending && t'.retries == d.task.retries + 1
          && (t'.nextAttempt - clock) % 1000 == 0 && IsDelay(c, t'.retries, (t'.nextAttempt - clock) / 1000))
  }

  /** The whole table after the outcome of request g. */
  ghost predicate OutcomeWritten(c: Config, s: State, s': State, g: nat, ok: bool)
    requires g in s.live
  {
    && s'.tasks.Keys == s.tasks.Keys
    && forall id :: id in s.tasks ==>
         if id == s.live[g].id then Outcome(c, s.clock, s.live[g], ok, s.tasks[id], s'.tasks[id])
         else s'.tasks[id] == s.tasks[id]
  }

  lemma OutcomeIsWritten(c: Config, s: State, g: nat, ok: bool)
    requires g in s.live && s.live[g].phase == Requesting
    ensures var r := GoNext(c, s, g, if ok then Succeed else Fail);
            r.Some? && OutcomeWritten(c, s, r.value, g, ok)
  {
    var n := s.live[g].task.retries + 1;
    TaskDelayIs(c, n);
    assert RetryAt(c, s.clock, n) - s.clock == 1000 * Backoffs.TaskDelay(c.initialBackoff, c.maxBackoff, n);
  }

  /** How the last request for the task ended, if one has. */
  ghost function LastOutcome(c: Config, s: State, ls: seq<Label>, id: TaskId): Option<GoStep>
    requires Exec(c, s, ls).Some?
    decreases |ls|
  {
    if ls == [] then None else
      var ls0, l := ls[..|ls| - 1], ls[|ls| - 1];
      if l.Goroutine? && (l.go == Succeed || l.go == Fail) && Requests(Exec(c, s, ls0).value, l.g, id) then Some(l.go)
      else LastOutcome(c, s, ls0, id)
  }

  predicate Ended(t: Task) { t.status == Completed || t.status == Failed }

  ghost predicate EndedAs(s: State, id: TaskId, last: Option<GoStep>) {
    id in s.tasks && Ended(s.tasks[id]) ==> last == Some(if s.tasks[id].status == Completed then Succeed else Fail)
  }

  lemma StepEndsAs(c: Config, s: State, l: Label, id: TaskId, last: Option<GoStep>)
    requires Next(c, s, l).Some? && EndedAs(s, id, last)
    ensures EndedAs(Next(c, s, l).value, id,
                    if l.Goroutine? && (l.go == Succeed || l.go == Fail) && Requests(s, l.g, id) then Some(l.go)
                    else last)
  {
    match l
    case Outside(call) => CallOnTask(s, call, id);
    case Goroutine(g, go) =>
      if go == Succeed || go == Fail {
        OutcomeIsWritten(c, s, g, go == Succeed);
      }
    case Poller(poll) => PollFrame(c, s, poll);
    case _ =>
  }

  /** In every reachable state an ended task is COMPLETED exactly when its last request got a 2xx
      response, and FAILED exactly when it did not. */
  lemma {:induction false} EndedByLastRequest(c: Config, clock: int, ls: seq<Label>, id: TaskId)
    requires Exec(c, Boot(clock), ls).Some?
    ensures EndedAs(Exec(c, Boot(clock), ls).value, id, LastOutcome(c, Boot(clock), ls, id))
    decreases |ls|
  {
    if ls != [] {
      var ls0 := ls[..|ls| - 1];
      EndedByLastRequest(c, clock, ls0, id);
      StepEndsAs(c, Exec(c, Boot(clock), ls0).value, ls[|ls| - 1], id, LastOutcome(c, Boot(clock), ls0, id));
    }
  }
}
