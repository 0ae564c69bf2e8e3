/** The task worker as a labelled transition system: the poller, the dispatch goroutines, the
    API calls on queues and tasks, the clock, and crash and restart. Every SQL statement and
    every critical section is one step; the clock reading a statement carries is taken in it. */
module WorkerSystem {
  import opened Options
  import opened TaskRows
  import opened TokenBucket
  import Backoffs

  /** WorkerConcurrency and the two backoff settings (seconds). */
  datatype Config = Config(slots: nat, initialBackoff: int, maxBackoff: int)

  datatype Queue = Queue(id: QueueId, paused: bool, rate: int, concurrency: int)

  const DEFAULT_RATE := 500
  const DEFAULT_CONCURRENCY := 1000

  /** queues.Repository.Create replaces limits that are not positive by the defaults. */
  function NewQueue(id: QueueId, rate: int, concurrency: int): Queue {
    Queue(id, false, if rate > 0 then rate else DEFAULT_RATE,
          if concurrency > 0 then concurrency else DEFAULT_CONCURRENCY)
  }

  /** queues.Repository.UpdateRateLimits keeps limits that are given as zero. */
  function Relimited(q: Queue, rate: int, concurrency: int): Queue {
    q.(rate := if rate > 0 then rate else q.rate,
       concurrency := if concurrency > 0 then concurrency else q.concurrency)
  }

  /** A dispatch goroutine: sending its request; outcome written; in-flight count given back
      (and only the semaphore slot still held). */
  datatype Phase = Requesting | Recorded | Uncounted
  datatype Dispatch = Dispatch(id: TaskId, task: Task, phase: Phase)

  /** One queue of one poll: the poll's clock reading, the queue snapshot, the queues to come. */
  datatype Visit = Visit(now: int, queue: Queue, rest: seq<Queue>)

  /** Where the poller stands. `Starting` is a process that has not yet recovered its tasks. In
      `Slot` the poller holds a semaphore slot for pending[0]; in `Claimed` it has also claimed it. */
  datatype Pc =
    | Starting
    | Idle
    | Scan(now: int, rest: seq<Queue>)
    | Roomed(visit: Visit, room: int)
    | Limited(visit: Visit, limit: int)
    | Drain(visit: Visit, pending: seq<Listed>)
    | Slot(visit: Visit, pending: seq<Listed>)
    | Claimed(visit: Visit, pending: seq<Listed>)

  datatype State = State(clock: int, queues: map<QueueId, Queue>, tasks: Rows, pc: Pc, sem: int,
                         inflight: map<QueueId, int>, buckets: map<QueueId, Bucket>, live: map<nat, Dispatch>)

  /** The clock and the API calls. They touch only the clock and the two tables. */
  datatype Call =
    | Advance(to: int)
    | CreateTask(id: TaskId, queue: QueueId, rowid: int, maxRetries: int, at: int)
    | DeleteTask(id: TaskId)
    | RunTaskNow(id: TaskId)
    | CreateQueue(queue: QueueId, rate: int, concurrency: int)
    | DeleteQueue(queue: QueueId)
    | PurgeQueue(queue: QueueId)
    | PauseQueue(queue: QueueId, paused: bool)
    | LimitQueue(queue: QueueId, rate: int, concurrency: int)

  datatype GoStep = Succeed | Fail | Uncount | Release

  datatype PollStep =
    | BeginPoll(listing: seq<Queue>)
    | NextQueue
    | ReadLimits
    | ListTasks(pending: seq<Listed>)
    | TakeSlot
    | ClaimHead
    | Spawn(g: nat)

  datatype Label =
    | Outside(call: Call)
    | Crash
    | Recover
    | Goroutine(g: nat, go: GoStep)
    | Poller(poll: PollStep)

  function Inflight(m: map<QueueId, int>, q: QueueId): int { if q in m then m[q] else 0 }

  function MinInt(x: int, y: int): int { if x <= y then x else y }

  /** `qs` lists every stored queue, once each. */
  predicate ListsQueues(queues: map<QueueId, Queue>, qs: seq<Queue>) {
    && (forall i :: 0 <= i < |qs| ==> qs[i].id in queues && queues[qs[i].id] == qs[i])
    && (forall i, j :: 0 <= i < j < |qs| ==> qs[i].id != qs[j].id)
    && (forall id :: id in queues ==> exists i :: 0 <= i < |qs| && qs[i].id == id)
  }

  // ---------------------------------------------------------------- poller

  /** The head of the queue loop: skip a paused queue, return when no slot is free. */
  function VisitQueue(c: Config, s: State): Pc
    requires s.pc.Scan?
  {
    if s.pc.rest == [] then Idle
    else
      var q, rest := s.pc.rest[0], s.pc.rest[1..];
      if q.paused then Scan(s.pc.now, rest)
      else if c.slots - s.sem <= 0 then Idle
      else Roomed(Visit(s.pc.now, q, rest), c.slots - s.sem)
  }

  /** The bucket after the refill of this visit. */
  function Refilled(buckets: map<QueueId, Bucket>, v: Visit): Bucket {
    var b := if v.queue.id in buckets then buckets[v.queue.id] else Bucket(Capacity(v.queue.rate), v.now);
    Refill(b, v.now, v.queue.rate)
  }

  function ConcurrencyRoom(s: State, v: Visit, room: int): int {
    if v.queue.concurrency > 0
    then MinInt(room, v.queue.concurrency - Inflight(s.inflight, v.queue.id)) else room
  }

  /** The locked section that works out how many tasks this visit may take. */
  function ComputeLimits(s: State): State
    requires s.pc.Roomed?
  {
    var v := s.pc.visit;
    var room := ConcurrencyRoom(s, v, s.pc.room);
    var b := Refilled(s.buckets, v);
    var limit := if v.queue.rate > 0 then MinInt(room, Truncate(b.tokens)) else room;
    s.(buckets := if v.queue.rate > 0 then s.buckets[v.queue.id := b] else s.buckets,
       pc := if limit <= 0 then Scan(v.now, v.rest) else Limited(v, limit))
  }

  function AcquireSlot(c: Config, s: State): State
    requires s.pc.Drain?
  {
    if s.pc.pending == [] then s.(pc := Scan(s.pc.visit.now, s.pc.visit.rest))
    else if s.sem < c.slots then s.(sem := s.sem + 1, pc := Slot(s.pc.visit, s.pc.pending))
    else s.(pc := Idle)
  }

  predicate Claimable(s: State)
    requires s.pc.Slot? && s.pc.pending != []
  {
    var id := s.pc.pending[0].id;
    id in s.tasks && s.tasks[id].status == Pending
  }

  function ClaimOrSkip(s: State): State
    requires s.pc.Slot? && s.pc.pending != []
  {
    if Claimable(s)
    then s.(tasks := Claim(s.tasks, s.pc.pending[0].id), pc := Claimed(s.pc.visit, s.pc.pending))
    else s.(sem := s.sem - 1, pc := Drain(s.pc.visit, s.pc.pending[1..]))
  }

  /** Count the dispatch, pay its token and start the goroutine. */
  function SpawnDispatch(s: State, g: nat): State
    requires s.pc.Claimed? && s.pc.pending != []
  {
    var q, head := s.pc.visit.queue, s.pc.pending[0];
    s.(inflight := s.inflight[q.id := Inflight(s.inflight, q.id) + 1],
       buckets := if q.rate > 0 && q.id in s.buckets
                  then s.buckets[q.id := Bucket(s.buckets[q.id].tokens - 1.0, s.buckets[q.id].last)]
                  else s.buckets,
       live := s.live[g := Dispatch(head.id, head.task, Requesting)],
       pc := Drain(s.pc.visit, s.pc.pending[1..]))
  }

  // ---------------------------------------------------------------- goroutines

  function RetryAt(c: Config, clock: int, retry: int): int {
    clock + 1000 * Backoffs.TaskDelay(c.initialBackoff, c.maxBackoff, retry)
  }

  /** retryOrFail: the decision uses the copy of the row that the poller listed. */
  function RetryOrFail(c: Config, s: State, d: Dispatch): Rows {
    var retry := d.task.retries + 1;
    if retry > d.task.maxRetries then UpdateStatus(s.tasks, d.id, Failed)
    else UpdateRetry(s.tasks, d.id, retry, RetryAt(c, s.clock, retry))
  }

  // ---------------------------------------------------------------- steps and runs

  function CallNext(s: State, l: Call): Option<State> {
    match l
    case Advance(to) => if s.clock <= to then Some(s.(clock := to)) else None
    case CreateTask(id, q, rowid, maxRetries, at) =>
      if id !in s.tasks && AboveAll(s.tasks, rowid)
      then Some(s.(tasks := s.tasks[id := Task(q, rowid, Pending, 0, maxRetries, at)])) else None
    case DeleteTask(id) => Some(s.(tasks := s.tasks - {id}))
    case RunTaskNow(id) => Some(s.(tasks := RunNow(s.tasks, id, s.clock)))
    case CreateQueue(q, rate, conc) =>
      if q !in s.queues then Some(s.(queues := s.queues[q := NewQueue(q, rate, conc)])) else None
    case DeleteQueue(q) =>
      Some(if q in s.queues then s.(queues := s.queues - {q}, tasks := DeleteOfQueue(s.tasks, q)) else s)
    case PurgeQueue(q) => Some(if q in s.queues then s.(tasks := DeleteOfQueue(s.tasks, q)) else s)
    case PauseQueue(q, paused) =>
      Some(if q in s.queues then s.(queues := s.queues[q := s.queues[q].(paused := paused)]) else s)
    case LimitQueue(q, rate, conc) =>
      Some(if q in s.queues then s.(queues := s.queues[q := Relimited(s.queues[q], rate, conc)]) else s)
  }

  function GoNext(c: Config, s: State, g: nat, l: GoStep): Option<State> {
    if g !in s.live then None else
      var d := s.live[g];
      var q := d.task.queue;
      match l
      case Succeed =>
        if d.phase == Requesting
        then Some(s.(tasks := UpdateStatus(s.tasks, d.id, Completed), live := s.live[g := d.(phase := Recorded)]))
        else None
      case Fail =>
        if d.phase == Requesting
        then Some(s.(tasks := RetryOrFail(c, s, d), live := s.live[g := d.(phase := Recorded)])) else None
      case Uncount =>
        if d.phase == Recorded
        then Some(s.(inflight := s.inflight[q := Inflight(s.inflight, q) - 1],
                     live := s.live[g := d.(phase := Uncounted)]))
        else None
      case Release => if d.phase == Uncounted then Some(s.(sem := s.sem - 1, live := s.live - {g})) else None
  }

  function PollNext(c: Config, s: State, l: PollStep): Option<State> {
    match l
    case BeginPoll(listing) =>
      if s.pc.Idle? && ListsQueues(s.queues, listing) then Some(s.(pc := Scan(s.clock, listing))) else None
    case NextQueue => if s.pc.Scan? then Some(s.(pc := VisitQueue(c, s))) else None
    case ReadLimits => if s.pc.Roomed? then Some(ComputeLimits(s)) else None
    case ListTasks(pending) =>
      if s.pc.Limited? && IsListing(s.tasks, s.pc.visit.queue.id, s.clock, s.pc.limit, pending)
      then Some(s.(pc := Drain(s.pc.visit, pending))) else None
    case TakeSlot => if s.pc.Drain? then Some(AcquireSlot(c, s)) else None
    case ClaimHead => if s.pc.Slot? && s.pc.pending != [] then Some(ClaimOrSkip(s)) else None
    case Spawn(g) => if s.pc.Claimed? && s.pc.pending != [] && g !in s.live then Some(SpawnDispatch(s, g)) else None
  }

  /** The state after one step, or None when the step is not possible. */
  function Next(c: Config, s: State, l: Label): Option<State> {
    match l
    case Outside(call) => CallNext(s, call)
    case Crash => Some(s.(pc := Starting, sem := 0, inflight := map[], buckets := map[], live := map[]))
    case Recover => if s.pc.Starting? then Some(s.(tasks := RecoverRunning(s.tasks), pc := Idle)) else None
    case Goroutine(g, go) => GoNext(c, s, g, go)
    case Poller(poll) => PollNext(c, s, poll)
  }

  lemma CallFrame(s: State, l: Call)
    requires CallNext(s, l).Some?
    ensures var s' := CallNext(s, l).value; s' == s.(clock := s'.clock, queues := s'.queues, tasks := s'.tasks)
    ensures s.clock <= CallNext(s, l).value.clock
  {
  }

  lemma GoFrame(c: Config, s: State, g: nat, l: GoStep)
    requires GoNext(c, s, g, l).Some?
    ensures var s' := GoNext(c, s, g, l).value;
            s' == s.(tasks := s'.tasks, sem := s'.sem, inflight := s'.inflight, live := s'.live)
    ensures s.live[g].phase != Requesting ==> GoNext(c, s, g, l).value.tasks == s.tasks
  {
  }

  /** The poller writes one table, in one step: the claim. */
  lemma PollFrame(c: Config, s: State, l: PollStep)
    requires PollNext(c, s, l).Some?
    ensures var s' := PollNext(c, s, l).value;
            && s'.clock == s.clock && s'.queues == s.queues
            && s'.tasks == (if l.ClaimHead? then Claim(s.tasks, s.pc.pending[0].id) else s.tasks)
            && (!l.Spawn? ==> s'.live == s.live && s'.inflight == s.inflight)
  {
    match l
    case ReadLimits => LimitsFrame(s);
    case ClaimHead => ClaimFrame(s);
    case _ =>
  }

  lemma LimitsFrame(s: State)
    requires s.pc.Roomed?
    ensures ComputeLimits(s) == s.(buckets := ComputeLimits(s).buckets, pc := ComputeLimits(s).pc)
  {
  }

  lemma ClaimFrame(s: State)
    requires s.pc.Slot? && s.pc.pending != []
    ensures var s' := ClaimOrSkip(s);
            s' == s.(tasks := Claim(s.tasks, s.pc.pending[0].id), sem := s'.sem, pc := s'.pc)
  {
  }

  /** Running a sequence of steps; None when one of them is not possible. */
  function Exec(c: Config, s: State, ls: seq<Label>): Option<State>
    decreases |ls|
  {
    if ls == [] then Some(s)
    else
      var r := Exec(c, s, ls[..|ls| - 1]);
      if r.None? then None else Next(c, r.value, ls[|ls| - 1])
  }

  /** A fresh database and a process that has just started. */
  function Boot(clock: int): State {
    State(clock, map[], map[], Starting, 0, map[], map[], map[])
  }

  lemma ExecExtend(c: Config, s: State, ls: seq<Label>, l: Label)
    ensures Exec(c, s, ls + [l]) == var r := Exec(c, s, ls); if r.None? then None else Next(c, r.value, l)
  {
    assert (ls + [l])[..|ls|] == ls;
  }

  /** A run split after its first part. */
  lemma {:induction false} ExecConcat(c: Config, s: State, a: seq<Label>, b: seq<Label>)
    ensures Exec(c, s, a + b) == var r := Exec(c, s, a); if r.None? then None else Exec(c, r.value, b)
    decreases |b|
  {
    if b == [] {
      assert a + b == a;
    } else {
      var b0 := b[..|b| - 1];
      ExecConcat(c, s, a, b0);
      assert (a + b)[..|a + b| - 1] == a + b0;
    }
  }
}
