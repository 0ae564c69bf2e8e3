/** Which row a dispatch works on: as long as a task's name is not created again while it is listed
    or being dispatched, the copies of its row that the poller and the goroutines carry agree with
    the row, and a listed task stays due until it is claimed or removed. */
module WorkerIdentity {
  import opened Options
  import opened TaskRows
  import opened WorkerSystem
  import opened WorkerSafety
  import opened WorkerExclusion

  /** The proviso on the name: neither listed nor being dispatched when it is created. */
  ghost predicate Courteous(s: State, l: Label, id: TaskId) {
    l.Outside? && l.call.CreateTask? && l.call.id == id ==> !Lists(PendingOf(s.pc), id) && !Owned(s, id)
  }

  /** A copy of a row is current in everything the outcome of a dispatch depends on. */
  predicate Current(row: Task, copy: Task) {
    row.retries == copy.retries && row.maxRetries == copy.maxRetries && row.queue == copy.queue
  }

  /** Listed entries whose claim is still to come. */
  function ToClaim(pc: Pc): seq<Listed> {
    if pc.Claimed? && pc.pending != [] then pc.pending[1..] else PendingOf(pc)
  }

  /** The copies that requests for the task carry are current. */
  ghost predicate RequestsCurrent(s: State, id: TaskId) {
    forall g :: Requests(s, g, id) && id in s.tasks ==> Current(s.tasks[id], s.live[g].task)
  }

  /** The task is listed at most once, not while a request for it is out, and with a current copy;
      until it is claimed its row stays PENDING and due. */
  ghost predicate ListingCurrent(s: State, id: TaskId) {
    var p := PendingOf(s.pc);
    && (forall i, j :: 0 <= i < j < |p| && p[i].id == id ==> p[j].id != id)
    && (forall i :: 0 <= i < |p| && p[i].id == id ==> ListedCurrent(s, i, id))
  }

  ghost predicate ListedCurrent(s: State, i: nat, id: TaskId)
    requires i < |PendingOf(s.pc)|
  {
    && (forall g :: !Requests(s, g, id))
    && (id in s.tasks ==>
          && Current(s.tasks[id], PendingOf(s.pc)[i].task)
          && ((i == 0 && s.pc.Claimed?) || (s.tasks[id].status == Pending && s.tasks[id].nextAttempt <= s.clock)))
  }

  predicate InBudget(t: Task) { 0 <= t.retries && (t.retries <= t.maxRetries || t.retries == 0) }

  ghost predicate Identity(s: State, id: TaskId) {
    && Exclusive(s, id) && RequestsCurrent(s, id) && ListingCurrent(s, id)
    && (id in s.tasks ==> InBudget(s.tasks[id]))
  }

  // ---------------------------------------------------------------- steps

  lemma CallKeepsIdentity(s: State, l: Call, id: TaskId)
    requires Identity(s, id) && CallNext(s, l).Some? && Courteous(s, Outside(l), id)
    ensures Identity(CallNext(s, l).value, id)
  {
    CallKeepsExclusive(s, l, id);
    CallFrame(s, l);
    var s', p := CallNext(s, l).value, PendingOf(s.pc);
    if id in s'.tasks {
      CallOnRow(s, l, id);
    }
    assert forall g :: Requests(s', g, id) <==> Requests(s, g, id);
    forall i | 0 <= i < |p| && p[i].id == id ensures ListedCurrent(s', i, id) {
      assert ListedCurrent(s, i, id);
    }
  }

  lemma GoroutineKeepsIdentity(c: Config, s: State, g: nat, l: GoStep, id: TaskId)
    requires Identity(s, id) && GoNext(c, s, g, l).Some?
    ensures Identity(GoNext(c, s, g, l).value, id)
  {
    GoroutineKeepsExclusive(c, s, g, l, id);
    GoFrame(c, s, g, l);
    var s', p := GoNext(c, s, g, l).value, PendingOf(s.pc);
    assert forall h :: Requests(s', h, id) ==> Requests(s, h, id);
    forall i | 0 <= i < |p| && p[i].id == id ensures ListedCurrent(s', i, id) {
      assert ListedCurrent(s, i, id);
      assert !Requests(s, g, id);
    }
  }

  /** Moves that keep the tables and the goroutines, and list nothing new. */
  lemma MoveKeepsIdentity(s: State, s': State, id: TaskId)
    requires Identity(s, id) && s'.tasks == s.tasks && s'.live == s.live && s'.clock == s.clock
    requires !s.pc.Claimed? && !s'.pc.Claimed? && !s.pc.Starting? && !s'.pc.Starting?
    requires PendingOf(s'.pc) == PendingOf(s.pc) || PendingOf(s'.pc) == []
    ensures Identity(s', id)
  {
    assert forall g :: Requests(s', g, id) <==> Requests(s, g, id);
    BystanderKeepsExclusive(s, s', id);
    var p := PendingOf(s'.pc);
    forall i | 0 <= i < |p| && p[i].id == id ensures ListedCurrent(s', i, id) {
      assert ListedCurrent(s, i, id);
    }
  }

  lemma ListKeepsIdentity(s: State, p: seq<Listed>, id: TaskId)
    requires Identity(s, id) && s.pc.Limited? && IsListing(s.tasks, s.pc.visit.queue.id, s.clock, s.pc.limit, p)
    ensures Identity(s.(pc := Drain(s.pc.visit, p)), id)
  {
    var s' := s.(pc := Drain(s.pc.visit, p));
    assert forall g :: Requests(s', g, id) <==> Requests(s, g, id);
    BystanderKeepsExclusive(s, s', id);
    forall i, j | 0 <= i < j < |p| && p[i].id == id ensures p[j].id != id {
      assert Before(p[i].task, p[j].task);
    }
    forall i | 0 <= i < |p| && p[i].id == id ensures ListedCurrent(s', i, id) {
      assert s.tasks[id] == p[i].task;
    }
  }

  /** Under the proviso a claim fails only because the row is gone. */
  lemma ClaimFailsOnlyIfGone(s: State)
    requires s.pc.Slot? && s.pc.pending != [] && Identity(s, s.pc.pending[0].id)
    ensures Claimable(s) <==> s.pc.pending[0].id in s.tasks
  {
    assert ListedCurrent(s, 0, PendingOf(s.pc)[0].id);
  }

  /** What a shorter listing inherits: entry i of it was entry i + 1. */
  lemma TailKeepsListing(s: State, s': State, id: TaskId)
    requires ListingCurrent(s, id) && HasPending(s.pc) && s.pc.pending != []
    requires !s'.pc.Claimed? && PendingOf(s'.pc) == s.pc.pending[1..] && s'.clock == s.clock
    requires s.pc.pending[0].id != id ==> forall g :: Requests(s', g, id) ==> Requests(s, g, id)
    requires s.pc.pending[0].id != id && id in s'.tasks ==> id in s.tasks && s'.tasks[id] == s.tasks[id]
    ensures ListingCurrent(s', id)
  {
    var p, p' := s.pc.pending, PendingOf(s'.pc);
    forall i, j | 0 <= i < j < |p'| && p'[i].id == id ensures p'[j].id != id {
      assert p[i + 1].id == id;
    }
    forall i | 0 <= i < |p'| && p'[i].id == id ensures ListedCurrent(s', i, id) {
      assert p[0].id != id;
      assert ListedCurrent(s, i + 1, id);
    }
  }

  lemma ClaimKeepsIdentity(s: State, id: TaskId)
    requires Identity(s, id) && s.pc.Slot? && s.pc.pending != []
    ensures Identity(ClaimOrSkip(s), id)
  {
    var s', p := ClaimOrSkip(s), s.pc.pending;
    ClaimKeepsExclusive(s, id);
    assert forall g :: Requests(s', g, id) <==> Requests(s, g, id);
    if Claimable(s) {
      forall i | 0 <= i < |p| && p[i].id == id ensures ListedCurrent(s', i, id) {
        assert ListedCurrent(s, i, id);
      }
    } else {
      TailKeepsListing(s, s', id);
    }
  }

  lemma SpawnKeepsIdentity(s: State, g: nat, id: TaskId)
    requires Identity(s, id) && s.pc.Claimed? && s.pc.pending != [] && g !in s.live
    ensures Identity(SpawnDispatch(s, g), id)
  {
    var s', p := SpawnDispatch(s, g), s.pc.pending;
    SpawnKeepsExclusive(s, g, id);
    assert forall h :: Requests(s', h, id) ==> Requests(s, h, id) || (h == g && p[0].id == id);
    if p[0].id == id {
      assert ListedCurrent(s, 0, id);
    }
    TailKeepsListing(s, s', id);
  }

  lemma PollerKeepsIdentity(c: Config, s: State, l: PollStep, id: TaskId)
    requires Identity(s, id) && PollNext(c, s, l).Some?
    ensures Identity(PollNext(c, s, l).value, id)
  {
    match l
    case ListTasks(p) => ListKeepsIdentity(s, p, id);
    case ClaimHead => ClaimKeepsIdentity(s, id);
    case Spawn(g) => SpawnKeepsIdentity(s, g, id);
    case _ => MoveKeepsIdentity(s, PollNext(c, s, l).value, id);
  }

  lemma StepKeepsIdentity(c: Config, s: State, l: Label, id: TaskId)
    requires Identity(s, id) && Next(c, s, l).Some? && Courteous(s, l, id)
    ensures Identity(Next(c, s, l).value, id)
  {
    match l
    case Outside(call) => CallKeepsIdentity(s, call, id);
    case Goroutine(g, go) => GoroutineKeepsIdentity(c, s, g, go, id);
    case Poller(poll) => PollerKeepsIdentity(c, s, poll, id);
    case _ => StepKeepsExclusive(c, s, l, id);
  }

  // ---------------------------------------------------------------- whole runs

  /** A possible run that respects the proviso for the name. */
  ghost predicate CourteousRun(c: Config, s: State, ls: seq<Label>, id: TaskId)
    decreases |ls|
  {
    ls == [] || (
      var ls0 := ls[..|ls| - 1];
      && CourteousRun(c, s, ls0, id)
      && Exec(c, s, ls).Some?
      && Courteous(Exec(c, s, ls0).value, ls[|ls| - 1], id))
  }

  lemma {:induction false} RunsKeepIdentity(c: Config, s: State, ls: seq<Label>, id: TaskId)
    requires Identity(s, id) && CourteousRun(c, s, ls, id)
    ensures Exec(c, s, ls).Some? && Identity(Exec(c, s, ls).value, id)
    decreases |ls|
  {
    if ls != [] {
      var ls0 := ls[..|ls| - 1];
      RunsKeepIdentity(c, s, ls0, id);
      StepKeepsIdentity(c, Exec(c, s, ls0).value, ls[|ls| - 1], id);
    }
  }
}
