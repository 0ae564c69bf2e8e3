/** One request at a time: as long as a task's name is not created again while the task is being
    dispatched, its row is RUNNING exactly while one dispatch of it is under way. Everything here is
    about one name; what happens to other names does not matter. */
module WorkerExclusion {
  import opened Options
  import opened TaskRows
  import opened WorkerSystem

  ghost predicate Requests(s: State, g: nat, id: TaskId) {
    g in s.live && s.live[g].phase == Requesting && s.live[g].id == id
  }

  /** The poller has claimed the task and not yet started its goroutine. */
  ghost predicate JustClaimed(s: State, id: TaskId) {
    s.pc.Claimed? && s.pc.pending != [] && s.pc.pending[0].id == id
  }

  /** The task is being dispatched. */
  ghost predicate Owned(s: State, id: TaskId) {
    JustClaimed(s, id) || exists g :: Requests(s, g, id)
  }

  /** The proviso: the name is not created again while the task is being dispatched. */
  ghost predicate Careful(s: State, l: Label, id: TaskId) {
    l.Outside? && l.call.CreateTask? && l.call.id == id ==> !Owned(s, id)
  }

  predicate IsRunning(rows: Rows, id: TaskId) { id in rows && rows[id].status == Running }

  ghost predicate Exclusive(s: State, id: TaskId) {
    && (forall g, h :: Requests(s, g, id) && Requests(s, h, id) ==> g == h)
    && (JustClaimed(s, id) ==> forall g :: !Requests(s, g, id))
    && (Owned(s, id) && id in s.tasks ==> IsRunning(s.tasks, id))
    && (IsRunning(s.tasks, id) && !s.pc.Starting? ==> Owned(s, id))
    && (s.pc.Starting? ==> s.live == map[])
  }

  // ---------------------------------------------------------------- steps

  /** An API call leaves a row as it was, removes it, creates it, or does run-now on it. */
  lemma CallOnRow(s: State, l: Call, id: TaskId)
    requires CallNext(s, l).Some? && id in CallNext(s, l).value.tasks
    ensures var s' := CallNext(s, l).value;
            || (l.CreateTask? && l.id == id && id !in s.tasks)
            || (id in s.tasks && s'.tasks[id] == s.tasks[id])
            || (id in s.tasks && l == RunTaskNow(id) && s'.tasks[id] == RunNow(s.tasks, id, s.clock)[id])
  {
  }

  /** Steps that start and end no dispatch of the task. */
  lemma BystanderKeepsExclusive(s: State, s': State, id: TaskId)
    requires Exclusive(s, id) && s'.pc.Starting? == s.pc.Starting?
    requires s.pc.Starting? ==> s'.live == map[]
    requires JustClaimed(s', id) <==> JustClaimed(s, id)
    requires forall g :: Requests(s', g, id) <==> Requests(s, g, id)
    requires id in s'.tasks ==>
               || (id in s.tasks && IsRunning(s'.tasks, id) == IsRunning(s.tasks, id))
               || (!Owned(s, id) && !IsRunning(s'.tasks, id))
    ensures Exclusive(s', id)
  {
    assert Owned(s', id) <==> Owned(s, id);
  }

  lemma CallKeepsExclusive(s: State, l: Call, id: TaskId)
    requires Exclusive(s, id) && CallNext(s, l).Some? && Careful(s, Outside(l), id)
    ensures Exclusive(CallNext(s, l).value, id)
  {
    CallFrame(s, l);
    if id in CallNext(s, l).value.tasks {
      CallOnRow(s, l, id);
    }
    BystanderKeepsExclusive(s, CallNext(s, l).value, id);
  }

  lemma GoroutineKeepsExclusive(c: Config, s: State, g: nat, l: GoStep, id: TaskId)
    requires Exclusive(s, id) && GoNext(c, s, g, l).Some?
    ensures Exclusive(GoNext(c, s, g, l).value, id)
  {
    GoFrame(c, s, g, l);
    var s' := GoNext(c, s, g, l).value;
    if Requests(s, g, id) {
      forall h ensures !Requests(s', h, id) {
        assert Requests(s', h, id) ==> Requests(s, h, id);
      }
      assert !Owned(s', id);
    } else {
      assert forall h :: Requests(s', h, id) <==> Requests(s, h, id);
      BystanderKeepsExclusive(s, s', id);
    }
  }

  lemma ClaimKeepsExclusive(s: State, id: TaskId)
    requires Exclusive(s, id) && s.pc.Slot? && s.pc.pending != []
    ensures Exclusive(ClaimOrSkip(s), id)
  {
    var s' := ClaimOrSkip(s);
    assert forall h :: Requests(s', h, id) <==> Requests(s, h, id);
    if s.pc.pending[0].id == id && Claimable(s) {
      assert !Owned(s, id);
    } else {
      BystanderKeepsExclusive(s, s', id);
    }
  }

  lemma SpawnKeepsExclusive(s: State, g: nat, id: TaskId)
    requires Exclusive(s, id) && s.pc.Claimed? && s.pc.pending != [] && g !in s.live
    ensures Exclusive(SpawnDispatch(s, g), id)
  {
    var s' := SpawnDispatch(s, g);
    if s.pc.pending[0].id == id {
      assert JustClaimed(s, id);
      assert Requests(s', g, id);
      forall h | Requests(s', h, id) ensures h == g {
        assert h != g ==> Requests(s, h, id);
      }
    } else {
      assert forall h :: Requests(s', h, id) <==> Requests(s, h, id);
      BystanderKeepsExclusive(s, s', id);
    }
  }

  lemma PollerKeepsExclusive(c: Config, s: State, l: PollStep, id: TaskId)
    requires Exclusive(s, id) && PollNext(c, s, l).Some?
    ensures Exclusive(PollNext(c, s, l).value, id)
  {
    match l
    case ClaimHead => ClaimKeepsExclusive(s, id);
    case Spawn(g) => SpawnKeepsExclusive(s, g, id);
    case _ =>
      PollFrame(c, s, l);
      BystanderKeepsExclusive(s, PollNext(c, s, l).value, id);
  }

  lemma StepKeepsExclusive(c: Config, s: State, l: Label, id: TaskId)
    requires Exclusive(s, id) && Next(c, s, l).Some? && Careful(s, l, id)
    ensures Exclusive(Next(c, s, l).value, id)
  {
    match l
    case Outside(call) => CallKeepsExclusive(s, call, id);
    case Goroutine(g, go) => GoroutineKeepsExclusive(c, s, g, go, id);
    case Poller(poll) => PollerKeepsExclusive(c, s, poll, id);
    case _ => assert !Owned(Next(c, s, l).value, id);
  }

  /** The proviso is exact: a step that does not respect it leaves a PENDING row beside a dispatch. */
  lemma ProvisoIsExact(c: Config, s: State, l: Label, id: TaskId)
    requires Exclusive(s, id) && Next(c, s, l).Some?
    ensures Exclusive(Next(c, s, l).value, id) <==> Careful(s, l, id)
  {
    if Careful(s, l, id) {
      StepKeepsExclusive(c, s, l, id);
    } else {
      var s' := Next(c, s, l).value;
      assert forall g :: Requests(s', g, id) <==> Requests(s, g, id);
      assert Owned(s', id) && id in s'.tasks && !IsRunning(s'.tasks, id);
    }
  }

  // ---------------------------------------------------------------- whole runs

  /** A possible run that respects the proviso for the name. */
  ghost predicate CarefulRun(c: Config, s: State, ls: seq<Label>, id: TaskId)
    decreases |ls|
  {
    ls == [] || (
      var ls0 := ls[..|ls| - 1];
      && CarefulRun(c, s, ls0, id)
      && Exec(c, s, ls).Some?
      && Careful(Exec(c, s, ls0).value, ls[|ls| - 1], id))
  }

  lemma {:induction false} RunsStayExclusive(c: Config, s: State, ls: seq<Label>, id: TaskId)
    requires Exclusive(s, id) && CarefulRun(c, s, ls, id)
    ensures Exec(c, s, ls).Some? && Exclusive(Exec(c, s, ls).value, id)
    decreases |ls|
  {
    if ls != [] {
      var ls0 := ls[..|ls| - 1];
      RunsStayExclusive(c, s, ls0, id);
      StepKeepsExclusive(c, Exec(c, s, ls0).value, ls[|ls| - 1], id);
    }
  }

  /** Every reachable state of a recovered worker, under the proviso: the row is RUNNING exactly when
      the poller has just claimed it or a request for it is out, never both, and never two requests. */
  lemma OneRequestPerRunningTask(c: Config, clock: int, ls: seq<Label>, id: TaskId)
    requires CarefulRun(c, Boot(clock), ls, id)
    ensures Exec(c, Boot(clock), ls).Some?
    ensures var s := Exec(c, Boot(clock), ls).value;
            && (forall g, h :: Requests(s, g, id) && Requests(s, h, id) ==> g == h)
            && (id in s.tasks && !s.pc.Starting? ==>
                  (s.tasks[id].status == Running <==> JustClaimed(s, id) || exists g :: Requests(s, g, id)))
            && !(JustClaimed(s, id) && exists g :: Requests(s, g, id))
  {
    RunsStayExclusive(c, Boot(clock), ls, id);
  }
}
