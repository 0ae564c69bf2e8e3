/** The dispatcher's in-flight guard: one execution of a job at a time, across tick loops and
    run-now calls. */
module FireGuard {
  import opened Options
  import opened JobConfigs
  import opened JobRows
  import opened SchedulerSystem

  ghost predicate Holds(active: map<nat, Active>, f: nat, id: JobId) { f in active && active[f].id == id }

  /** `running` is exactly the set of jobs with an active Fire, and no two active Fires share a job. */
  ghost predicate Owned(active: map<nat, Active>, running: set<JobId>) {
    && (forall f :: f in active ==> active[f].id in running)
    && (forall f, g :: f in active && g in active && active[f].id == active[g].id ==> f == g)
    && (forall id :: id in running ==> exists f :: Holds(active, f, id))
  }

  /** Fire calls waiting or active carry different numbers, all used up. */
  ghost predicate Numbered(active: set<nat>, waiting: set<nat>, fires: nat) {
    && active !! waiting
    && (forall f :: f in active ==> f < fires)
    && (forall f :: f in waiting ==> f < fires)
  }

  ghost predicate Guarded(s: State) {
    Owned(s.active, s.running) && Numbered(s.active.Keys, s.waiting.Keys, s.fires)
  }

  lemma AcquireKeepsOwned(active: map<nat, Active>, running: set<JobId>, f: nat, id: JobId)
    requires Owned(active, running) && f !in active && id !in running
    ensures Owned(active[f := Active(id, None)], running + {id})
  {
    var active' := active[f := Active(id, None)];
    assert Holds(active', f, id);
    forall u | u in running ensures exists h :: Holds(active', h, u) {
      var h :| Holds(active, h, u);
      assert Holds(active', h, u);
    }
  }

  /** Changing the attempt of an active Fire changes neither the guard nor who is active. */
  lemma AttemptKeepsOwned(active: map<nat, Active>, running: set<JobId>, f: nat, at: Option<int>)
    requires Owned(active, running) && f in active
    ensures Owned(active[f := active[f].(at := at)], running)
  {
    var active' := active[f := active[f].(at := at)];
    forall u | u in running ensures exists h :: Holds(active', h, u) {
      var h :| Holds(active, h, u);
      assert Holds(active', h, u);
    }
  }

  lemma FinishKeepsOwned(active: map<nat, Active>, running: set<JobId>, f: nat)
    requires Owned(active, running) && f in active
    ensures Owned(active - {f}, running - {active[f].id})
  {
    forall u | u in running - {active[f].id} ensures exists h :: Holds(active - {f}, h, u) {
      var h :| Holds(active, h, u);
      assert Holds(active - {f}, h, u);
    }
  }

  lemma FireKeepsGuarded(s: State, f: nat, go: FireStep)
    requires Guarded(s) && FireNext(s, f, go).Some?
    ensures Guarded(FireNext(s, f, go).value)
  {
    match go
    case Acquire =>
      if s.waiting[f].id !in s.running {
        AcquireKeepsOwned(s.active, s.running, f, s.waiting[f].id);
      }
    case BeginAttempt => AttemptKeepsOwned(s.active, s.running, f, Some(s.clock));
    case Record(_) => AttemptKeepsOwned(s.active, s.running, f, None);
    case Finish => FinishKeepsOwned(s.active, s.running, f);
  }

  /** The other steps start calls, end all of them, or leave them alone. */
  lemma OtherStepsStart(w: World, s: State, l: Label)
    requires Next(w, s, l).Some? && !l.Fire? && !l.Crash?
    ensures var s' := Next(w, s, l).value;
            && s'.active == s.active && s'.running == s.running && s.fires <= s'.fires
            && forall f :: f in s'.waiting ==> f in s.waiting || s.fires <= f < s'.fires
  {
  }

  lemma StepKeepsGuarded(w: World, s: State, l: Label)
    requires Guarded(s) && Next(w, s, l).Some?
    ensures Guarded(Next(w, s, l).value)
  {
    match l
    case Fire(f, go) => FireKeepsGuarded(s, f, go);
    case Crash =>
    case _ => OtherStepsStart(w, s, l);
  }

  /** No recorded attempt is in the future, and one in progress started no earlier than the last
      recorded one of its job. */
  ghost predicate Past(clock: int, jobs: Jobs, active: map<nat, Active>) {
    && (forall id :: id in jobs ==> jobs[id].lastAttempt <= clock)
    && (forall f :: f in active && active[f].at.Some? ==>
          && 0 <= active[f].at.value <= clock
          && (active[f].id in jobs ==> jobs[active[f].id].lastAttempt <= active[f].at.value))
  }

  ghost predicate AttemptsPast(s: State) {
    && s.clock >= 0 && Past(s.clock, s.jobs, s.active)
    && (forall k :: k in s.writes && s.writes[k].Create? ==> s.writes[k].job.lastAttempt == 0)
  }

  lemma FireKeepsPast(s: State, f: nat, go: FireStep)
    requires Guarded(s) && AttemptsPast(s) && FireNext(s, f, go).Some?
    ensures AttemptsPast(FireNext(s, f, go).value)
  {
    match go
    case Acquire =>
    case BeginAttempt =>
    case Record(_) =>
    case Finish =>
  }

  /** The other steps record no attempt: a row keeps its own or starts at zero. */
  lemma OtherStepsRecordNothing(w: World, s: State, l: Label)
    requires AttemptsPast(s) && Next(w, s, l).Some? && !l.Fire?
    ensures var s' := Next(w, s, l).value;
            && s.clock <= s'.clock
            && (s'.active == s.active || s'.active == map[])
            && (forall id :: id in s'.jobs ==>
                  s'.jobs[id].lastAttempt == if id in s.jobs then s.jobs[id].lastAttempt else 0)
            && (forall k :: k in s'.writes && s'.writes[k].Create? ==> s'.writes[k].job.lastAttempt == 0)
  {
  }

  lemma StepKeepsPast(w: World, s: State, l: Label)
    requires Guarded(s) && AttemptsPast(s) && Next(w, s, l).Some?
    ensures AttemptsPast(Next(w, s, l).value)
  {
    match l
    case Fire(f, go) => FireKeepsPast(s, f, go);
    case _ => OtherStepsRecordNothing(w, s, l);
  }

  lemma {:induction false} RunsStayGuarded(w: World, clock: int, ls: seq<Label>)
    requires clock >= 0 && Exec(w, Boot(clock), ls).Some?
    ensures Guarded(Exec(w, Boot(clock), ls).value) && AttemptsPast(Exec(w, Boot(clock), ls).value)
    decreases |ls|
  {
    if ls != [] {
      var ls0, l := ls[..|ls| - 1], ls[|ls| - 1];
      RunsStayGuarded(w, clock, ls0);
      StepKeepsGuarded(w, Exec(w, Boot(clock), ls0).value, l);
      StepKeepsPast(w, Exec(w, Boot(clock), ls0).value, l);
    }
  }

  /** In every reachable state at most one Fire of a job is active, and one is exactly when the
      guard says so. */
  lemma OneFirePerJob(w: World, clock: int, ls: seq<Label>, id: JobId)
    requires clock >= 0 && Exec(w, Boot(clock), ls).Some?
    ensures var s := Exec(w, Boot(clock), ls).value;
            && (forall f, g :: f in s.active && g in s.active && s.active[f].id == id && s.active[g].id == id ==>
                  f == g)
            && (id in s.running <==> exists f :: f in s.active && s.active[f].id == id)
  {
    RunsStayGuarded(w, clock, ls);
    var s := Exec(w, Boot(clock), ls).value;
    if id in s.running {
      var f :| Holds(s.active, f, id);
    }
  }

  /** Of the steps of a Fire call only Record changes last_attempt_at, to the start of an attempt that
      began no earlier than the one recorded last. */
  lemma FireRecordsForward(s: State, f: nat, go: FireStep, id: JobId)
    requires Past(s.clock, s.jobs, s.active) && FireNext(s, f, go).Some? && id in s.jobs
    ensures id in FireNext(s, f, go).value.jobs
    ensures s.jobs[id].lastAttempt <= FireNext(s, f, go).value.jobs[id].lastAttempt
  {
    if go.Record? {
      assert FireNext(s, f, go).value.jobs == RecordAttempt(s.jobs, s.active[f].id, s.active[f].at.value, go.code);
    }
  }

  /** In a row's life, from creation to deletion, last_attempt_at never goes backwards. */
  lemma LastAttemptNeverGoesBack(w: World, clock: int, ls: seq<Label>, l: Label, id: JobId)
    requires clock >= 0 && Exec(w, Boot(clock), ls).Some?
    requires Next(w, Exec(w, Boot(clock), ls).value, l).Some?
    ensures var s := Exec(w, Boot(clock), ls).value;
            var s' := Next(w, s, l).value;
            id in s.jobs && id in s'.jobs ==> s.jobs[id].lastAttempt <= s'.jobs[id].lastAttempt
  {
    RunsStayGuarded(w, clock, ls);
    var s := Exec(w, Boot(clock), ls).value;
    if id in s.jobs {
      match l
      case Fire(f, go) => FireRecordsForward(s, f, go, id);
      case _ => OtherStepsRecordNothing(w, s, l);
    }
  }

  // ---------------------------------------------------------------- executions do not interleave

  /** Fire number f is over: it is neither waiting nor active, and its number is used up. */
  ghost predicate Over(s: State, f: nat) { f < s.fires && f !in s.waiting && f !in s.active }

  /** Where a Fire call stands does not change, except that an active one may end. */
  ghost predicate SameOrOver(s: State, s': State, f: nat) {
    && (Over(s, f) ==> Over(s', f))
    && (f in s.active ==> Over(s', f) || (f in s'.active && s'.active[f].id == s.active[f].id))
  }

  lemma FireSameOrOver(s: State, g: nat, go: FireStep, f: nat)
    requires Guarded(s) && FireNext(s, g, go).Some?
    ensures SameOrOver(s, FireNext(s, g, go).value, f)
  {
  }

  lemma ActiveUntilOver(w: World, s: State, l: Label, f: nat)
    requires Guarded(s) && Next(w, s, l).Some?
    ensures SameOrOver(s, Next(w, s, l).value, f)
  {
    match l
    case Fire(g, go) => FireSameOrOver(s, g, go, f);
    case Crash =>
    case _ => OtherStepsStart(w, s, l);
  }

  lemma {:induction false} ActiveUntilOverRun(w: World, s: State, ls: seq<Label>, f: nat)
    requires Guarded(s) && Exec(w, s, ls).Some?
    ensures Guarded(Exec(w, s, ls).value)
    ensures SameOrOver(s, Exec(w, s, ls).value, f)
    decreases |ls|
  {
    if ls != [] {
      var ls0 := ls[..|ls| - 1];
      ActiveUntilOverRun(w, s, ls0, f);
      StepKeepsGuarded(w, Exec(w, s, ls0).value, ls[|ls| - 1]);
      ActiveUntilOver(w, Exec(w, s, ls0).value, ls[|ls| - 1], f);
    }
  }

  /** The step records an attempt of Fire number f for the job. */
  ghost predicate Records(s: State, l: Label, f: nat, id: JobId) {
    l.Fire? && l.f == f && l.go.Record? && f in s.active && s.active[f].id == id && s.active[f].at.Some?
  }

  /** The state before step i of a run from the start. */
  ghost function Before(w: World, clock: int, ls: seq<Label>, i: nat): State
    requires i <= |ls| && Exec(w, Boot(clock), ls[..i]).Some?
  {
    Exec(w, Boot(clock), ls[..i]).value
  }

  lemma RunBetween(w: World, clock: int, ls: seq<Label>, i: nat, j: nat)
    requires i <= j <= |ls| && Exec(w, Boot(clock), ls[..j]).Some?
    ensures Exec(w, Boot(clock), ls[..i]).Some?
    ensures Exec(w, Before(w, clock, ls, i), ls[i..j]) == Some(Before(w, clock, ls, j))
  {
    assert ls[..j] == ls[..i] + ls[i..j];
    ExecConcat(w, Boot(clock), ls[..i], ls[i..j]);
  }

  /** In any run, the recorded attempts of one job are grouped by execution: if one Fire records an
      attempt before and after step j, an attempt of the job recorded by step j is its own. */
  lemma ExecutionsDoNotInterleave(w: World, clock: int, ls: seq<Label>, i: nat, j: nat, k: nat,
                                  f: nat, g: nat, id: JobId)
    requires clock >= 0 && i <= j <= k < |ls| && Exec(w, Boot(clock), ls[..k]).Some?
    requires Exec(w, Boot(clock), ls[..i]).Some? && Records(Before(w, clock, ls, i), ls[i], f, id)
    requires Exec(w, Boot(clock), ls[..j]).Some? && Records(Before(w, clock, ls, j), ls[j], g, id)
    requires Records(Before(w, clock, ls, k), ls[k], f, id)
    ensures f == g
  {
    RunsStayGuarded(w, clock, ls[..i]);
    RunBetween(w, clock, ls, i, j);
    RunBetween(w, clock, ls, j, k);
    ActiveUntilOverRun(w, Before(w, clock, ls, i), ls[i..j], f);
    ActiveUntilOverRun(w, Before(w, clock, ls, j), ls[j..k], f);
  }

  // ---------------------------------------------------------------- the guard object

  /** The dispatcher's guard, changed under its mutex. */
  class Dispatcher {
    var running: set<JobId>

    constructor ()
      ensures running == {}
    {
      running := {};
    }

    /** True for the one caller that may run the job. */
    method AcquireJob(id: JobId) returns (acquired: bool)
      modifies this
      ensures acquired <==> id !in old(running)
      ensures running == old(running) + {id}
      ensures forall s: State, f: nat :: s.running == old(running) && f in s.waiting && s.waiting[f].id == id ==>
                AcquireStep(s, f).running == running && (acquired ==> f in AcquireStep(s, f).active)
    {
      acquired := id !in running;
      running := running + {id};
    }

    method ReleaseJob(id: JobId)
      modifies this
      ensures running == old(running) - {id}
    {
      running := running - {id};
    }
  }
}
