/** What the scheduler's steps write, column by column; which Fire calls are started; and what a row
    remembers of its attempts. */
module SchedulerEffects {
  import opened Options
  import opened JobConfigs
  import opened JobRows
  import opened SchedulerSystem
  import opened DueTimes

  predicate SameJob(s: State, s': State, id: JobId) {
    (id in s'.jobs <==> id in s.jobs) && (id in s.jobs ==> s'.jobs[id] == s.jobs[id])
  }

  predicate SameAttempts(j: Job, j': Job) { j'.lastAttempt == j.lastAttempt && j'.lastCode == j.lastCode }

  // ---------------------------------------------------------------- one job

  /** What a tick loop does to a job when it reaches its listed entry e. */
  lemma TickOnJob(w: World, s: State, k: nat, id: JobId)
    requires k in s.tickers && s.tickers[k].due != []
    ensures var s', t := Next(w, s, ClaimNext(k)).value, s.tickers[k];
            var e, next := t.due[0], w.cron(t.due[0].job.config, t.now);
            if id != e.id || id !in s.jobs then SameJob(s, s', id)
            else
              && id in s'.jobs && SameAttempts(s.jobs[id], s'.jobs[id]) && s'.jobs[id].config == s.jobs[id].config
              && (next.None? ==> s'.jobs[id].state == Paused && s'.jobs[id].nextRun == 0)
              && (next.Some? && s.jobs[id].state == Enabled && s.jobs[id].nextRun == e.job.nextRun ==>
                    s'.jobs[id].state == Enabled && s'.jobs[id].nextRun == next.value)
              && (next.Some? && !(s.jobs[id].state == Enabled && s.jobs[id].nextRun == e.job.nextRun) ==>
                    s'.jobs[id] == s.jobs[id])
  {
  }

  /** What the write half of a service call does to a job. */
  lemma CommitOnJob(w: World, s: State, k: nat, id: JobId)
    requires k in s.writes
    ensures var s', x := Next(w, s, Commit(k)).value, s.writes[k];
            if id != x.id then SameJob(s, s', id)
            else match x
            case Create(_, job) => id in s'.jobs && s'.jobs[id] == (if id in s.jobs then s.jobs[id] else job)
            case PutState(_, state, next) =>
              (id in s'.jobs <==> id in s.jobs)
              && (id in s.jobs ==>
                    && SameAttempts(s.jobs[id], s'.jobs[id]) && s'.jobs[id].config == s.jobs[id].config
                    && s'.jobs[id].state == state && s'.jobs[id].nextRun == next)
            case PutConfig(_, config, state, next) =>
              (id in s'.jobs <==> id in s.jobs)
              && (id in s.jobs ==>
                    && SameAttempts(s.jobs[id], s'.jobs[id]) && s'.jobs[id].config == config
                    && s'.jobs[id].state == state && s'.jobs[id].nextRun == next)
  {
  }

  /** Recording an attempt writes the attempt columns of its job and nothing else. */
  lemma RecordOnJob(w: World, s: State, f: nat, code: int, id: JobId)
    requires f in s.active && s.active[f].at.Some?
    ensures var s' := Next(w, s, Fire(f, Record(code))).value;
            if id != s.active[f].id || id !in s.jobs then SameJob(s, s', id)
            else
              && id in s'.jobs && s'.jobs[id].lastAttempt == s.active[f].at.value && s'.jobs[id].lastCode == code
              && s'.jobs[id].config == s.jobs[id].config && s'.jobs[id].state == s.jobs[id].state
              && s'.jobs[id].nextRun == s.jobs[id].nextRun
  {
  }

  /** Deleting removes one row; no other step changes a row: listings, read halves, run-now, the guard,
      time and crashes leave the table alone. */
  lemma OthersOnJob(w: World, s: State, l: Label, id: JobId)
    requires Next(w, s, l).Some? && !l.ClaimNext? && !l.Commit? && !(l.Fire? && l.go.Record?)
    ensures if l == Delete(id) then id !in Next(w, s, l).value.jobs else SameJob(s, Next(w, s, l).value, id)
  {
  }

  /** A Fire call whose turn it is becomes active exactly when no other of its job is, starts attempts at
      the clock, and gives the job free when it ends. */
  lemma FireOnGuard(s: State, f: nat, go: FireStep)
    requires FireNext(s, f, go).Some?
    ensures var s' := FireNext(s, f, go).value;
            match go
            case Acquire =>
              && f in s.waiting && f !in s'.waiting
              && (s.waiting[f].id !in s.running ==>
                    && f in s'.active && s'.active[f] == Active(s.waiting[f].id, None) && s.waiting[f].id in s'.running)
              && (s.waiting[f].id in s.running ==> s'.active == s.active && s'.running == s.running)
            case BeginAttempt => f in s'.active && s'.active[f] == Active(s.active[f].id, Some(s.clock))
            case Record(_) => f in s'.active && s'.active[f] == Active(s.active[f].id, None)
            case Finish => f !in s'.active && s.active[f].id !in s'.running
  {
  }

  /** When a step is possible. A crash, a deletion and the write half of a prepared call always are. */
  lemma StepIsPossible(w: World, s: State, l: Label)
    ensures Next(w, s, l).Some? <==>
              match l
              case Advance(to) => s.clock <= to
              case Crash => true
              case ListDueJobs(k, now, due) => k !in s.tickers && now <= s.clock && IsDueListing(s.jobs, now, due)
              case ClaimNext(k) => k in s.tickers && |s.tickers[k].due| > 0
              case EndTick(k) => k in s.tickers && |s.tickers[k].due| == 0
              case Prepare(k, x) => k !in s.writes && MayWrite(w, s, x)
              case Commit(k) => k in s.writes
              case Delete(_) => true
              case RunJob(id) => id in s.jobs
              case Fire(f, Acquire) => f in s.waiting
              case Fire(f, Record(_)) => f in s.active && s.active[f].at.Some?
              case Fire(f, _) => f in s.active && s.active[f].at.None?
  {
  }

  // ---------------------------------------------------------------- started calls

  /** The Fire call that the step starts: for a won compare-and-swap, of the job and for the due time it
      took; for run-now, of the job and for the current time, whatever the state of the job. */
  ghost function Starts(w: World, s: State, l: Label): seq<Firing> {
    if l.RunJob? then [Firing(l.id, s.clock)]
    else if l.ClaimNext? && l.k in s.tickers && s.tickers[l.k].due != [] && Wins(w, s, l, s.tickers[l.k].due[0].id)
    then [Firing(s.tickers[l.k].due[0].id, s.tickers[l.k].due[0].job.nextRun)]
    else []
  }

  ghost function Started(w: World, s: State, ls: seq<Label>): seq<Firing>
    requires Exec(w, s, ls).Some?
    decreases |ls|
  {
    if ls == [] then [] else
      var ls0 := ls[..|ls| - 1];
      Started(w, s, ls0) + Starts(w, Exec(w, s, ls0).value, ls[|ls| - 1])
  }

  /** The calls under way are among those started, each as it was started. */
  ghost predicate FromStarted(s: State, started: seq<Firing>) {
    && s.fires == |started|
    && (forall f :: f in s.waiting ==> f < |started| && s.waiting[f] == started[f])
    && (forall f :: f in s.active ==> f < |started| && s.active[f].id == started[f].id)
  }

  lemma FireKeepsStarted(s: State, f: nat, go: FireStep, started: seq<Firing>)
    requires FromStarted(s, started) && FireNext(s, f, go).Some?
    ensures FromStarted(FireNext(s, f, go).value, started)
  {
  }

  lemma StepKeepsStarted(w: World, s: State, l: Label, started: seq<Firing>)
    requires FromStarted(s, started) && Next(w, s, l).Some?
    ensures FromStarted(Next(w, s, l).value, started + Starts(w, s, l))
  {
    if Starts(w, s, l) == [] {
      assert started + Starts(w, s, l) == started;
    }
    match l
    case Fire(f, go) => FireKeepsStarted(s, f, go, started);
    case RunJob(_) =>
    case ClaimNext(_) =>
    case _ =>
  }

  /** In every run the Fire calls started are those of the won compare-and-swaps and of run-now, in
      order, each for its job and due time, and only those wait or are active. */
  lemma {:induction false} EveryFireIsAccountedFor(w: World, clock: int, ls: seq<Label>)
    requires Exec(w, Boot(clock), ls).Some?
    ensures FromStarted(Exec(w, Boot(clock), ls).value, Started(w, Boot(clock), ls))
    decreases |ls|
  {
    if ls != [] {
      var ls0 := ls[..|ls| - 1];
      EveryFireIsAccountedFor(w, clock, ls0);
      StepKeepsStarted(w, Exec(w, Boot(clock), ls0).value, ls[|ls| - 1], Started(w, Boot(clock), ls0));
    }
  }

  // ---------------------------------------------------------------- attempt columns

  datatype Attempt = Attempt(at: int, code: int)

  /** The step records an attempt of the job. */
  ghost predicate RecordsFor(s: State, l: Label, id: JobId) {
    l.Fire? && l.go.Record? && l.f in s.active && s.active[l.f].id == id && s.active[l.f].at.Some?
  }

  /** The step creates the job. */
  ghost predicate CreatesJob(s: State, l: Label, id: JobId) {
    l.Commit? && l.k in s.writes && s.writes[l.k].Create? && s.writes[l.k].id == id && id !in s.jobs
  }

  /** The last attempt recorded for the job since it was created; zeros if there is none. */
  ghost function LastAttempt(w: World, s: State, ls: seq<Label>, id: JobId): Attempt
    requires Exec(w, s, ls).Some?
    decreases |ls|
  {
    if ls == [] then Attempt(0, 0) else
      var ls0, l := ls[..|ls| - 1], ls[|ls| - 1];
      var s0 := Exec(w, s, ls0).value;
      if RecordsFor(s0, l, id) then Attempt(s0.active[l.f].at.value, l.go.code)
      else if CreatesJob(s0, l, id) then Attempt(0, 0)
      else LastAttempt(w, s, ls0, id)
  }

  ghost predicate Remembers(s: State, id: JobId, last: Attempt) {
    && (id in s.jobs ==> Attempt(s.jobs[id].lastAttempt, s.jobs[id].lastCode) == last)
    && (forall k :: k in s.writes && s.writes[k].Create? ==>
          s.writes[k].job.lastAttempt == 0 && s.writes[k].job.lastCode == 0)
  }

  ghost function AttemptAfter(s: State, l: Label, id: JobId, last: Attempt): Attempt {
    if RecordsFor(s, l, id) then Attempt(s.active[l.f].at.value, l.go.code)
    else if CreatesJob(s, l, id) then Attempt(0, 0)
    else last
  }

  lemma WritesStartAtZero(w: World, s: State, l: Label, id: JobId, last: Attempt)
    requires Remembers(s, id, last) && Next(w, s, l).Some?
    ensures var s' := Next(w, s, l).value;
            forall k :: k in s'.writes && s'.writes[k].Create? ==>
              s'.writes[k].job.lastAttempt == 0 && s'.writes[k].job.lastCode == 0
  {
  }

  lemma StepRemembers(w: World, s: State, l: Label, id: JobId, last: Attempt)
    requires Remembers(s, id, last) && Next(w, s, l).Some?
    ensures Remembers(Next(w, s, l).value, id, AttemptAfter(s, l, id, last))
  {
    WritesStartAtZero(w, s, l, id, last);
    match l
    case ClaimNext(k) => TickOnJob(w, s, k, id);
    case Commit(k) => CommitOnJob(w, s, k, id);
    case Fire(f, go) =>
      if go.Record? {
        RecordOnJob(w, s, f, go.code, id);
      } else {
        OthersOnJob(w, s, l, id);
      }
    case _ => OthersOnJob(w, s, l, id);
  }

  /** In every reachable state the attempt columns of a job are the start and the code of the last
      attempt recorded since the job was created. */
  lemma {:induction false} RowRemembersLastAttempt(w: World, clock: int, ls: seq<Label>, id: JobId)
    requires Exec(w, Boot(clock), ls).Some?
    ensures Remembers(Exec(w, Boot(clock), ls).value, id, LastAttempt(w, Boot(clock), ls, id))
    decreases |ls|
  {
    if ls != [] {
      var ls0 := ls[..|ls| - 1];
      RowRemembersLastAttempt(w, clock, ls0, id);
      StepRemembers(w, Exec(w, Boot(clock), ls0).value, ls[|ls| - 1], id, LastAttempt(w, Boot(clock), ls0, id));
    }
  }
}
