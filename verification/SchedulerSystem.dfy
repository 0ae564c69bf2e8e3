/** The cron scheduler as a labelled transition system: any number of tick loops with stale
    listings, service calls split into their read and write halves, the dispatcher with its
    in-flight guard, the clock, and process restarts. */
module SchedulerSystem {
  import opened Options
  import opened JobConfigs
  import opened JobRows

  /** A tick loop: its clock reading and the listed jobs it has not dealt with yet. */
  datatype Ticker = Ticker(now: int, due: seq<Listed>)

  /** The write half of a service call, computed from what the call read. */
  datatype Write =
    | Create(id: JobId, job: Job)
    | PutState(id: JobId, state: JobState, next: int)
    | PutConfig(id: JobId, config: JobConfig, state: JobState, next: int)

  /** A Fire call: waiting for the guard, then active; `at` is the start of its current attempt. */
  datatype Firing = Firing(id: JobId, scheduled: int)
  datatype Active = Active(id: JobId, at: Option<int>)

  /** Fire calls are numbered in the order they are started; `fires` is the next number. */
  datatype State = State(clock: int, jobs: Jobs, tickers: map<nat, Ticker>, writes: map<nat, Write>,
                         waiting: map<nat, Firing>, active: map<nat, Active>, running: set<JobId>, fires: nat)

  datatype Label =
    | Advance(to: int)
    | Crash
    // tick loops
    | ListDueJobs(k: nat, now: int, due: seq<Listed>)
    | ClaimNext(k: nat)
    | EndTick(k: nat)
    // service calls
    | Prepare(k: nat, write: Write)
    | Commit(k: nat)
    | Delete(id: JobId)
    | RunJob(id: JobId)
    // dispatcher
    | Fire(f: nat, go: FireStep)

  /** The steps of one Fire call: the guard, and then attempts, each recorded, until it returns. */
  datatype FireStep =
    | Acquire
    | BeginAttempt
    | Record(code: int)
    | Finish

  /** What the scheduler does not decide: NextRun, and which configurations Create and Update may
      write; for the latter see StorableBy. */
  datatype World = World(cron: Cron, storable: JobConfig -> bool)

  /** The configurations that pass ApplyDefaults and Validate and are as the table keeps them. */
  function StorableBy(parses: (string, string, string) -> bool): JobConfig -> bool {
    c => Valid(c, parses) && Stored(c) == c
  }

  /** The next_run_at that goes with a state: NextRun of the clock for ENABLED, zero for PAUSED. */
  predicate Scheduled(w: World, c: JobConfig, state: JobState, next: int, clock: int) {
    if state == Enabled then w.cron(c, clock) == Some(next) else next == 0
  }

  /** What a service call may write, given what it reads now: Create; Pause and Resume; Update,
      which keeps the state it read and, for a paused job, the next_run_at it read. */
  predicate MayWrite(w: World, s: State, x: Write) {
    match x
    case Create(id, job) =>
      && w.storable(job.config) && Scheduled(w, job.config, job.state, job.nextRun, s.clock)
      && job.lastAttempt == 0 && job.lastCode == 0
    case PutState(id, state, next) =>
      id in s.jobs && Scheduled(w, s.jobs[id].config, state, next, s.clock)
    case PutConfig(id, config, state, next) =>
      && id in s.jobs && w.storable(config) && state == s.jobs[id].state
      && (if state == Enabled then w.cron(config, s.clock) == Some(next) else next == s.jobs[id].nextRun)
  }

  function Apply(jobs: Jobs, x: Write): Jobs {
    match x
    case Create(id, job) => Insert(jobs, id, job)
    case PutState(id, state, next) => SetState(jobs, id, state, next)
    case PutConfig(id, config, state, next) => Update(jobs, id, config, state, next)
  }

  /** The head of a tick loop: pause the job, or compare-and-swap and start a firing. */
  function TickStep(w: World, s: State, k: nat): State
    requires k in s.tickers && s.tickers[k].due != []
  {
    var t := s.tickers[k];
    var e := t.due[0];
    var s1 := s.(tickers := s.tickers[k := t.(due := t.due[1..])]);
    var next := w.cron(e.job.config, t.now);
    if next.None? then s1.(jobs := SetState(s.jobs, e.id, Paused, 0))
    else if Claimable(s.jobs, e.id, e.job.nextRun) then
      s1.(jobs := Claim(s.jobs, e.id, e.job.nextRun, next.value),
          waiting := s.waiting[s.fires := Firing(e.id, e.job.nextRun)], fires := s.fires + 1)
    else s1
  }

  /** Fire's first statement: skip the run when one of the same job is in flight. */
  function AcquireStep(s: State, f: nat): State
    requires f in s.waiting
  {
    var id := s.waiting[f].id;
    if id in s.running then s.(waiting := s.waiting - {f})
    else s.(waiting := s.waiting - {f}, running := s.running + {id}, active := s.active[f := Active(id, None)])
  }

  function FireNext(s: State, f: nat, go: FireStep): Option<State> {
    match go
    case Acquire => if f in s.waiting then Some(AcquireStep(s, f)) else None
    case BeginAttempt =>
      if f in s.active && s.active[f].at.None?
      then Some(s.(active := s.active[f := s.active[f].(at := Some(s.clock))])) else None
    case Record(code) =>
      if f in s.active && s.active[f].at.Some?
      then Some(s.(jobs := RecordAttempt(s.jobs, s.active[f].id, s.active[f].at.value, code),
                   active := s.active[f := s.active[f].(at := None)])) else None
    case Finish =>
      if f in s.active && s.active[f].at.None?
      then Some(s.(running := s.running - {s.active[f].id}, active := s.active - {f})) else None
  }

  function Next(w: World, s: State, l: Label): Option<State> {
    match l
    case Advance(to) => if s.clock <= to then Some(s.(clock := to)) else None
    case Crash => Some(s.(tickers := map[], writes := map[], waiting := map[], active := map[], running := {}))
    case ListDueJobs(k, now, due) =>
      if k !in s.tickers && now <= s.clock && IsDueListing(s.jobs, now, due)
      then Some(s.(tickers := s.tickers[k := Ticker(now, due)])) else None
    case ClaimNext(k) => if k in s.tickers && s.tickers[k].due != [] then Some(TickStep(w, s, k)) else None
    case EndTick(k) => if k in s.tickers && s.tickers[k].due == [] then Some(s.(tickers := s.tickers - {k})) else None
    case Prepare(k, x) =>
      if k !in s.writes && MayWrite(w, s, x) then Some(s.(writes := s.writes[k := x])) else None
    case Commit(k) =>
      if k in s.writes then Some(s.(jobs := Apply(s.jobs, s.writes[k]), writes := s.writes - {k})) else None
    case Delete(id) => Some(s.(jobs := s.jobs - {id}))
    case RunJob(id) =>
      if id in s.jobs
      then Some(s.(waiting := s.waiting[s.fires := Firing(id, s.clock)], fires := s.fires + 1)) else None
    case Fire(f, go) => FireNext(s, f, go)
  }

  function Exec(w: World, s: State, ls: seq<Label>): Option<State>
    decreases |ls|
  {
    if ls == [] then Some(s)
    else
      var r := Exec(w, s, ls[..|ls| - 1]);
      if r.None? then None else Next(w, r.value, ls[|ls| - 1])
  }

  lemma ExecExtend(w: World, s: State, ls: seq<Label>, l: Label)
    ensures Exec(w, s, ls + [l]) == var r := Exec(w, s, ls); if r.None? then None else Next(w, r.value, l)
  {
    assert (ls + [l])[..|ls|] == ls;
  }

  /** A run split after its first part. */
  lemma {:induction false} ExecConcat(w: World, s: State, a: seq<Label>, b: seq<Label>)
    ensures Exec(w, s, a + b) == var r := Exec(w, s, a); if r.None? then None else Exec(w, r.value, b)
    decreases |b|
  {
    if b == [] {
      assert a + b == a;
    } else {
      var b0 := b[..|b| - 1];
      ExecConcat(w, s, a, b0);
      assert (a + b)[..|a + b| - 1] == a + b0;
    }
  }

  function Boot(clock: int): State {
    State(clock, map[], map[], map[], map[], map[], {}, 0)
  }

  // ---------------------------------------------------------------- rows

  /** ENABLED exactly when next_run_at is positive, and a valid configuration. */
  ghost predicate SoundJob(w: World, j: Job) {
    (j.state == Enabled <==> j.nextRun > 0) && j.nextRun >= 0 && w.storable(j.config)
  }

  ghost predicate SoundWrite(w: World, x: Write) {
    match x
    case Create(id, job) => SoundJob(w, job)
    case PutState(id, state, next) => (state == Enabled <==> next > 0) && next >= 0
    case PutConfig(id, config, state, next) =>
      (state == Enabled <==> next > 0) && next >= 0 && w.storable(config)
  }

  ghost predicate SoundTicker(s: State, t: Ticker) {
    t.now <= s.clock && forall i :: 0 <= i < |t.due| ==> 0 < t.due[i].job.nextRun <= t.now
  }

  ghost predicate Sound(w: World, s: State) {
    && s.clock >= 0
    && (forall id :: id in s.jobs ==> SoundJob(w, s.jobs[id]))
    && (forall k :: k in s.writes ==> SoundWrite(w, s.writes[k]))
    && (forall k :: k in s.tickers ==> SoundTicker(s, s.tickers[k]))
  }

  lemma TickStepSound(w: World, s: State, k: nat)
    requires Advancing(w.cron) && Sound(w, s) && k in s.tickers && s.tickers[k].due != []
    ensures Sound(w, TickStep(w, s, k))
  {
  }

  lemma PreparedSound(w: World, s: State, x: Write)
    requires Advancing(w.cron) && Sound(w, s) && MayWrite(w, s, x)
    ensures SoundWrite(w, x)
  {
  }

  lemma CommitSound(w: World, s: State, x: Write)
    requires Sound(w, s) && SoundWrite(w, x)
    ensures forall id :: id in Apply(s.jobs, x) ==> SoundJob(w, Apply(s.jobs, x)[id])
  {
  }

  lemma FireSound(w: World, s: State, f: nat, go: FireStep)
    requires Sound(w, s) && FireNext(s, f, go).Some?
    ensures Sound(w, FireNext(s, f, go).value)
  {
  }

  /** Steps that at most let time pass, remove rows or tickers, or add a listing. */
  lemma QuietStepSound(w: World, s: State, s': State)
    requires Sound(w, s) && s.clock <= s'.clock
    requires forall id :: id in s'.jobs ==> id in s.jobs && s'.jobs[id] == s.jobs[id]
    requires forall k :: k in s'.writes ==> k in s.writes && s'.writes[k] == s.writes[k]
    requires forall k :: k in s'.tickers ==>
               (k in s.tickers && s'.tickers[k] == s.tickers[k]) || SoundTicker(s, s'.tickers[k])
    ensures Sound(w, s')
  {
    forall k | k in s'.tickers ensures SoundTicker(s', s'.tickers[k]) {
      assert SoundTicker(s, s'.tickers[k]);
    }
  }

  lemma StepKeepsSound(w: World, s: State, l: Label)
    requires Advancing(w.cron) && Sound(w, s) && Next(w, s, l).Some?
    ensures Sound(w, Next(w, s, l).value)
  {
    match l
    case ClaimNext(k) => TickStepSound(w, s, k);
    case Prepare(k, x) => PreparedSound(w, s, x);
    case Commit(k) => CommitSound(w, s, s.writes[k]);
    case Fire(f, go) => FireSound(w, s, f, go);
    case _ => QuietStepSound(w, s, Next(w, s, l).value);
  }

  /** Every row of every reachable state is ENABLED exactly when it has a next run, and its
      configuration is a storable one (with StorableBy: it still passes validation), however the read
      and write halves of the calls interleave. */
  lemma {:induction false} RowsStaySound(w: World, clock: int, ls: seq<Label>)
    requires Advancing(w.cron) && clock >= 0 && Exec(w, Boot(clock), ls).Some?
    ensures Sound(w, Exec(w, Boot(clock), ls).value)
    decreases |ls|
  {
    if ls != [] {
      RowsStaySound(w, clock, ls[..|ls| - 1]);
      StepKeepsSound(w, Exec(w, Boot(clock), ls[..|ls| - 1]).value, ls[|ls| - 1]);
    }
  }
}
