/** Runs that show what the provisos of the theorems are for. */
module Scenarios {
  import opened Options
  import opened TaskRows
  import opened TokenBucket
  import W = WorkerSystem
  import WorkerExclusion
  import opened JobConfigs
  import J = JobRows
  import S = SchedulerSystem
  import DueTimes

  // ---------------------------------------------------------------- a name created again

  /** One poll of a single queue that claims and dispatches a single task. */
  function OnePoll(q: W.Queue, e: Listed, g: nat): seq<W.Label> {
    [W.Poller(W.BeginPoll([q])), W.Poller(W.NextQueue), W.Poller(W.ReadLimits), W.Poller(W.ListTasks([e])),
     W.Poller(W.TakeSlot), W.Poller(W.ClaimHead), W.Poller(W.Spawn(g)), W.Poller(W.TakeSlot), W.Poller(W.NextQueue)]
  }

  /** The state a poll finds: one running queue, one due task, a free slot and a full bucket. */
  ghost predicate Ready(c: W.Config, s: W.State, q: W.Queue, e: Listed) {
    && s.pc.Idle? && s.queues == map[q.id := q] && !q.paused && q.rate == 1
    && s.tasks == map[e.id := e.task] && Due(e.task, q.id, s.clock)
    && s.sem < c.slots && W.Inflight(s.inflight, q.id) < q.concurrency
    && (q.id in s.buckets ==> s.buckets[q.id].tokens == 0.0 && s.buckets[q.id].last + 1000 <= s.clock)
  }

  lemma FullBucket(s: W.State, v: W.Visit)
    requires v.queue.rate == 1 && v.now == s.clock
    requires v.queue.id in s.buckets ==>
               s.buckets[v.queue.id].tokens == 0.0 && s.buckets[v.queue.id].last + 1000 <= s.clock
    ensures W.Refilled(s.buckets, v) == Bucket(1.0, v.now) && Truncate(1.0) == 1
  {
    if v.queue.id in s.buckets {
      EarnedGrows(1, 1000, v.now - s.buckets[v.queue.id].last);
    }
  }

  /** The states the poll passes through. */
  ghost function PollStates(c: W.Config, s: W.State, q: W.Queue, e: Listed, g: nat): seq<W.State>
    requires Ready(c, s, q, e)
  {
    var v := W.Visit(s.clock, q, []);
    var s3 := s.(buckets := s.buckets[q.id := Bucket(1.0, s.clock)], pc := W.Limited(v, 1));
    var s5 := s3.(sem := s.sem + 1, pc := W.Slot(v, [e]));
    var s6 := s5.(tasks := map[e.id := e.task.(status := Running)], pc := W.Claimed(v, [e]));
    var s7 := s6.(inflight := s.inflight[q.id := W.Inflight(s.inflight, q.id) + 1],
                  buckets := s.buckets[q.id := Bucket(0.0, s.clock)],
                  live := s.live[g := W.Dispatch(e.id, e.task, W.Requesting)], pc := W.Drain(v, []));
    [s, s.(pc := W.Scan(s.clock, [q])), s.(pc := W.Roomed(v, c.slots - s.sem)), s3, s3.(pc := W.Drain(v, [e])),
     s5, s6, s7, s7.(pc := W.Scan(s.clock, [])), s7.(pc := W.Idle)]
  }

  lemma PollBegins(c: W.Config, s: W.State, q: W.Queue, e: Listed, g: nat, i: nat)
    requires Ready(c, s, q, e) && i < 4
    ensures W.Next(c, PollStates(c, s, q, e, g)[i], OnePoll(q, e, g)[i]) == Some(PollStates(c, s, q, e, g)[i + 1])
  {
    if i < 2 {
      assert [q][0].id == q.id && [q][1..] == [];
    } else if i == 2 {
      FullBucket(s, W.Visit(s.clock, q, []));
    } else {
      assert Lists([e], e.id) by { assert [e][0].id == e.id; }
    }
  }

  lemma PollClaims(c: W.Config, s: W.State, q: W.Queue, e: Listed, g: nat, i: nat)
    requires Ready(c, s, q, e) && 4 <= i < 6
    ensures W.Next(c, PollStates(c, s, q, e, g)[i], OnePoll(q, e, g)[i]) == Some(PollStates(c, s, q, e, g)[i + 1])
  {
    assert s.tasks[e.id := e.task.(status := Running)] == map[e.id := e.task.(status := Running)];
  }

  lemma PollEnds(c: W.Config, s: W.State, q: W.Queue, e: Listed, g: nat, i: nat)
    requires Ready(c, s, q, e) && g !in s.live && 6 <= i < 9
    ensures W.Next(c, PollStates(c, s, q, e, g)[i], OnePoll(q, e, g)[i]) == Some(PollStates(c, s, q, e, g)[i + 1])
  {
    if i == 6 {
      assert [e][1..] == [];
      assert s.buckets[q.id := Bucket(1.0, s.clock)][q.id := Bucket(0.0, s.clock)]
          == s.buckets[q.id := Bucket(0.0, s.clock)];
    }
  }

  lemma PollRuns(c: W.Config, s: W.State, q: W.Queue, e: Listed, g: nat, i: nat)
    requires Ready(c, s, q, e) && g !in s.live && i < 9
    ensures W.Next(c, PollStates(c, s, q, e, g)[i], OnePoll(q, e, g)[i]) == Some(PollStates(c, s, q, e, g)[i + 1])
  {
    if i < 4 {
      PollBegins(c, s, q, e, g, i);
    } else if i < 6 {
      PollClaims(c, s, q, e, g, i);
    } else {
      PollEnds(c, s, q, e, g, i);
    }
  }

  lemma PollDispatches(c: W.Config, s: W.State, q: W.Queue, e: Listed, g: nat)
    requires Ready(c, s, q, e) && g !in s.live
    ensures W.Exec(c, s, OnePoll(q, e, g)) == Some(PollStates(c, s, q, e, g)[9])
  {
    forall i | 0 <= i < 9
      ensures W.Next(c, PollStates(c, s, q, e, g)[i], OnePoll(q, e, g)[i]) == Some(PollStates(c, s, q, e, g)[i + 1])
    {
      PollRuns(c, s, q, e, g, i);
    }
    Chain(c, s, OnePoll(q, e, g), PollStates(c, s, q, e, g));
  }

  /** A run given by the states it passes through. */
  lemma {:induction false} Chain(c: W.Config, s: W.State, ls: seq<W.Label>, states: seq<W.State>)
    requires |states| == |ls| + 1 && states[0] == s
    requires forall i :: 0 <= i < |ls| ==> W.Next(c, states[i], ls[i]) == Some(states[i + 1])
    ensures W.Exec(c, s, ls) == Some(states[|ls|])
    decreases |ls|
  {
    if ls != [] {
      Chain(c, s, ls[..|ls| - 1], states[..|ls|]);
    }
  }

  const CONFIG: W.Config := W.Config(2, 1, 60)
  const QUEUE: W.Queue := W.NewQueue("q", 1, 2)
  const ENTRY: Listed := Listed("a", Task("q", 1, Pending, 0, 5, 0))

  /** Start, create the queue and the task. */
  function StartUp(): seq<W.Label> {
    [W.Recover, W.Outside(W.CreateQueue("q", 1, 2)), W.Outside(W.CreateTask("a", "q", 1, 5, 0))]
  }

  function Started(): W.State {
    W.Boot(0).(pc := W.Idle, queues := map["q" := QUEUE], tasks := map["a" := ENTRY.task])
  }

  ghost function StartStates(): seq<W.State> {
    [W.Boot(0), W.Boot(0).(pc := W.Idle), W.Boot(0).(pc := W.Idle, queues := map["q" := QUEUE]), Started()]
  }

  lemma StartsUp(i: nat)
    requires i < 3
    ensures W.Next(CONFIG, StartStates()[i], StartUp()[i]) == Some(StartStates()[i + 1])
  {
    assert RecoverRunning(map[]) == map[];
  }

  /** Without the proviso on names, one name can have two requests out: a task is dispatched, deleted
      and created again while its request is still running, and dispatched again. */
  lemma NameReuseDoublesRequests() returns (ls: seq<W.Label>)
    ensures var r := W.Exec(CONFIG, W.Boot(0), ls);
            r.Some? && WorkerExclusion.Requests(r.value, 0, "a") && WorkerExclusion.Requests(r.value, 1, "a")
  {
    var c, b, first, second := CONFIG, W.Boot(0), OnePoll(QUEUE, ENTRY, 0), OnePoll(QUEUE, ENTRY, 1);
    forall i | 0 <= i < 3 ensures W.Next(c, StartStates()[i], StartUp()[i]) == Some(StartStates()[i + 1]) {
      StartsUp(i);
    }
    Chain(c, b, StartUp(), StartStates());
    PollDispatches(c, Started(), QUEUE, ENTRY, 0);
    var s4 := PollStates(c, Started(), QUEUE, ENTRY, 0)[9];
    var s7 := s4.(tasks := map["a" := ENTRY.task], clock := 1000);
    CreatedAgain(s4, s7);
    PollDispatches(c, s7, QUEUE, ENTRY, 1);
    W.ExecConcat(c, b, StartUp(), first);
    W.ExecConcat(c, b, StartUp() + first, Again());
    W.ExecConcat(c, b, StartUp() + first + Again(), second);
    ls := StartUp() + first + Again() + second;
  }

  /** Delete the task, create it again, and let a second pass. */
  function Again(): seq<W.Label> {
    [W.Outside(W.DeleteTask("a")), W.Outside(W.CreateTask("a", "q", 1, 5, 0)), W.Outside(W.Advance(1000))]
  }

  lemma CreatedAgain(s: W.State, s': W.State)
    requires s.clock == 0 && s.tasks.Keys == {"a"} && s' == s.(tasks := map["a" := ENTRY.task], clock := 1000)
    ensures W.Exec(CONFIG, s, Again()) == Some(s')
  {
    var s1 := s.(tasks := map[]);
    assert s.tasks - {"a"} == map[];
    Chain(CONFIG, s, Again(), [s, s1, s1.(tasks := map["a" := ENTRY.task]), s']);
  }

  // ---------------------------------------------------------------- a late write

  /** A job whose schedule has the instants 60000 and 120000, one after the other. */
  ghost predicate EveryMinute(w: S.World, c: JobConfig) {
    w.storable(c) && w.cron(c, 30000) == Some(60000) && w.cron(c, 60000) == Some(120000)
  }

  function At(c: JobConfig, next: int): J.Job { J.Job(c, J.Enabled, next, 0, 0) }

  function Jobs(c: JobConfig, next: int): J.Jobs { map["j" := At(c, next)] }

  function Tick(c: JobConfig): seq<S.Label> {
    [S.ListDueJobs(0, 60000, [J.Listed("j", At(c, 60000))]), S.ClaimNext(0), S.EndTick(0)]
  }

  ghost function TickStates(c: JobConfig, s: S.State): seq<S.State> {
    var s2 := s.(jobs := Jobs(c, 120000), tickers := map[0 := S.Ticker(60000, [])],
                 waiting := s.waiting[s.fires := S.Firing("j", 60000)], fires := s.fires + 1);
    [s, s.(tickers := map[0 := S.Ticker(60000, [J.Listed("j", At(c, 60000))])]), s2, s2.(tickers := map[])]
  }

  /** A tick at 60000 that finds the job due at 60000 claims it. */
  lemma TickClaims(w: S.World, c: JobConfig, s: S.State, i: nat)
    requires EveryMinute(w, c) && s.clock == 60000 && s.jobs == Jobs(c, 60000) && s.tickers == map[] && i < 3
    ensures S.Next(w, TickStates(c, s)[i], Tick(c)[i]) == Some(TickStates(c, s)[i + 1])
    ensures DueTimes.Wins(w, TickStates(c, s)[i], Tick(c)[i], "j") <==> i == 1
  {
    var e := J.Listed("j", At(c, 60000));
    match i
    case 0 => assert J.Lists([e], "j") by { assert [e][0].id == "j"; }
    case 1 =>
      assert [e][1..] == [] && [e][0] == e;
      assert Jobs(c, 60000)["j" := At(c, 120000)] == Jobs(c, 120000);
      assert TickStates(c, s)[1].tickers[0 := S.Ticker(60000, [])] == map[0 := S.Ticker(60000, [])];
    case _ => assert map[0 := S.Ticker(60000, [])] - {0} == map[];
  }

  /** Create the job, read it for an Update, and let the clock reach its due time. */
  function Late(c: JobConfig): seq<S.Label> {
    [S.Prepare(0, S.Create("j", At(c, 60000))), S.Commit(0),
     S.Prepare(0, S.PutConfig("j", c, J.Enabled, 60000)), S.Advance(60000)]
  }

  ghost function LateStates(c: JobConfig): seq<S.State> {
    var s2 := S.Boot(30000).(jobs := Jobs(c, 60000));
    var s3 := s2.(writes := map[0 := S.PutConfig("j", c, J.Enabled, 60000)]);
    [S.Boot(30000), S.Boot(30000).(writes := map[0 := S.Create("j", At(c, 60000))]), s2, s3, s3.(clock := 60000)]
  }

  lemma LateSteps(w: S.World, c: JobConfig, i: nat)
    requires EveryMinute(w, c) && i < 4
    ensures S.Next(w, LateStates(c)[i], Late(c)[i]) == Some(LateStates(c)[i + 1])
  {
    assert LateStates(c)[1].writes - {0} == map[];
  }

  /** The states are those a run passes through. */
  ghost predicate Passes(w: S.World, ls: seq<S.Label>, states: seq<S.State>) {
    |states| == |ls| + 1 && forall i :: 0 <= i < |ls| ==> S.Next(w, states[i], ls[i]) == Some(states[i + 1])
  }

  /** The due times claimed by the first n steps. */
  ghost function DueList(w: S.World, ls: seq<S.Label>, states: seq<S.State>, n: nat): seq<int>
    requires n <= |ls| < |states|
  {
    if n == 0 then [] else DueList(w, ls, states, n - 1) + DueTimes.Claimed(w, states[n - 1], ls[n - 1], "j")
  }

  lemma {:induction false} PassesRuns(w: S.World, ls: seq<S.Label>, states: seq<S.State>, n: nat)
    requires Passes(w, ls, states) && n <= |ls|
    ensures S.Exec(w, states[0], ls[..n]) == Some(states[n])
    ensures DueTimes.Dues(w, states[0], ls[..n], "j") == DueList(w, ls, states, n)
    decreases n
  {
    if n > 0 {
      PassesRuns(w, ls, states, n - 1);
      assert ls[..n][..n - 1] == ls[..n - 1] && ls[..n][n - 1] == ls[n - 1];
    }
  }

  lemma {:induction false} NoClaims(w: S.World, ls: seq<S.Label>, states: seq<S.State>, m: nat, n: nat)
    requires m <= n <= |ls| < |states| && forall i :: m <= i < n ==> !ls[i].ClaimNext?
    ensures DueList(w, ls, states, n) == DueList(w, ls, states, m)
    decreases n
  {
    if m < n {
      NoClaims(w, ls, states, m, n - 1);
    }
  }

  /** The whole run: the job is created and read, a tick, the late write, and another tick. */
  function LateRun(c: JobConfig): seq<S.Label> { Late(c) + Tick(c) + [S.Commit(0)] + Tick(c) }

  /** After the late write. */
  ghost function WrittenBack(c: JobConfig): S.State {
    TickStates(c, LateStates(c)[4])[3].(jobs := Jobs(c, 60000), writes := map[])
  }

  ghost function LateRunStates(c: JobConfig): seq<S.State> {
    LateStates(c)[..4] + TickStates(c, LateStates(c)[4]) + TickStates(c, WrittenBack(c))
  }

  lemma LateRunPasses(w: S.World, c: JobConfig, i: nat)
    requires EveryMinute(w, c) && i < 11
    ensures S.Next(w, LateRunStates(c)[i], LateRun(c)[i]) == Some(LateRunStates(c)[i + 1])
  {
    var ls, states, first := LateRun(c), LateRunStates(c), TickStates(c, LateStates(c)[4]);
    if i < 4 {
      assert ls[i] == Late(c)[i] && states[i] == LateStates(c)[i] && states[i + 1] == LateStates(c)[i + 1];
      LateSteps(w, c, i);
    } else if i < 7 {
      assert ls[i] == Tick(c)[i - 4] && states[i] == first[i - 4] && states[i + 1] == first[i - 3];
      TickClaims(w, c, LateStates(c)[4], i - 4);
    } else if i == 7 {
      assert ls[i] == S.Commit(0) && states[i] == first[3] && states[i + 1] == WrittenBack(c);
      WritesBack(w, c, first[3], WrittenBack(c));
    } else {
      var second := TickStates(c, WrittenBack(c));
      assert ls[i] == Tick(c)[i - 8] && states[i] == second[i - 8] && states[i + 1] == second[i - 7];
      TickClaims(w, c, WrittenBack(c), i - 8);
    }
  }

  lemma WritesBack(w: S.World, c: JobConfig, s: S.State, s': S.State)
    requires s.jobs == Jobs(c, 120000) && s.writes == map[0 := S.PutConfig("j", c, J.Enabled, 60000)]
    requires s' == s.(jobs := Jobs(c, 60000), writes := map[])
    ensures S.Next(w, s, S.Commit(0)) == Some(s')
  {
    assert Jobs(c, 120000)["j" := At(c, 60000)] == Jobs(c, 60000);
    assert s.writes - {0} == map[];
  }

  /** Steps 5 and 9 are the two claims. */
  lemma LateRunClaims(w: S.World, c: JobConfig, i: nat)
    requires EveryMinute(w, c) && (i == 5 || i == 9)
    ensures DueTimes.Claimed(w, LateRunStates(c)[i], LateRun(c)[i], "j") == [60000]
  {
    var s := if i == 5 then LateStates(c)[4] else WrittenBack(c);
    assert LateRunStates(c)[i] == TickStates(c, s)[1] && LateRun(c)[i] == Tick(c)[1];
    TickClaims(w, c, s, 1);
  }

  /** When the write half of an Update comes late, a job fires twice for the same due time: the
      Update reads and computes the next run 60000, a tick claims 60000 and moves on to 120000, the
      Update writes 60000 back, and the next tick claims 60000 again. */
  lemma LateWriteFiresTwice(w: S.World, c: JobConfig) returns (ls: seq<S.Label>)
    requires EveryMinute(w, c)
    ensures S.Exec(w, S.Boot(30000), ls).Some? && DueTimes.Dues(w, S.Boot(30000), ls, "j") == [60000, 60000]
  {
    ls := LateRun(c);
    var states := LateRunStates(c);
    forall i | 0 <= i < |ls| ensures S.Next(w, states[i], ls[i]) == Some(states[i + 1]) {
      LateRunPasses(w, c, i);
    }
    PassesRuns(w, ls, states, |ls|);
    assert ls[..|ls|] == ls && states[0] == S.Boot(30000);
    LateRunDues(w, c);
  }

  lemma LateRunDues(w: S.World, c: JobConfig)
    requires EveryMinute(w, c)
    ensures |LateRun(c)| == 11 && DueList(w, LateRun(c), LateRunStates(c), 11) == [60000, 60000]
  {
    var ls, states := LateRun(c), LateRunStates(c);
    NoClaims(w, ls, states, 0, 5);
    LateRunClaims(w, c, 5);
    NoClaims(w, ls, states, 6, 9);
    LateRunClaims(w, c, 9);
    NoClaims(w, ls, states, 10, 11);
  }
}
