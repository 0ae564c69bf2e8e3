/** The stateless rule for whole runs of the scheduler: with one tick loop at a time and no service
    write to a job, whatever else happens, the job is claimed as its schedule and the tick times say. */
module TickRuns {
  import opened Options
  import opened JobConfigs
  import opened JobRows
  import opened SchedulerSystem
  import opened DueTimes

  /** The step lists due jobs only when no tick loop is under way, and is no service write to the job. */
  ghost predicate Undisturbed(s: State, l: Label, id: JobId) {
    && (l.ListDueJobs? ==> s.tickers == map[])
    && (l.Commit? && l.k in s.writes ==> s.writes[l.k].id != id)
    && l != Delete(id)
  }

  ghost predicate UndisturbedRun(w: World, s: State, ls: seq<Label>, id: JobId)
    decreases |ls|
  {
    ls == [] || (
      var ls0 := ls[..|ls| - 1];
      UndisturbedRun(w, s, ls0, id) && Exec(w, s, ls).Some? && Undisturbed(Exec(w, s, ls0).value, ls[|ls| - 1], id))
  }

  /** A tick has dealt with the job when its listing leaves the job out, or when it reaches it. */
  ghost predicate Deals(s: State, l: Label, id: JobId) {
    || (l.ListDueJobs? && !Lists(l.due, id))
    || (l.ClaimNext? && l.k in s.tickers && s.tickers[l.k].due != [] && s.tickers[l.k].due[0].id == id)
  }

  /** The clock reading of the tick. */
  ghost function TickTime(s: State, l: Label, id: JobId): int
    requires Deals(s, l, id)
  {
    if l.ListDueJobs? then l.now else s.tickers[l.k].now
  }

  /** The clock readings of the ticks that have dealt with the job; a tick cut short by a crash may not have. */
  ghost function Ticks(w: World, s: State, ls: seq<Label>, id: JobId): seq<int>
    requires Exec(w, s, ls).Some?
    decreases |ls|
  {
    if ls == [] then [] else
      var ls0, l := ls[..|ls| - 1], ls[|ls| - 1];
      var s0 := Exec(w, s, ls0).value;
      Ticks(w, s, ls0, id) + if Deals(s0, l, id) then [TickTime(s0, l, id)] else []
  }

  /** Equal but for the attempt columns. */
  predicate SameSchedule(a: Job, b: Job) { a.config == b.config && a.state == b.state && a.nextRun == b.nextRun }

  ghost predicate Mirrors(t: Ticker, row: Job, id: JobId) {
    && (forall i, j :: 0 <= i < j < |t.due| && t.due[i].id == id ==> t.due[j].id != id)
    && (forall i :: 0 <= i < |t.due| && t.due[i].id == id ==> SameSchedule(t.due[i].job, row) && IsDue(row, t.now))
  }

  /** At most one tick loop, which has the job, if at all, as its row is. */
  ghost predicate Solo(s: State, id: JobId) {
    && id in s.jobs
    && (forall k, h :: k in s.tickers && h in s.tickers ==> k == h)
    && (forall k :: k in s.tickers ==> Mirrors(s.tickers[k], s.jobs[id], id))
  }

  /** The row after a step that deals with the job, or does not. */
  ghost function Dealt(w: World, s: State, l: Label, id: JobId): Job
    requires id in s.jobs
  {
    if Deals(s, l, id) then TickJob(w.cron, s.jobs[id], TickTime(s, l, id)) else s.jobs[id]
  }

  ghost function DealtDue(w: World, s: State, l: Label, id: JobId): seq<int>
    requires id in s.jobs
  {
    if Deals(s, l, id) && FiresAt(w.cron, s.jobs[id], TickTime(s, l, id)) then [s.jobs[id].nextRun] else []
  }

  lemma ListStep(w: World, s: State, k: nat, now: int, due: seq<Listed>, id: JobId)
    requires Solo(s, id) && s.tickers == map[] && IsDueListing(s.jobs, now, due)
    ensures Solo(s.(tickers := s.tickers[k := Ticker(now, due)]), id)
    ensures Dealt(w, s, ListDueJobs(k, now, due), id) == s.jobs[id]
    ensures DealtDue(w, s, ListDueJobs(k, now, due), id) == []
  {
  }

  lemma ClaimStep(w: World, s: State, k: nat, id: JobId)
    requires Solo(s, id) && k in s.tickers && s.tickers[k].due != []
    ensures Solo(TickStep(w, s, k), id)
    ensures SameSchedule(TickStep(w, s, k).jobs[id], Dealt(w, s, ClaimNext(k), id))
    ensures Claimed(w, s, ClaimNext(k), id) == DealtDue(w, s, ClaimNext(k), id)
  {
    var t, s' := s.tickers[k], TickStep(w, s, k);
    assert Mirrors(t, s.jobs[id], id);
    assert t.due[0].id == id ==> SameSchedule(t.due[0].job, s.jobs[id]) && IsDue(s.jobs[id], t.now);
    assert Mirrors(s'.tickers[k], s'.jobs[id], id) by {
      assert forall i :: 0 <= i < |t.due| - 1 ==> s'.tickers[k].due[i] == t.due[i + 1];
    }
  }

  /** Any other step leaves the schedule of the row and the tick loop alone, or ends the tick loop. */
  lemma OtherFrame(w: World, s: State, l: Label, id: JobId)
    requires id in s.jobs && Next(w, s, l).Some? && Undisturbed(s, l, id) && !l.ListDueJobs? && !l.ClaimNext?
    ensures var s' := Next(w, s, l).value;
            && id in s'.jobs && SameSchedule(s'.jobs[id], s.jobs[id])
            && (forall k :: k in s'.tickers ==> k in s.tickers && s'.tickers[k] == s.tickers[k])
  {
    match l
    case Commit(k) =>
    case Fire(f, go) =>
    case _ =>
  }

  lemma FrameKeepsSolo(s: State, s': State, id: JobId)
    requires Solo(s, id) && id in s'.jobs && SameSchedule(s'.jobs[id], s.jobs[id])
    requires forall k :: k in s'.tickers ==> k in s.tickers && s'.tickers[k] == s.tickers[k]
    ensures Solo(s', id)
  {
  }

  lemma SoloStep(w: World, s: State, l: Label, id: JobId)
    requires Solo(s, id) && Next(w, s, l).Some? && Undisturbed(s, l, id)
    ensures Solo(Next(w, s, l).value, id)
    ensures SameSchedule(Next(w, s, l).value.jobs[id], Dealt(w, s, l, id))
    ensures Claimed(w, s, l, id) == DealtDue(w, s, l, id)
  {
    match l
    case ListDueJobs(k, now, due) => ListStep(w, s, k, now, due, id);
    case ClaimNext(k) => ClaimStep(w, s, k, id);
    case _ =>
      OtherFrame(w, s, l, id);
      FrameKeepsSolo(s, Next(w, s, l).value, id);
  }

  function DueAt(cron: Cron, j: Job, t: int): seq<int> { if FiresAt(cron, j, t) then [j.nextRun] else [] }

  /** The due times that the ticks of the row machine claim. */
  ghost function RowDues(cron: Cron, j: Job, ticks: seq<int>): seq<int> {
    if ticks == [] then [] else
      var init, t := ticks[..|ticks| - 1], ticks[|ticks| - 1];
      RowDues(cron, j, init) + DueAt(cron, RowAfter(cron, j, init), t)
  }

  lemma RowTakes(cron: Cron, j: Job, ticks: seq<int>, t: int)
    ensures RowAfter(cron, j, ticks + [t]) == TickJob(cron, RowAfter(cron, j, ticks), t)
    ensures RowDues(cron, j, ticks + [t])
            == RowDues(cron, j, ticks) + DueAt(cron, RowAfter(cron, j, ticks), t)
  {
    assert (ticks + [t])[..|ticks|] == ticks;
  }

  /** In every such run the job's row and its claims are those of the row machine on the tick times. */
  lemma {:induction false} RunIsTicks(w: World, s: State, ls: seq<Label>, id: JobId)
    requires id in s.jobs && s.tickers == map[] && UndisturbedRun(w, s, ls, id)
    ensures Exec(w, s, ls).Some? && Solo(Exec(w, s, ls).value, id)
    ensures SameSchedule(Exec(w, s, ls).value.jobs[id], RowAfter(w.cron, s.jobs[id], Ticks(w, s, ls, id)))
    ensures Dues(w, s, ls, id) == RowDues(w.cron, s.jobs[id], Ticks(w, s, ls, id))
    decreases |ls|
  {
    if ls != [] {
      var ls0, l := ls[..|ls| - 1], ls[|ls| - 1];
      RunIsTicks(w, s, ls0, id);
      var s0 := Exec(w, s, ls0).value;
      SoloStep(w, s0, l, id);
      if Deals(s0, l, id) {
        RowTakes(w.cron, s.jobs[id], Ticks(w, s, ls0, id), TickTime(s0, l, id));
      } else {
        assert Ticks(w, s, ls, id) == Ticks(w, s, ls0, id);
      }
    }
  }

  // ---------------------------------------------------------------- the stateless rule

  /** The rule: a tick claims the first instant after the previous tick, if that has come. */
  ghost function StatelessDues(cron: Cron, c: JobConfig, from: int, ticks: seq<int>): seq<int> {
    if ticks == [] then [] else
      var n := |ticks| - 1;
      var first := cron(c, Previous(from, ticks, n));
      StatelessDues(cron, c, from, ticks[..n]) + if first.Some? && first.value <= ticks[n] then [first.value] else []
  }

  lemma {:induction false} RowDuesAreStateless(cron: Cron, j: Job, instant: int -> bool, from: int, ticks: seq<int>)
    requires FixedInstants(cron, j.config, instant) && j.state == Enabled && from >= 0
    requires cron(j.config, from) == Some(j.nextRun) && Ordered(from, ticks)
    ensures RowDues(cron, j, ticks) == StatelessDues(cron, j.config, from, ticks)
    decreases |ticks|
  {
    if ticks != [] {
      var n := |ticks| - 1;
      RowDuesAreStateless(cron, j, instant, from, ticks[..n]);
      TickIsStateless(cron, j, instant, from, ticks);
    }
  }

  lemma TickIsStateless(cron: Cron, j: Job, instant: int -> bool, from: int, ticks: seq<int>)
    requires FixedInstants(cron, j.config, instant) && j.state == Enabled && from >= 0
    requires cron(j.config, from) == Some(j.nextRun) && Ordered(from, ticks) && ticks != []
    ensures var before, n := RowAfter(cron, j, ticks[..|ticks| - 1]), |ticks| - 1;
            && cron(j.config, Previous(from, ticks, n)) == Some(before.nextRun)
            && (FiresAt(cron, before, ticks[n]) <==> before.nextRun <= ticks[n])
  {
    var n := |ticks| - 1;
    assert IsNextInstant(instant, from, j.nextRun);
    NextRunTracksTicks(cron, j, instant, from, ticks[..n]);
    var before, prev := RowAfter(cron, j, ticks[..n]), Previous(from, ticks, n);
    assert cron(j.config, prev).Some? && cron(j.config, ticks[n]).Some?;
    var next := cron(j.config, prev).value;
    assert IsNextInstant(instant, prev, next) && IsNextInstant(instant, prev, before.nextRun);
  }

  /** For a fixed-instant schedule and any tick times, in every run with one tick loop at a time and no
      service write to the job (other jobs, Fire calls, run-now and restarts at will): the claims are
      those of the stateless rule, and next_run_at is NextRun of the last tick. */
  lemma RunFollowsStatelessRule(w: World, s: State, ls: seq<Label>, id: JobId, instant: int -> bool, from: int)
    requires id in s.jobs && s.tickers == map[] && UndisturbedRun(w, s, ls, id)
    requires FixedInstants(w.cron, s.jobs[id].config, instant) && s.jobs[id].state == Enabled && from >= 0
    requires w.cron(s.jobs[id].config, from) == Some(s.jobs[id].nextRun)
    requires Exec(w, s, ls).Some? && Ordered(from, Ticks(w, s, ls, id))
    ensures var ticks, c, s' := Ticks(w, s, ls, id), s.jobs[id].config, Exec(w, s, ls).value;
            && Dues(w, s, ls, id) == StatelessDues(w.cron, c, from, ticks)
            && id in s'.jobs && s'.jobs[id].state == Enabled && s'.jobs[id].config == c
            && w.cron(c, if ticks == [] then from else ticks[|ticks| - 1]) == Some(s'.jobs[id].nextRun)
  {
    var ticks, j := Ticks(w, s, ls, id), s.jobs[id];
    RunIsTicks(w, s, ls, id);
    RowDuesAreStateless(w.cron, j, instant, from, ticks);
    assert IsNextInstant(instant, from, j.nextRun);
    NextRunTracksTicks(w.cron, j, instant, from, ticks);
    if ticks != [] {
      TickRefinesStatelessRule(w.cron, j, instant, from, ticks, |ticks| - 1);
      assert ticks[..|ticks|] == ticks;
    }
  }
}
