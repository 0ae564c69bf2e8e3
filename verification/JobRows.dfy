/** The jobs table, the repository object over it, and one scheduler tick; the refinement of the
    persisted compare-and-swap machine to a stateless rule. Times are milliseconds. */
module JobRows {
  import opened Options
  import opened JobConfigs

  type JobId = string

  datatype JobState = Enabled | Paused

  datatype Job = Job(config: JobConfig, state: JobState, nextRun: int, lastAttempt: int, lastCode: int)

  type Jobs = map<JobId, Job>

  datatype Listed = Listed(id: JobId, job: Job)

  /** NextRun: the first run strictly after an instant, or None when there is none. */
  type Cron = (JobConfig, int) -> Option<int>

  ghost predicate Advancing(cron: Cron) {
    forall c, t :: cron(c, t).Some? ==> cron(c, t).value > t
  }

  predicate IsDue(j: Job, now: int) { j.state == Enabled && 0 < j.nextRun <= now }

  // ---------------------------------------------------------------- statements

  predicate Claimable(jobs: Jobs, id: JobId, oldNext: int) {
    id in jobs && jobs[id].state == Enabled && jobs[id].nextRun == oldNext
  }

  function Claim(jobs: Jobs, id: JobId, oldNext: int, newNext: int): Jobs {
    if Claimable(jobs, id, oldNext) then jobs[id := jobs[id].(nextRun := newNext)] else jobs
  }

  function SetState(jobs: Jobs, id: JobId, state: JobState, next: int): Jobs {
    if id in jobs then jobs[id := jobs[id].(state := state, nextRun := next)] else jobs
  }

  function Update(jobs: Jobs, id: JobId, config: JobConfig, state: JobState, next: int): Jobs {
    if id in jobs then jobs[id := jobs[id].(config := config, state := state, nextRun := next)] else jobs
  }

  function RecordAttempt(jobs: Jobs, id: JobId, at: int, code: int): Jobs {
    if id in jobs then jobs[id := jobs[id].(lastAttempt := at, lastCode := code)] else jobs
  }

  function Insert(jobs: Jobs, id: JobId, job: Job): Jobs {
    if id in jobs then jobs else jobs[id := job]
  }

  predicate Lists(listing: seq<Listed>, id: JobId) {
    exists i :: 0 <= i < |listing| && listing[i].id == id
  }

  /** What ListDue returns: every due job once, by due time. */
  predicate IsDueListing(jobs: Jobs, now: int, listing: seq<Listed>) {
    && (forall i :: 0 <= i < |listing| ==>
          listing[i].id in jobs && jobs[listing[i].id] == listing[i].job && IsDue(listing[i].job, now))
    && (forall i, j :: 0 <= i < j < |listing| ==>
          listing[i].id != listing[j].id && listing[i].job.nextRun <= listing[j].job.nextRun)
    && (forall id :: id in jobs && IsDue(jobs[id], now) ==> Lists(listing, id))
  }

  /** What one tick does to one row. */
  function TickJob(cron: Cron, j: Job, now: int): Job {
    if !IsDue(j, now) then j
    else if cron(j.config, now).None? then j.(state := Paused, nextRun := 0)
    else j.(nextRun := cron(j.config, now).value)
  }

  predicate FiresAt(cron: Cron, j: Job, now: int) { IsDue(j, now) && cron(j.config, now).Some? }

  class JobRepository {
    var rows: Jobs

    constructor ()
      ensures rows == map[]
    {
      rows := map[];
    }

    /** The compare-and-swap on next_run_at; true only for the caller that changed the row. */
    method ClaimJob(id: JobId, oldNext: int, newNext: int) returns (won: bool)
      modifies this
      ensures rows == Claim(old(rows), id, oldNext, newNext)
      ensures won <==> id in old(rows) && old(rows)[id].state == Enabled && old(rows)[id].nextRun == oldNext
      ensures rows == if won then old(rows)[id := old(rows)[id].(nextRun := newNext)] else old(rows)
    {
      won := id in rows && rows[id].state == Enabled && rows[id].nextRun == oldNext;
      if won {
        rows := rows[id := rows[id].(nextRun := newNext)];
      }
    }

    method SetJobState(id: JobId, state: JobState, next: int) returns (found: bool)
      modifies this
      ensures rows == SetState(old(rows), id, state, next)
      ensures found <==> id in old(rows)
      ensures rows == if found then old(rows)[id := old(rows)[id].(state := state, nextRun := next)] else old(rows)
    {
      found := id in rows;
      if found {
        rows := rows[id := rows[id].(state := state, nextRun := next)];
      }
    }

    method CreateJob(id: JobId, job: Job) returns (created: bool)
      modifies this
      ensures rows == Insert(old(rows), id, job)
      ensures created <==> id !in old(rows)
    {
      created := id !in rows;
      if created {
        rows := rows[id := job];
      }
    }

    /** Rewrites the configuration, the state and next_run_at, and leaves the attempt columns. */
    method UpdateJob(id: JobId, config: JobConfig, state: JobState, next: int) returns (found: bool)
      modifies this
      ensures rows == Update(old(rows), id, config, state, next)
      ensures found <==> id in old(rows)
    {
      found := id in rows;
      if found {
        rows := rows[id := rows[id].(config := config, state := state, nextRun := next)];
      }
    }

    method RecordJobAttempt(id: JobId, at: int, code: int)
      modifies this
      ensures rows == RecordAttempt(old(rows), id, at, code)
      ensures rows == if id in old(rows) then old(rows)[id := old(rows)[id].(lastAttempt := at, lastCode := code)]
                      else old(rows)
    {
      if id in rows {
        rows := rows[id := rows[id].(lastAttempt := at, lastCode := code)];
      }
    }

    /** The due job with the least next_run_at among `from`. */
    method First(from: set<JobId>) returns (best: JobId)
      requires from != {} && from <= rows.Keys
      ensures best in from && forall u :: u in from ==> rows[best].nextRun <= rows[u].nextRun
    {
      best :| best in from;
      var todo := from - {best};
      while todo != {}
        invariant best in from && todo <= from
        invariant forall u :: u in from - todo ==> rows[best].nextRun <= rows[u].nextRun
        decreases todo
      {
        var u :| u in todo;
        if rows[u].nextRun < rows[best].nextRun {
          best := u;
        }
        todo := todo - {u};
      }
    }

    method ListDue(now: int) returns (listing: seq<Listed>)
      ensures IsDueListing(rows, now, listing)
    {
      listing := [];
      var left := set u | u in rows && IsDue(rows[u], now);
      while left != {}
        invariant forall u :: u in left <==> u in rows && IsDue(rows[u], now) && !Lists(listing, u)
        invariant forall i :: 0 <= i < |listing| ==>
                    listing[i].id in rows && rows[listing[i].id] == listing[i].job && IsDue(listing[i].job, now)
        invariant forall i, j :: 0 <= i < j < |listing| ==>
                    listing[i].id != listing[j].id && listing[i].job.nextRun <= listing[j].job.nextRun
        invariant forall i, u :: 0 <= i < |listing| && u in left ==> listing[i].job.nextRun <= rows[u].nextRun
        decreases left
      {
        var u := First(left);
        var grown := listing + [Listed(u, rows[u])];
        forall v ensures Lists(grown, v) <==> Lists(listing, v) || v == u {
          if Lists(listing, v) {
            var i :| 0 <= i < |listing| && listing[i].id == v;
            assert grown[i].id == v;
          }
          assert grown[|listing|].id == u;
        }
        listing := grown;
        left := left - {u};
      }
    }

    /** The loop body of Tick for a listed job whose row is still as listed. */
    method TickOne(cron: Cron, now: int, j: Listed) returns (won: bool)
      requires j.id in rows && rows[j.id] == j.job && IsDue(j.job, now)
      modifies this
      ensures rows == old(rows)[j.id := TickJob(cron, j.job, now)]
      ensures won <==> FiresAt(cron, j.job, now)
    {
      won := false;
      var next := cron(j.job.config, now);
      if next.None? {
        var _ := SetJobState(j.id, Paused, 0);
      } else {
        won := ClaimJob(j.id, j.job.nextRun, next.value);
      }
    }

    /** Runner.Tick with nobody else writing: every due job is claimed once and fired with the due
        time it had, its next run moved past `now`; jobs without a next run are paused. */
    method Tick(cron: Cron, now: int) returns (fired: seq<Listed>)
      modifies this
      ensures rows.Keys == old(rows).Keys && forall id :: id in rows ==> rows[id] == TickJob(cron, old(rows)[id], now)
      ensures exists due :: IsDueListing(old(rows), now, due) && fired == FiredBy(cron, now, due)
    {
      var due := ListDue(now);
      fired := [];
      for n := 0 to |due|
        invariant Ticked(cron, now, old(rows), due, n, rows)
        invariant fired == FiredBy(cron, now, due[..n])
      {
        assert due[n].id in rows && rows[due[n].id] == due[n].job;
        ghost var before := rows;
        var won := TickOne(cron, now, due[n]);
        TickedStep(cron, now, old(rows), due, n, before);
        assert due[..n + 1][..n] == due[..n];
        if won {
          fired := fired + [due[n]];
        }
      }
      assert due[..|due|] == due;
      TickedAll(cron, now, old(rows), due, rows);
    }
  }

  /** The table after the first n listed jobs have been dealt with. */
  ghost predicate Ticked(cron: Cron, now: int, start: Jobs, due: seq<Listed>, n: nat, rows: Jobs) {
    && IsDueListing(start, now, due) && n <= |due| && rows.Keys == start.Keys
    && (forall i :: 0 <= i < |due| ==> rows[due[i].id] == if i < n then TickJob(cron, due[i].job, now) else due[i].job)
    && (forall id :: id in rows && !Lists(due, id) ==> rows[id] == start[id])
  }

  lemma TickedStep(cron: Cron, now: int, start: Jobs, due: seq<Listed>, n: nat, rows: Jobs)
    requires Ticked(cron, now, start, due, n, rows) && n < |due|
    ensures Ticked(cron, now, start, due, n + 1, rows[due[n].id := TickJob(cron, due[n].job, now)])
  {
    assert Lists(due, due[n].id);
  }

  lemma TickedAll(cron: Cron, now: int, start: Jobs, due: seq<Listed>, rows: Jobs)
    requires Ticked(cron, now, start, due, |due|, rows)
    ensures forall id :: id in rows ==> rows[id] == TickJob(cron, start[id], now)
  {
    forall id | id in rows ensures rows[id] == TickJob(cron, start[id], now) {
      if Lists(due, id) {
        var i :| 0 <= i < |due| && due[i].id == id;
      } else {
        assert !IsDue(start[id], now);
      }
    }
  }

  /** The listed jobs that the tick fires, in order. */
  function FiredBy(cron: Cron, now: int, due: seq<Listed>): seq<Listed> {
    if due == [] then []
    else
      var last := due[|due| - 1];
      FiredBy(cron, now, due[..|due| - 1]) + if FiresAt(cron, last.job, now) then [last] else []
  }

  /** A tick fires every due job that has a next run, each once. */
  lemma FiresEachOnce(cron: Cron, jobs: Jobs, now: int, due: seq<Listed>, id: JobId)
    requires IsDueListing(jobs, now, due) && id in jobs
    ensures multiset(FiredBy(cron, now, due))[Listed(id, jobs[id])] == if FiresAt(cron, jobs[id], now) then 1 else 0
  {
    FiringCount(cron, now, due, Listed(id, jobs[id]));
    if IsDue(jobs[id], now) {
      var i :| 0 <= i < |due| && due[i].id == id;
      ListedOnce(due, i);
    }
  }

  lemma {:induction false} FiringCount(cron: Cron, now: int, due: seq<Listed>, e: Listed)
    ensures multiset(FiredBy(cron, now, due))[e] == if FiresAt(cron, e.job, now) then multiset(due)[e] else 0
  {
    if due != [] {
      FiringCount(cron, now, due[..|due| - 1], e);
      assert due == due[..|due| - 1] + [due[|due| - 1]];
    }
  }

  lemma ListedOnce(due: seq<Listed>, i: nat)
    requires i < |due| && forall j, k :: 0 <= j < k < |due| ==> due[j].id != due[k].id
    ensures multiset(due)[due[i]] == 1
  {
    assert due == due[..i] + [due[i]] + due[i + 1..];
    assert due[i] !in due[..i] && due[i] !in due[i + 1..];
    assert multiset(due) == multiset(due[..i]) + multiset([due[i]]) + multiset(due[i + 1..]);
  }

  // ---------------------------------------------------------------- refinement

  /** A schedule of fixed instants: NextRun is the least instant after t. */
  ghost predicate FixedInstants(cron: Cron, c: JobConfig, instant: int -> bool) {
    forall t :: cron(c, t).Some? && IsNextInstant(instant, t, cron(c, t).value)
  }

  ghost predicate IsNextInstant(instant: int -> bool, t: int, n: int) {
    n > t && instant(n) && forall m :: t < m < n ==> !instant(m)
  }

  /** The row after the ticks at the given times. */
  function RowAfter(cron: Cron, j: Job, ticks: seq<int>): Job {
    if ticks == [] then j
    else TickJob(cron, RowAfter(cron, j, ticks[..|ticks| - 1]), ticks[|ticks| - 1])
  }

  predicate Ordered(from: int, ticks: seq<int>) {
    && (forall i :: 0 <= i < |ticks| ==> from <= ticks[i])
    && (forall i, j :: 0 <= i < j < |ticks| ==> ticks[i] <= ticks[j])
  }

  function Previous(from: int, ticks: seq<int>, i: nat): int
    requires i < |ticks|
  {
    if i == 0 then from else ticks[i - 1]
  }

  /** An enabled job, last scheduled at `from`, keeps next_run_at at the first instant after the
      latest tick. */
  lemma {:induction false} NextRunTracksTicks(cron: Cron, j: Job, instant: int -> bool, from: int, ticks: seq<int>)
    requires FixedInstants(cron, j.config, instant) && j.state == Enabled && from >= 0
    requires IsNextInstant(instant, from, j.nextRun) && Ordered(from, ticks)
    ensures var r := RowAfter(cron, j, ticks);
            && r == j.(nextRun := r.nextRun)
            && IsNextInstant(instant, if ticks == [] then from else ticks[|ticks| - 1], r.nextRun)
  {
    if ticks != [] {
      var init, t := ticks[..|ticks| - 1], ticks[|ticks| - 1];
      NextRunTracksTicks(cron, j, instant, from, init);
      var before := RowAfter(cron, j, init);
      if !IsDue(before, t) {
        assert before.nextRun > t;
      } else {
        assert cron(before.config, t).Some? && IsNextInstant(instant, t, cron(before.config, t).value);
      }
    }
  }

  /** The stateless rule: tick i fires exactly when the schedule has an instant since the previous
      tick, up to and including its own time; the due time is the first such instant, and then the
      next run is the first instant after the tick. However many instants a downtime skipped, the
      first tick after it fires once. */
  lemma TickRefinesStatelessRule(cron: Cron, j: Job, instant: int -> bool, from: int, ticks: seq<int>, i: nat)
    requires FixedInstants(cron, j.config, instant) && j.state == Enabled && from >= 0 && i < |ticks|
    requires cron(j.config, from) == Some(j.nextRun) && Ordered(from, ticks)
    ensures var before := RowAfter(cron, j, ticks[..i]);
            && (FiresAt(cron, before, ticks[i]) <==> exists m :: Previous(from, ticks, i) < m <= ticks[i] && instant(m))
            && (FiresAt(cron, before, ticks[i]) ==> IsNextInstant(instant, Previous(from, ticks, i), before.nextRun))
            && cron(j.config, ticks[i]) == Some(RowAfter(cron, j, ticks[..i + 1]).nextRun)
  {
    assert ticks[..i + 1][..i] == ticks[..i];
    assert IsNextInstant(instant, from, j.nextRun);
    NextRunTracksTicks(cron, j, instant, from, ticks[..i]);
    NextRunTracksTicks(cron, j, instant, from, ticks[..i + 1]);
    var before, after := RowAfter(cron, j, ticks[..i]), RowAfter(cron, j, ticks[..i + 1]);
    var prev := Previous(from, ticks, i);
    assert IsNextInstant(instant, prev, before.nextRun);
    assert cron(j.config, ticks[i]).Some?;
    var n := cron(j.config, ticks[i]).value;
    assert IsNextInstant(instant, ticks[i], n) && IsNextInstant(instant, ticks[i], after.nextRun);
    if m :| prev < m <= ticks[i] && instant(m) {
      assert before.nextRun <= m;
    }
  }
}
