/** When a late service write makes a job fire again for a time already served: exactly when the next
    run it sets is not above every due time claimed so far. */
module LateWrites {
  import opened Options
  import opened JobConfigs
  import opened JobRows
  import opened SchedulerSystem
  import opened DueTimes

  // ---------------------------------------------------------------- a tick that claims

  lemma {:induction false} FreshKey(keys: set<nat>) returns (k: nat)
    ensures k !in keys && forall h :: h in keys ==> h < k
    decreases |keys|
  {
    if keys == {} {
      k := 0;
    } else {
      var h :| h in keys;
      k := FreshKey(keys - {h});
      assert keys == (keys - {h}) + {h};
      k := if h < k then k else h + 1;
    }
  }

  lemma {:induction false} FirstDue(jobs: Jobs, ids: set<JobId>) returns (first: JobId)
    requires ids != {} && ids <= jobs.Keys
    ensures first in ids && forall u :: u in ids ==> jobs[first].nextRun <= jobs[u].nextRun
    decreases |ids|
  {
    first :| first in ids;
    if ids != {first} {
      var rest := ids - {first};
      assert ids == rest + {first};
      var other := FirstDue(jobs, rest);
      first := if jobs[other].nextRun < jobs[first].nextRun then other else first;
    }
  }

  /** The listing is of exactly these jobs, by due time. */
  ghost predicate Orders(jobs: Jobs, ids: set<JobId>, due: seq<Listed>)
    requires ids <= jobs.Keys
  {
    && (forall i :: 0 <= i < |due| ==> due[i].id in ids && jobs[due[i].id] == due[i].job)
    && (forall i, j :: 0 <= i < j < |due| ==> due[i].id != due[j].id && due[i].job.nextRun <= due[j].job.nextRun)
    && (forall id :: id in ids ==> Lists(due, id))
  }

  lemma {:induction false} OrderedListing(jobs: Jobs, ids: set<JobId>) returns (due: seq<Listed>)
    requires ids <= jobs.Keys
    ensures Orders(jobs, ids, due)
    decreases |ids|
  {
    due := [];
    if ids != {} {
      var first := FirstDue(jobs, ids);
      var rest := OrderedListing(jobs, ids - {first});
      due := [Listed(first, jobs[first])] + rest;
      forall id | id in ids ensures Lists(due, id) {
        if id == first {
          assert due[0].id == id;
        } else {
          assert Lists(rest, id);
          var i :| 0 <= i < |rest| && rest[i].id == id;
          assert due[i + 1].id == id;
        }
      }
    }
  }

  lemma DueListing(jobs: Jobs, now: int) returns (due: seq<Listed>)
    ensures IsDueListing(jobs, now, due)
  {
    var ids := set u | u in jobs && IsDue(jobs[u], now);
    due := OrderedListing(jobs, ids);
  }

  /** A listing at the clock, and n steps of the tick loop through it. */
  function TickSteps(k: nat, now: int, due: seq<Listed>, n: nat): seq<Label> {
    seq(n + 1, j => if j == 0 then ListDueJobs(k, now, due) else ClaimNext(k))
  }

  /** The tick loop has dealt with the first n listed jobs, and the job at position i > n has not changed. */
  ghost predicate Reaching(s: State, k: nat, now: int, due: seq<Listed>, n: nat, id: JobId, row: Job) {
    && n <= |due| && k in s.tickers && s.tickers[k] == Ticker(now, due[n..]) && id in s.jobs && s.jobs[id] == row
  }

  lemma HeadPasses(w: World, s: State, k: nat, now: int, due: seq<Listed>, n: nat, id: JobId, row: Job)
    requires Reaching(s, k, now, due, n, id, row) && n < |due| && due[n].id != id
    ensures Next(w, s, ClaimNext(k)) == Some(TickStep(w, s, k)) && Claimed(w, s, ClaimNext(k), id) == []
    ensures Reaching(TickStep(w, s, k), k, now, due, n + 1, id, row)
  {
    assert due[n..][0] == due[n] && due[n..][1..] == due[n + 1..];
  }

  /** The tick loop works through its listing up to the job. */
  lemma {:induction false} TickReaches(w: World, s: State, k: nat, due: seq<Listed>, n: nat, id: JobId)
    requires k !in s.tickers && IsDueListing(s.jobs, s.clock, due) && id in s.jobs
    requires n <= |due| && forall j :: 0 <= j < n ==> due[j].id != id
    ensures Exec(w, s, TickSteps(k, s.clock, due, n)).Some?
    ensures Dues(w, s, TickSteps(k, s.clock, due, n), id) == []
    ensures Reaching(Exec(w, s, TickSteps(k, s.clock, due, n)).value, k, s.clock, due, n, id, s.jobs[id])
    decreases n
  {
    var ls := TickSteps(k, s.clock, due, n);
    if n == 0 {
      assert ls[..0] == [] && ls[0] == ListDueJobs(k, s.clock, due);
      assert due[0..] == due;
    } else {
      var ls0 := TickSteps(k, s.clock, due, n - 1);
      TickReaches(w, s, k, due, n - 1, id);
      assert ls[..n] == ls0 && ls[n] == ClaimNext(k);
      HeadPasses(w, Exec(w, s, ls0).value, k, s.clock, due, n - 1, id, s.jobs[id]);
    }
  }

  lemma LastStepClaims(w: World, s: State, k: nat, now: int, due: seq<Listed>, n: nat, id: JobId, row: Job)
    requires Reaching(s, k, now, due, n, id, row) && n < |due| && due[n] == Listed(id, row)
    requires row.state == Enabled && w.cron(row.config, now).Some?
    ensures Next(w, s, ClaimNext(k)).Some? && Claimed(w, s, ClaimNext(k), id) == [row.nextRun]
  {
    assert due[n..][0] == due[n];
  }

  lemma ListedJobFires(w: World, s: State, k: nat, due: seq<Listed>, i: nat, id: JobId)
    requires k !in s.tickers && IsDueListing(s.jobs, s.clock, due) && i < |due| && due[i].id == id
    requires id in s.jobs && w.cron(s.jobs[id].config, s.clock).Some?
    ensures var ls := TickSteps(k, s.clock, due, i + 1);
            Exec(w, s, ls).Some? && Dues(w, s, ls, id) == [s.jobs[id].nextRun]
  {
    TickReaches(w, s, k, due, i, id);
    var ls0, ls := TickSteps(k, s.clock, due, i), TickSteps(k, s.clock, due, i + 1);
    LastStepClaims(w, Exec(w, s, ls0).value, k, s.clock, due, i, id, s.jobs[id]);
    assert ls[..i + 1] == ls0 && ls[i + 1] == ClaimNext(k);
  }

  /** An enabled job whose next run has come is claimed by the next tick, with that due time. */
  lemma DueJobFires(w: World, s: State, id: JobId) returns (ls: seq<Label>)
    requires id in s.jobs && IsDue(s.jobs[id], s.clock) && w.cron(s.jobs[id].config, s.clock).Some?
    ensures Quiet(ls) && Exec(w, s, ls).Some? && Dues(w, s, ls, id) == [s.jobs[id].nextRun]
  {
    var k := FreshKey(s.tickers.Keys);
    var due := DueListing(s.jobs, s.clock);
    var i :| 0 <= i < |due| && due[i].id == id;
    ListedJobFires(w, s, k, due, i, id);
    ls := TickSteps(k, s.clock, due, i + 1);
  }

  // ---------------------------------------------------------------- the exact condition

  /** No service write happens in the run. */
  predicate Quiet(ls: seq<Label>) { forall i :: 0 <= i < |ls| ==> !ls[i].Commit? }

  lemma {:induction false} QuietRunIsHarmless(w: World, s: State, ls: seq<Label>, id: JobId, past: seq<int>)
    requires Quiet(ls) && Exec(w, s, ls).Some?
    ensures HarmlessRun(w, s, ls, id, past)
    decreases |ls|
  {
    if ls != [] {
      QuietRunIsHarmless(w, s, ls[..|ls| - 1], id, past);
    }
  }

  /** Whatever the tick loops do from s on, without further service writes, due times go on increasing. */
  ghost predicate StaysInOrder(w: World, s: State, id: JobId, past: seq<int>) {
    forall ls :: Quiet(ls) && Exec(w, s, ls).Some? ==> Increasing(past + Dues(w, s, ls, id))
  }

  /** A harmful write: the next tick claims the job for a time that is not after all of those served. */
  lemma HarmfulWriteFiresAgain(w: World, s: State, k: nat, id: JobId, past: seq<int>)
    requires Sound(w, s) && Behind(s, id, past) && k in s.writes && !Harmless(s, Commit(k), id, past)
    requires var s' := Next(w, s, Commit(k)).value; id in s'.jobs ==> w.cron(s'.jobs[id].config, s.clock).Some?
    ensures !StaysInOrder(w, Next(w, s, Commit(k)).value, id, past)
  {
    var s', x := Next(w, s, Commit(k)).value, s.writes[k];
    assert SoundWrite(w, x);
    var i :| 0 <= i < |past| && past[i] >= NextOf(x);
    assert id in s'.jobs && s'.jobs[id].nextRun == NextOf(x) && IsDue(s'.jobs[id], s'.clock);
    var ls := DueJobFires(w, s', id);
    var dues := past + Dues(w, s', ls, id);
    assert dues[i] == past[i] && dues[|past|] == NextOf(x);
    assert !Increasing(dues);
  }

  /** A service write, made after due times `past` were claimed, keeps them in order in every
      continuation exactly when it is harmless (for a job that still has a next run). */
  lemma WriteKeepsOrder(w: World, s: State, k: nat, id: JobId, past: seq<int>)
    requires Advancing(w.cron) && Sound(w, s) && Increasing(past) && Behind(s, id, past) && k in s.writes
    requires var s' := Next(w, s, Commit(k)).value; id in s'.jobs ==> w.cron(s'.jobs[id].config, s.clock).Some?
    ensures StaysInOrder(w, Next(w, s, Commit(k)).value, id, past) <==> Harmless(s, Commit(k), id, past)
  {
    var s' := Next(w, s, Commit(k)).value;
    if Harmless(s, Commit(k), id, past) {
      StepKeepsSound(w, s, Commit(k));
      CommitKeepsBehind(w, s, k, id, past);
      forall ls | Quiet(ls) && Exec(w, s', ls).Some? ensures Increasing(past + Dues(w, s', ls, id)) {
        QuietRunIsHarmless(w, s', ls, id, past);
        DueTimesIncrease(w, s', ls, id, past);
      }
    } else {
      HarmfulWriteFiresAgain(w, s, k, id, past);
    }
  }
}
