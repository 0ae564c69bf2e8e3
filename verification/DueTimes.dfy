/** Claims of one job by any number of tick loops: when their due times strictly increase, and
    when a won compare-and-swap means that the listed configuration is the current one. */
module DueTimes {
  import opened Options
  import opened JobConfigs
  import opened JobRows
  import opened SchedulerSystem

  /** The step is a tick loop's winning compare-and-swap on the job. */
  ghost predicate Wins(w: World, s: State, l: Label, id: JobId) {
    l.ClaimNext? && l.k in s.tickers && s.tickers[l.k].due != [] && (
      var e := s.tickers[l.k].due[0];
      e.id == id && w.cron(e.job.config, s.tickers[l.k].now).Some? && Claimable(s.jobs, id, e.job.nextRun))
  }

  function NextOf(x: Write): int { if x.Create? then x.job.nextRun else x.next }

  /** The step is the write half of a service call, and it changes the job's row. */
  ghost predicate Rewrites(s: State, l: Label, id: JobId) {
    l.Commit? && l.k in s.writes && s.writes[l.k].id == id && (s.writes[l.k].Create? <==> id !in s.jobs)
  }

  /** The due time that the step claims, if it does. */
  ghost function Claimed(w: World, s: State, l: Label, id: JobId): seq<int> {
    if Wins(w, s, l, id) then [s.tickers[l.k].due[0].job.nextRun] else []
  }

  /** The due times of the job's successful claims, in order. */
  ghost function Dues(w: World, s: State, ls: seq<Label>, id: JobId): seq<int>
    requires Exec(w, s, ls).Some?
    decreases |ls|
  {
    if ls == [] then [] else
      var ls0, l := ls[..|ls| - 1], ls[|ls| - 1];
      var s0 := Exec(w, s, ls0).value;
      Dues(w, s, ls0, id) + Claimed(w, s0, l, id)
  }

  ghost predicate Increasing(xs: seq<int>) { forall i, j :: 0 <= i < j < |xs| ==> xs[i] < xs[j] }

  /** Every due time claimed so far is past, and before the next run of an enabled job. */
  ghost predicate Behind(s: State, id: JobId, dues: seq<int>) {
    forall i :: 0 <= i < |dues| ==>
      dues[i] <= s.clock && (id in s.jobs && s.jobs[id].state == Enabled ==> dues[i] < s.jobs[id].nextRun)
  }

  /** If the step rewrites the row, it pauses the job or sets a next run above every due time claimed
      so far. */
  ghost predicate Harmless(s: State, l: Label, id: JobId, dues: seq<int>) {
    Rewrites(s, l, id) ==>
      var next := NextOf(s.writes[l.k]);
      next == 0 || forall i :: 0 <= i < |dues| ==> dues[i] < next
  }

  /** A possible run of harmless writes, after the due times `past` have been claimed. */
  ghost predicate HarmlessRun(w: World, s: State, ls: seq<Label>, id: JobId, past: seq<int>)
    decreases |ls|
  {
    ls == [] || (
      var ls0 := ls[..|ls| - 1];
      && HarmlessRun(w, s, ls0, id, past)
      && Exec(w, s, ls).Some?
      && Harmless(Exec(w, s, ls0).value, ls[|ls| - 1], id, past + Dues(w, s, ls0, id)))
  }

  lemma TickKeepsBehind(w: World, s: State, k: nat, id: JobId, dues: seq<int>)
    requires Advancing(w.cron) && Sound(w, s) && k in s.tickers && s.tickers[k].due != []
    requires Behind(s, id, dues) && Increasing(dues)
    ensures var claimed := Claimed(w, s, ClaimNext(k), id);
            Behind(TickStep(w, s, k), id, dues + claimed) && Increasing(dues + claimed)
  {
    assert SoundTicker(s, s.tickers[k]);
    assert 0 < s.tickers[k].due[0].job.nextRun <= s.tickers[k].now;
  }

  lemma CommitKeepsBehind(w: World, s: State, k: nat, id: JobId, dues: seq<int>)
    requires Sound(w, s) && k in s.writes && Behind(s, id, dues) && Harmless(s, Commit(k), id, dues)
    ensures Behind(s.(jobs := Apply(s.jobs, s.writes[k]), writes := s.writes - {k}), id, dues)
  {
    assert SoundWrite(w, s.writes[k]);
  }

  lemma OtherKeepsBehind(w: World, s: State, l: Label, id: JobId, dues: seq<int>)
    requires Behind(s, id, dues) && Next(w, s, l).Some? && !l.ClaimNext? && !l.Commit?
    ensures Behind(Next(w, s, l).value, id, dues)
  {
    var s' := Next(w, s, l).value;
    assert s.clock <= s'.clock;
    assert id in s'.jobs ==>
        id in s.jobs && s'.jobs[id].nextRun == s.jobs[id].nextRun && s'.jobs[id].state == s.jobs[id].state;
  }

  /** From any reachable state, after due times `past`: if every service write to the job in the run is
      harmless (in particular if there is none), its successful claims take strictly increasing due
      times. */
  lemma {:induction false} DueTimesIncrease(w: World, s: State, ls: seq<Label>, id: JobId, past: seq<int>)
    requires Advancing(w.cron) && Sound(w, s) && Increasing(past) && Behind(s, id, past)
    requires HarmlessRun(w, s, ls, id, past)
    ensures Exec(w, s, ls).Some? && Sound(w, Exec(w, s, ls).value)
    ensures Increasing(past + Dues(w, s, ls, id)) && Behind(Exec(w, s, ls).value, id, past + Dues(w, s, ls, id))
    decreases |ls|
  {
    if ls == [] {
      assert past + Dues(w, s, ls, id) == past;
    } else {
      var ls0, l := ls[..|ls| - 1], ls[|ls| - 1];
      DueTimesIncrease(w, s, ls0, id, past);
      StepKeepsSound(w, Exec(w, s, ls0).value, l);
      StepKeepsBehind(w, Exec(w, s, ls0).value, l, id, past + Dues(w, s, ls0, id));
      assert past + Dues(w, s, ls, id) == past + Dues(w, s, ls0, id) + Claimed(w, Exec(w, s, ls0).value, l, id);
    }
  }

  lemma StepKeepsBehind(w: World, s: State, l: Label, id: JobId, dues: seq<int>)
    requires Advancing(w.cron) && Sound(w, s) && Next(w, s, l).Some?
    requires Behind(s, id, dues) && Increasing(dues) && Harmless(s, l, id, dues)
    ensures Behind(Next(w, s, l).value, id, dues + Claimed(w, s, l, id)) && Increasing(dues + Claimed(w, s, l, id))
  {
    assert !l.ClaimNext? ==> dues + Claimed(w, s, l, id) == dues;
    match l
    case ClaimNext(k) => TickKeepsBehind(w, s, k, id, dues);
    case Commit(k) => CommitKeepsBehind(w, s, k, id, dues);
    case _ => OtherKeepsBehind(w, s, l, id, dues);
  }

  // ---------------------------------------------------------------- writes in time

  /** If the step writes the job for a service call, the next run it writes is still ahead. */
  ghost predicate Timely(s: State, l: Label, id: JobId) {
    l.Commit? && l.k in s.writes && s.writes[l.k].id == id ==>
      NextOf(s.writes[l.k]) == 0 || NextOf(s.writes[l.k]) > s.clock
  }

  ghost predicate TimelyRun(w: World, s: State, ls: seq<Label>, id: JobId)
    decreases |ls|
  {
    ls == [] || (
      var ls0 := ls[..|ls| - 1];
      TimelyRun(w, s, ls0, id) && Exec(w, s, ls).Some? && Timely(Exec(w, s, ls0).value, ls[|ls| - 1], id))
  }

  /** A write in time is harmless. */
  lemma {:induction false} TimelyRunIsHarmless(w: World, s: State, ls: seq<Label>, id: JobId)
    requires Advancing(w.cron) && Sound(w, s) && TimelyRun(w, s, ls, id)
    ensures HarmlessRun(w, s, ls, id, [])
    decreases |ls|
  {
    if ls != [] {
      var ls0 := ls[..|ls| - 1];
      TimelyRunIsHarmless(w, s, ls0, id);
      DueTimesIncrease(w, s, ls0, id, []);
    }
  }

  /** A write that is committed in the same instant as its read half is in time. */
  lemma AtomicCallIsTimely(w: World, s: State, k: nat, x: Write, id: JobId)
    requires Advancing(w.cron) && Sound(w, s) && Next(w, s, Prepare(k, x)).Some?
    ensures Timely(Next(w, s, Prepare(k, x)).value, Commit(k), id)
  {
    PreparedSound(w, s, x);
  }

  /** Each service call is one step: its write half directly follows its read half. */
  predicate OneStepCalls(ls: seq<Label>) {
    forall i :: 0 <= i < |ls| && ls[i].Commit? ==> i > 0 && ls[i - 1].Prepare? && ls[i - 1].k == ls[i].k
  }

  lemma {:induction false} OneStepCallsAreTimely(w: World, clock: int, ls: seq<Label>, id: JobId)
    requires Advancing(w.cron) && clock >= 0 && Exec(w, Boot(clock), ls).Some? && OneStepCalls(ls)
    ensures TimelyRun(w, Boot(clock), ls, id)
    decreases |ls|
  {
    if ls != [] {
      var ls0, l := ls[..|ls| - 1], ls[|ls| - 1];
      assert OneStepCalls(ls0);
      OneStepCallsAreTimely(w, clock, ls0, id);
      if l.Commit? {
        var prepare := ls[|ls| - 2];
        assert ls0[|ls0| - 1] == prepare;
        RowsStaySound(w, clock, ls0[..|ls0| - 1]);
        AtomicCallIsTimely(w, Exec(w, Boot(clock), ls0[..|ls0| - 1]).value, prepare.k, prepare.write, id);
      }
    }
  }

  /** If each service call is one step, due times strictly increase over the whole run, delete and
      re-create included, and a tick loop that wins the compare-and-swap listed the current
      configuration. */
  lemma OneStepCallsFireInOrder(w: World, clock: int, ls: seq<Label>, l: Label, id: JobId)
    requires Advancing(w.cron) && clock >= 0 && Exec(w, Boot(clock), ls).Some? && OneStepCalls(ls)
    ensures Increasing(Dues(w, Boot(clock), ls, id))
    ensures var s := Exec(w, Boot(clock), ls).value;
            Wins(w, s, l, id) ==> s.tickers[l.k].due[0].job.config == s.jobs[id].config
  {
    OneStepCallsAreTimely(w, clock, ls, id);
    TimelyRunIncreases(w, clock, ls, id);
    if Wins(w, Exec(w, Boot(clock), ls).value, l, id) {
      NoStaleFiring(w, clock, ls, l, id);
    }
  }

  lemma TimelyRunIncreases(w: World, clock: int, ls: seq<Label>, id: JobId)
    requires Advancing(w.cron) && clock >= 0 && TimelyRun(w, Boot(clock), ls, id) && Exec(w, Boot(clock), ls).Some?
    ensures Increasing(Dues(w, Boot(clock), ls, id))
  {
    TimelyRunIsHarmless(w, Boot(clock), ls, id);
    DueTimesIncrease(w, Boot(clock), ls, id, []);
    assert [] + Dues(w, Boot(clock), ls, id) == Dues(w, Boot(clock), ls, id);
  }

  // ---------------------------------------------------------------- no ABA

  /** A listed entry of the job is either overtaken or still describes the row. */
  ghost predicate UpToDate(s: State, e: Listed) {
    e.id in s.jobs && s.jobs[e.id].state == Enabled ==>
      || s.jobs[e.id].nextRun > e.job.nextRun
      || (s.jobs[e.id].nextRun == e.job.nextRun && s.jobs[e.id].config == e.job.config)
  }

  ghost predicate ListingsUpToDate(s: State, id: JobId) {
    forall k, i :: k in s.tickers && 0 <= i < |s.tickers[k].due| && s.tickers[k].due[i].id == id ==>
      UpToDate(s, s.tickers[k].due[i])
  }

  lemma TickKeepsUpToDate(w: World, s: State, k: nat, id: JobId)
    requires Advancing(w.cron) && Sound(w, s) && k in s.tickers && s.tickers[k].due != [] && ListingsUpToDate(s, id)
    ensures ListingsUpToDate(TickStep(w, s, k), id)
  {
    var s', t := TickStep(w, s, k), s.tickers[k];
    assert SoundTicker(s, t);
    assert 0 < t.due[0].job.nextRun <= t.now;
    forall h, i | h in s'.tickers && 0 <= i < |s'.tickers[h].due| && s'.tickers[h].due[i].id == id
      ensures UpToDate(s', s'.tickers[h].due[i])
    {
      var i' := if h == k then i + 1 else i;
      assert s'.tickers[h].due[i] == s.tickers[h].due[i'];
      assert UpToDate(s, s.tickers[h].due[i']);
    }
  }

  lemma CommitKeepsUpToDate(w: World, s: State, k: nat, id: JobId)
    requires Sound(w, s) && k in s.writes && ListingsUpToDate(s, id) && Timely(s, Commit(k), id)
    ensures ListingsUpToDate(s.(jobs := Apply(s.jobs, s.writes[k]), writes := s.writes - {k}), id)
  {
    assert SoundWrite(w, s.writes[k]);
    var s' := s.(jobs := Apply(s.jobs, s.writes[k]), writes := s.writes - {k});
    forall h, i | h in s.tickers && 0 <= i < |s.tickers[h].due| && s.tickers[h].due[i].id == id
      ensures UpToDate(s', s.tickers[h].due[i])
    {
      assert UpToDate(s, s.tickers[h].due[i]);
      assert SoundTicker(s, s.tickers[h]);
    }
  }

  lemma OtherKeepsUpToDate(w: World, s: State, l: Label, id: JobId)
    requires ListingsUpToDate(s, id) && Next(w, s, l).Some? && !l.ClaimNext? && !l.Commit?
    ensures ListingsUpToDate(Next(w, s, l).value, id)
  {
    var s' := Next(w, s, l).value;
    forall h, i | h in s'.tickers && 0 <= i < |s'.tickers[h].due| && s'.tickers[h].due[i].id == id
      ensures UpToDate(s', s'.tickers[h].due[i])
    {
      if l.ListDueJobs? && h == l.k {
      } else {
        assert h in s.tickers && s'.tickers[h] == s.tickers[h];
        assert UpToDate(s, s.tickers[h].due[i]);
      }
    }
  }

  lemma {:induction false} ListingsStayUpToDate(w: World, clock: int, ls: seq<Label>, id: JobId)
    requires Advancing(w.cron) && clock >= 0 && TimelyRun(w, Boot(clock), ls, id)
    ensures Exec(w, Boot(clock), ls).Some? && ListingsUpToDate(Exec(w, Boot(clock), ls).value, id)
    decreases |ls|
  {
    if ls != [] {
      var ls0, l := ls[..|ls| - 1], ls[|ls| - 1];
      ListingsStayUpToDate(w, clock, ls0, id);
      RowsStaySound(w, clock, ls0);
      var s := Exec(w, Boot(clock), ls0).value;
      match l
      case ClaimNext(k) => TickKeepsUpToDate(w, s, k, id);
      case Commit(k) => CommitKeepsUpToDate(w, s, k, id);
      case _ => OtherKeepsUpToDate(w, s, l, id);
    }
  }

  /** Over a whole run with timely writes, delete and re-create included: due times strictly
      increase, and a tick loop that wins the compare-and-swap listed the current configuration. */
  lemma NoStaleFiring(w: World, clock: int, ls: seq<Label>, l: Label, id: JobId)
    requires Advancing(w.cron) && clock >= 0 && TimelyRun(w, Boot(clock), ls, id)
    requires Exec(w, Boot(clock), ls).Some? && Wins(w, Exec(w, Boot(clock), ls).value, l, id)
    ensures Increasing(Dues(w, Boot(clock), ls, id))
    ensures var s := Exec(w, Boot(clock), ls).value;
            s.tickers[l.k].due[0].job.config == s.jobs[id].config
  {
    TimelyRunIncreases(w, clock, ls, id);
    ListingsStayUpToDate(w, clock, ls, id);
    var s := Exec(w, Boot(clock), ls).value;
    assert UpToDate(s, s.tickers[l.k].due[0]);
  }
}
