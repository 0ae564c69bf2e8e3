/** A restart in the middle of a rate window: for every rate R a run with 2 R claims at one instant,
    which is all that the bound with one restart allows. */
module Restarts {
  import opened Options
  import opened TaskRows
  import opened TokenBucket
  import opened WorkerSystem
  import opened WorkerRates

  // ---------------------------------------------------------------- R tasks

  /** The i-th task name: i + 1 letters. */
  function Name(i: nat): string { seq(i + 1, _ => 'a') }

  ghost function Names(n: nat): set<string> { set i: nat | i < n :: Name(i) }

  /** The row of the i-th task when the first m have been claimed. */
  function Row(i: nat, m: nat): Task { Task("q", i, if i < m then Running else Pending, 0, 0, 0) }

  ghost function Table(n: nat, m: nat): Rows { map id | id in Names(n) :: Row(|id| - 1, m) }

  function Listing(n: nat): seq<Listed> { seq(n, i requires 0 <= i < n => Listed(Name(i), Row(i, 0))) }

  ghost function Live(m: nat): map<nat, Dispatch> { map g: nat | g < m :: Dispatch(Name(g), Row(g, 0), Requesting) }

  lemma Named(n: nat, id: string)
    ensures id in Names(n) <==> 1 <= |id| <= n && id == Name(|id| - 1)
  {
  }

  lemma TableGrows(n: nat)
    ensures Name(n) !in Table(n, 0) && AboveAll(Table(n, 0), n)
    ensures Table(n, 0)[Name(n) := Row(n, 0)] == Table(n + 1, 0)
  {
    forall id ensures id in Names(n + 1) <==> id in Names(n) || id == Name(n) {
      Named(n, id);
      Named(n + 1, id);
    }
    forall id ensures id in Names(n) ==> |id| - 1 < n {
      Named(n, id);
    }
  }

  lemma TableClaims(n: nat, m: nat)
    requires m < n
    ensures Name(m) in Table(n, m) && Table(n, m)[Name(m)] == Row(m, m)
    ensures Claim(Table(n, m), Name(m)) == Table(n, m + 1)
  {
    forall id | id in Names(n) ensures Claim(Table(n, m), Name(m))[id] == Row(|id| - 1, m + 1) {
      Named(n, id);
    }
  }

  lemma TableRecovers(n: nat)
    ensures RecoverRunning(Table(n, n)) == Table(n, 0)
  {
    forall id | id in Names(n) ensures RecoverRunning(Table(n, n))[id] == Row(|id| - 1, 0) {
      Named(n, id);
    }
  }

  lemma ListsAll(n: nat)
    ensures IsListing(Table(n, 0), "q", 0, n, Listing(n))
  {
    forall id | id in Names(n) ensures Lists(Listing(n), id) {
      Named(n, id);
      assert Listing(n)[|id| - 1].id == id;
    }
  }

  // ---------------------------------------------------------------- states

  function Pool(r: nat): Config { Config(r, 1, 60) }

  function TheQueue(r: nat): Queue { NewQueue("q", r, r) }

  /** A recovered worker with n due tasks. */
  ghost function Recovered(r: nat, n: nat): State {
    State(0, map["q" := TheQueue(r)], Table(n, 0), Idle, 0, map[], map[], map[])
  }

  /** The poller at pc, with m of the r tasks dispatched. */
  ghost function Polling(r: nat, m: nat, pc: Pc): State {
    State(0, map["q" := TheQueue(r)], Table(r, m), pc, m, if m == 0 then map[] else map["q" := m],
          map["q" := Bucket((r - m) as real, 0)], Live(m))
  }

  function TheVisit(r: nat): Visit { Visit(0, TheQueue(r), []) }

  /** The poller works through its listing. */
  ghost function Draining(r: nat, m: nat): State
    requires m <= r
  {
    Polling(r, m, Drain(TheVisit(r), Listing(r)[m..]))
  }

  function TheWindow(r: nat): Window { Window("q", 0, 0, r) }

  // ---------------------------------------------------------------- runs

  /** The run from the start is possible, reads the window's rate, makes n claims and ends in s. */
  ghost predicate Reaches(r: nat, ls: seq<Label>, s: State, n: nat) {
    && Exec(Pool(r), Boot(0), ls) == Some(s) && RateHeld(Pool(r), Boot(0), ls, TheWindow(r))
    && ClaimCount(Pool(r), Boot(0), ls, TheWindow(r)) == n
  }

  lemma Extends(r: nat, ls: seq<Label>, s: State, n: nat, l: Label, s': State)
    requires Reaches(r, ls, s, n) && Next(Pool(r), s, l) == Some(s') && ReadsRate(TheWindow(r), s, l)
    ensures Reaches(r, ls + [l], s', n + if ClaimsIn(TheWindow(r), s, l) then 1 else 0)
  {
    var grown := ls + [l];
    assert grown[..|grown| - 1] == ls && grown[|grown| - 1] == l;
  }

  /** Start, create the queue and n tasks. */
  lemma {:induction false} SetUp(r: nat, n: nat) returns (ls: seq<Label>)
    requires r >= 1
    ensures Reaches(r, ls, Recovered(r, n), 0)
    decreases n
  {
    if n == 0 {
      assert RecoverRunning(map[]) == map[] && Table(0, 0) == map[];
      var s1 := Boot(0).(pc := Idle);
      Extends(r, [], Boot(0), 0, Recover, s1);
      Extends(r, [Recover], s1, 0, Outside(CreateQueue("q", r, r)), Recovered(r, 0));
      ls := [Recover] + [Outside(CreateQueue("q", r, r))];
    } else {
      ls := SetUp(r, n - 1);
      TableGrows(n - 1);
      var l := Outside(CreateTask(Name(n - 1), "q", n - 1, 0, 0));
      Extends(r, ls, Recovered(r, n - 1), 0, l, Recovered(r, n));
      ls := ls + [l];
    }
  }

  lemma FullBucket(r: nat)
    requires r >= 1
    ensures Refilled(map[], TheVisit(r)) == Bucket(r as real, 0) && Truncate(r as real) == r
  {
  }

  lemma PollStarts(r: nat, ls: seq<Label>, n: nat) returns (ls': seq<Label>)
    requires r >= 1 && Reaches(r, ls, Recovered(r, r), n)
    ensures Reaches(r, ls', Recovered(r, r).(pc := Roomed(TheVisit(r), r)), n)
  {
    var s, q := Recovered(r, r), TheQueue(r);
    var s1 := s.(pc := Scan(0, [q]));
    assert [q][0].id == "q" && [q][1..] == [];
    Extends(r, ls, s, n, Poller(BeginPoll([q])), s1);
    Extends(r, ls + [Poller(BeginPoll([q]))], s1, n, Poller(NextQueue), s.(pc := Roomed(TheVisit(r), r)));
    ls' := ls + [Poller(BeginPoll([q]))] + [Poller(NextQueue)];
  }

  lemma LimitsRead(r: nat)
    requires r >= 1
    ensures ComputeLimits(Recovered(r, r).(pc := Roomed(TheVisit(r), r))) == Polling(r, 0, Limited(TheVisit(r), r))
  {
    FullBucket(r);
    assert Live(0) == map[];
  }

  /** Up to the listing, with a full bucket. */
  lemma PollBegins(r: nat, ls: seq<Label>, n: nat) returns (ls': seq<Label>)
    requires r >= 1 && Reaches(r, ls, Recovered(r, r), n)
    ensures Reaches(r, ls', Draining(r, 0), n)
  {
    ls' := PollStarts(r, ls, n);
    var v, p := TheVisit(r), Listing(r);
    LimitsRead(r);
    Extends(r, ls', Recovered(r, r).(pc := Roomed(v, r)), n, Poller(ReadLimits), Polling(r, 0, Limited(v, r)));
    ls' := ls' + [Poller(ReadLimits)];
    ListsAll(r);
    assert p[0..] == p;
    Extends(r, ls', Polling(r, 0, Limited(v, r)), n, Poller(ListTasks(p)), Draining(r, 0));
    ls' := ls' + [Poller(ListTasks(p))];
  }

  /** The task at the head of what is left of the listing. */
  lemma Head(r: nat, m: nat)
    requires m < r
    ensures var rest := Listing(r)[m..];
            rest != [] && rest[0] == Listed(Name(m), Row(m, 0)) && rest[1..] == Listing(r)[m + 1..]
  {
  }

  /** The next task is claimed, and its goroutine not yet started. */
  ghost function HalfWay(r: nat, m: nat): State
    requires m < r
  {
    Polling(r, m, Claimed(TheVisit(r), Listing(r)[m..])).(tasks := Table(r, m + 1), sem := m + 1)
  }

  lemma SlotAndClaim(r: nat, ls: seq<Label>, n: nat, m: nat) returns (ls': seq<Label>)
    requires m < r && Reaches(r, ls, Draining(r, m), n)
    ensures Reaches(r, ls', HalfWay(r, m), n + 1)
  {
    var s, v, rest := Draining(r, m), TheVisit(r), Listing(r)[m..];
    var s1 := s.(sem := m + 1, pc := Slot(v, rest));
    Head(r, m);
    TableClaims(r, m);
    Extends(r, ls, s, n, Poller(TakeSlot), s1);
    ls' := ls + [Poller(TakeSlot)];
    Extends(r, ls', s1, n, Poller(ClaimHead), HalfWay(r, m));
    ls' := ls' + [Poller(ClaimHead)];
  }

  lemma OneMore(r: nat, m: nat)
    requires m < r
    ensures var inflight := if m == 0 then map[] else map["q" := m];
            inflight["q" := Inflight(inflight, "q") + 1] == map["q" := m + 1]
    ensures Live(m)[m := Dispatch(Name(m), Row(m, 0), Requesting)] == Live(m + 1)
    ensures (r - m) as real - 1.0 == (r - (m + 1)) as real
  {
  }

  lemma Spawns(r: nat, m: nat)
    requires m < r
    ensures SpawnDispatch(HalfWay(r, m), m) == Draining(r, m + 1)
  {
    Head(r, m);
    OneMore(r, m);
    var b, b' := Bucket((r - m) as real, 0), Bucket((r - (m + 1)) as real, 0);
    assert map["q" := b]["q" := b'] == map["q" := b'];
  }

  /** One more task: slot, claim, goroutine. */
  lemma ClaimsOne(r: nat, ls: seq<Label>, n: nat, m: nat) returns (ls': seq<Label>)
    requires m < r && Reaches(r, ls, Draining(r, m), n)
    ensures Reaches(r, ls', Draining(r, m + 1), n + 1)
  {
    ls' := SlotAndClaim(r, ls, n, m);
    Head(r, m);
    Spawns(r, m);
    Extends(r, ls', HalfWay(r, m), n + 1, Poller(Spawn(m)), SpawnDispatch(HalfWay(r, m), m));
    ls' := ls' + [Poller(Spawn(m))];
  }

  lemma {:induction false} ClaimsRest(r: nat, ls: seq<Label>, n: nat, m: nat) returns (ls': seq<Label>)
    requires m <= r && Reaches(r, ls, Draining(r, m), n)
    ensures Reaches(r, ls', Draining(r, r), n + r - m)
    decreases r - m
  {
    if m == r {
      ls' := ls;
    } else {
      var next := ClaimsOne(r, ls, n, m);
      ls' := ClaimsRest(r, next, n + 1, m + 1);
    }
  }

  /** A whole poll claims all r tasks. */
  lemma Polls(r: nat, ls: seq<Label>, n: nat) returns (ls': seq<Label>)
    requires r >= 1 && Reaches(r, ls, Recovered(r, r), n)
    ensures Reaches(r, ls', Polling(r, r, Scan(0, [])), n + r)
  {
    ls' := PollBegins(r, ls, n);
    ls' := ClaimsRest(r, ls', n, 0);
    assert Listing(r)[r..] == [];
    Extends(r, ls', Draining(r, r), n + r, Poller(TakeSlot), Polling(r, r, Scan(0, [])));
    ls' := ls' + [Poller(TakeSlot)];
  }

  /** A crash and a recovery give back all tasks, and a worker without buckets. */
  lemma Restarted(r: nat, ls: seq<Label>, n: nat) returns (ls': seq<Label>)
    requires r >= 1 && Reaches(r, ls, Polling(r, r, Scan(0, [])), n)
    ensures Reaches(r, ls', Recovered(r, r), n)
  {
    var s := Polling(r, r, Scan(0, []));
    var s1 := s.(pc := Starting, sem := 0, inflight := map[], buckets := map[], live := map[]);
    TableRecovers(r);
    Extends(r, ls, s, n, Crash, s1);
    Extends(r, ls + [Crash], s1, n, Recover, Recovered(r, r));
    ls' := ls + [Crash] + [Recover];
  }

  /** Across a restart one bucket is not enough: at every rate R there is a run with 2 R claims at one
      instant, where R + R * 0 is promised. */
  lemma RestartHandsOutAnotherBucket(r: nat) returns (ls: seq<Label>)
    requires r >= 1
    ensures var w := TheWindow(r);
            && RateHeld(Pool(r), Boot(0), ls, w) && Exec(Pool(r), Boot(0), ls).Some?
            && ClaimCount(Pool(r), Boot(0), ls, w) == 2 * r
            && ClaimCount(Pool(r), Boot(0), ls, w) as real
               > w.rate as real + w.rate as real * (w.to - w.from) as real / 1000.0
  {
    ls := SetUp(r, r);
    ls := Polls(r, ls, 0);
    ls := Restarted(r, ls, r);
    ls := Polls(r, ls, r);
  }
}
