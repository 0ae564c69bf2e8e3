/** The worker object and its poll loop, as the source writes them, with the other goroutines and
    the API calls running between any two of its statements. What the loop does is proved to be a
    run of the transition system, so every property of runs holds of it. */
module Poller {
  import opened Options
  import opened TaskRows
  import opened TokenBucket
  import opened WorkerSystem
  import opened WorkerEffects
  import Backoffs

  /** Steps that are not the poller's and do not end the process. */
  predicate Concurrent(l: Label) { l.Outside? || l.Goroutine? }

  /** One poll: it begins with the queue listing, and from then on only poller steps of the same
      poll and concurrent steps happen. */
  predicate OnePoll(trace: seq<Label>) {
    && trace != []
    && trace[0].Poller? && trace[0].poll.BeginPoll?
    && forall i :: 0 < i < |trace| ==> Concurrent(trace[i]) || (trace[i].Poller? && !trace[i].poll.BeginPoll?)
  }

  lemma CallKeepsRowids(s: State, l: Call)
    requires DistinctRowids(s.tasks) && CallNext(s, l).Some?
    ensures DistinctRowids(CallNext(s, l).value.tasks)
  {
  }

  lemma GoKeepsRowids(c: Config, s: State, g: nat, l: GoStep)
    requires DistinctRowids(s.tasks) && GoNext(c, s, g, l).Some?
    ensures DistinctRowids(GoNext(c, s, g, l).value.tasks)
  {
  }

  predicate IdsMatch(queues: map<QueueId, Queue>) { forall q :: q in queues ==> queues[q].id == q }

  /** Concurrent steps leave the poller and the buckets alone and start no goroutine. */
  lemma ConcurrentFrame(c: Config, s: State, l: Label)
    requires Concurrent(l) && Next(c, s, l).Some? && DistinctRowids(s.tasks) && IdsMatch(s.queues)
    ensures var s' := Next(c, s, l).value;
            && s'.pc == s.pc && s'.buckets == s.buckets && s'.live.Keys <= s.live.Keys
            && DistinctRowids(s'.tasks) && IdsMatch(s'.queues)
  {
    match l
    case Outside(call) =>
      CallFrame(s, call);
      CallKeepsRowids(s, call);
    case Goroutine(g, go) =>
      GoFrame(c, s, g, go);
      GoKeepsRowids(c, s, g, go);
  }

  /** The poller's next step extends the run. */
  lemma PollerMoves(c: Config, s0: State, trace: seq<Label>, l: PollStep, s: State, s': State)
    requires OnePoll(trace) && Exec(c, s0, trace) == Some(s)
    requires !l.BeginPoll? && PollNext(c, s, l) == Some(s')
    ensures OnePoll(trace + [Poller(l)]) && Exec(c, s0, trace + [Poller(l)]) == Some(s')
  {
    ExecExtend(c, s0, trace, Poller(l));
  }

  class Worker {
    const config: Config
    const repo: TaskRepository
    var clock: int
    var queues: map<QueueId, Queue>
    var sem: int
    var inflight: map<QueueId, int>
    var buckets: map<QueueId, Bucket>
    var live: map<nat, Dispatch>
    var spawned: nat  // number of goroutines started so far

    /** The state of the transition system when the poller stands at pc. */
    function At(pc: Pc): State
      reads this, repo
    {
      State(clock, queues, repo.rows, pc, sem, inflight, buckets, live)
    }

    ghost predicate Valid()
      reads this, repo
    {
      && DistinctRowids(repo.rows)
      && IdsMatch(queues)
      && (forall g :: g in live ==> g < spawned)
    }

    constructor (config: Config, repo: TaskRepository, clock: int, queues: map<QueueId, Queue>)
      requires DistinctRowids(repo.rows) && IdsMatch(queues)
      ensures Valid() && this.config == config && this.repo == repo
      ensures At(Starting) == State(clock, queues, repo.rows, Starting, 0, map[], map[], map[])
    {
      this.config, this.repo, this.clock, this.queues := config, repo, clock, queues;
      sem, inflight, buckets, live, spawned := 0, map[], map[], map[], 0;
    }

    /** The start of Run: recover the tasks a previous process left RUNNING. */
    method Start() returns (n: nat)
      requires Valid()
      modifies repo
      ensures Valid() && Next(config, old(At(Starting)), Recover) == Some(At(Idle))
      ensures n == |set id | id in old(repo.rows) && old(repo.rows)[id].status == Running|
    {
      n := repo.Recover();
    }

    method ListAll() returns (qs: seq<Queue>)
      requires Valid()
      ensures ListsQueues(queues, qs)
    {
      qs := [];
      var todo := queues.Keys;
      while todo != {}
        invariant todo <= queues.Keys
        invariant forall i :: 0 <= i < |qs| ==> qs[i].id in queues && queues[qs[i].id] == qs[i] && qs[i].id !in todo
        invariant forall i, j :: 0 <= i < j < |qs| ==> qs[i].id != qs[j].id
        invariant forall id :: id in queues && id !in todo ==> exists i :: 0 <= i < |qs| && qs[i].id == id
        decreases todo
      {
        var id :| id in todo;
        var grown := qs + [queues[id]];
        forall u | u in queues && u !in todo - {id} ensures exists i :: 0 <= i < |grown| && grown[i].id == u {
          if u == id {
            assert grown[|qs|].id == u;
          } else {
            var i :| 0 <= i < |qs| && qs[i].id == u;
            assert grown[i].id == u;
          }
        }
        qs := grown;
        todo := todo - {id};
      }
    }

    /** One step of somebody else, if it is possible now. */
    method Other(ghost s0: State, pc: Pc, l: Label, trace: seq<Label>) returns (trace': seq<Label>)
      requires Valid() && Exec(config, s0, trace) == Some(At(pc)) && OnePoll(trace)
      modifies this, repo
      ensures Valid() && Exec(config, s0, trace') == Some(At(pc)) && OnePoll(trace')
    {
      trace' := trace;
      if Concurrent(l) {
        var r := Next(config, At(pc), l);
        if r.Some? {
          var s := r.value;
          ConcurrentFrame(config, At(pc), l);
          ExecExtend(config, s0, trace, l);
          trace' := trace + [l];
          clock, queues, repo.rows, sem, inflight, live := s.clock, s.queues, s.tasks, s.sem, s.inflight, s.live;
        }
      }
    }

    /** Whatever the others do before the poller's next statement. */
    method Interfere(ghost s0: State, pc: Pc, others: seq<Label>, trace: seq<Label>) returns (trace': seq<Label>)
      requires Valid() && Exec(config, s0, trace) == Some(At(pc)) && OnePoll(trace)
      modifies this, repo
      ensures Valid() && Exec(config, s0, trace') == Some(At(pc)) && OnePoll(trace')
    {
      trace' := trace;
      for i := 0 to |others|
        invariant Valid() && Exec(config, s0, trace') == Some(At(pc)) && OnePoll(trace')
      {
        trace' := Other(s0, pc, others[i], trace');
      }
    }

    /** The locked section: the refill and the per-queue limits. */
    method ReadQueueLimits(q: Queue, now: int, room: int) returns (limit: int)
      modifies this`buckets
      ensures forall rest :: var v := Visit(now, q, rest);
                At(if limit <= 0 then Scan(now, rest) else Limited(v, limit)) == ComputeLimits(old(At(Roomed(v, room))))
    {
      limit := room;
      if q.concurrency > 0 {
        limit := MinInt(limit, q.concurrency - Inflight(inflight, q.id));
      }
      if q.rate > 0 {
        var b := if q.id in buckets then buckets[q.id] else Bucket(Capacity(q.rate), now);
        b := Refill(b, now, q.rate);
        buckets := buckets[q.id := b];
        limit := MinInt(limit, Truncate(b.tokens));
      }
    }

    /** Count the dispatch, pay its token, start the goroutine. */
    method StartDispatch(v: Visit, pending: seq<Listed>)
      requires Valid() && pending != []
      modifies this
      ensures Valid()
      ensures PollNext(config, old(At(Claimed(v, pending))), Spawn(old(spawned))) == Some(At(Drain(v, pending[1..])))
    {
      var q := v.queue.id;
      inflight := inflight[q := Inflight(inflight, q) + 1];
      if v.queue.rate > 0 && q in buckets {
        buckets := buckets[q := Bucket(buckets[q].tokens - 1.0, buckets[q].last)];
      }
      live := live[spawned := Dispatch(pending[0].id, pending[0].task, Requesting)];
      spawned := spawned + 1;
    }

    /** The end of dispatch: record the outcome of the request (its HTTP status, or None when it
        could not be built or sent), with a retry or a permanent failure for everything but 2xx. */
    method RecordOutcome(g: nat, response: Option<int>)
      requires g in live && live[g].phase == Requesting
      modifies this`live, repo
      ensures forall pc :: GoNext(config, old(At(pc)), g,
                             if response.Some? && 200 <= response.value < 300 then Succeed else Fail) == Some(At(pc))
      ensures OutcomeWritten(config, old(At(Idle)), At(Idle), g, response.Some? && 200 <= response.value < 300)
    {
      OutcomeIsWritten(config, At(Idle), g, response.Some? && 200 <= response.value < 300);
      var t := live[g].task;
      live := live[g := live[g].(phase := Recorded)];
      if response.Some? && 200 <= response.value < 300 {
        repo.SetStatus(live[g].id, Completed);
        return;
      }
      var retry := t.retries + 1;
      if retry > t.maxRetries {
        repo.SetStatus(live[g].id, Failed);
        return;
      }
      var delay := Backoffs.TaskBackoff(config.initialBackoff, config.maxBackoff, retry);
      repo.SetRetry(live[g].id, retry, clock + 1000 * delay);
    }

    /** The deferred part, first half: the in-flight count. */
    method GiveCountBack(g: nat)
      requires g in live && live[g].phase == Recorded
      modifies this`live, this`inflight
      ensures forall pc :: GoNext(config, old(At(pc)), g, Uncount) == Some(At(pc))
    {
      var q := live[g].task.queue;
      inflight := inflight[q := Inflight(inflight, q) - 1];
      live := live[g := live[g].(phase := Uncounted)];
    }

    /** The deferred part, second half: the semaphore slot. */
    method GiveSlotBack(g: nat)
      requires g in live && live[g].phase == Uncounted
      modifies this`live, this`sem
      ensures forall pc :: GoNext(config, old(At(pc)), g, Release) == Some(At(pc))
    {
      sem := sem - 1;
      live := live - {g};
    }

    /** One task of the listing: take a slot, claim, and dispatch or give the slot back. */
    method DispatchOne(ghost s0: State, v: Visit, pending: seq<Listed>, others: nat -> seq<Label>, trace: seq<Label>)
      returns (full: bool, trace': seq<Label>)
      requires Valid() && Exec(config, s0, trace) == Some(At(Drain(v, pending))) && OnePoll(trace) && pending != []
      modifies this, repo
      ensures Valid() && OnePoll(trace')
      ensures Exec(config, s0, trace') == Some(At(if full then Idle else Drain(v, pending[1..])))
    {
      trace' := Interfere(s0, Drain(v, pending), others(|trace|), trace);
      ghost var s := At(Drain(v, pending));
      full := sem >= config.slots;
      if full {
        PollerMoves(config, s0, trace', TakeSlot, s, At(Idle));
        return full, trace' + [Poller(TakeSlot)];
      }
      sem := sem + 1;
      PollerMoves(config, s0, trace', TakeSlot, s, At(Slot(v, pending)));
      trace' := ClaimAndStart(s0, v, pending, others, trace' + [Poller(TakeSlot)]);
    }

    method ClaimAndStart(ghost s0: State, v: Visit, pending: seq<Listed>, others: nat -> seq<Label>, trace: seq<Label>)
      returns (trace': seq<Label>)
      requires Valid() && Exec(config, s0, trace) == Some(At(Slot(v, pending))) && OnePoll(trace) && pending != []
      modifies this, repo
      ensures Valid() && OnePoll(trace')
      ensures Exec(config, s0, trace') == Some(At(Drain(v, pending[1..])))
    {
      trace' := Interfere(s0, Slot(v, pending), others(|trace|), trace);
      ghost var s := At(Slot(v, pending));
      var claimed := repo.ClaimTask(pending[0].id);
      if !claimed {
        sem := sem - 1;
        PollerMoves(config, s0, trace', ClaimHead, s, At(Drain(v, pending[1..])));
        return trace' + [Poller(ClaimHead)];
      }
      PollerMoves(config, s0, trace', ClaimHead, s, At(Claimed(v, pending)));
      trace' := trace' + [Poller(ClaimHead)];
      trace' := Interfere(s0, Claimed(v, pending), others(|trace'|), trace');
      ghost var s1, g := At(Claimed(v, pending)), spawned;
      var label' := Poller(Spawn(spawned));
      StartDispatch(v, pending);
      PollerMoves(config, s0, trace', Spawn(g), s1, At(Drain(v, pending[1..])));
      trace' := trace' + [label'];
    }

    /** The task loop of one queue. */
    method DispatchListed(ghost s0: State, v: Visit, listing: seq<Listed>, others: nat -> seq<Label>, trace: seq<Label>)
      returns (full: bool, trace': seq<Label>)
      requires Valid() && Exec(config, s0, trace) == Some(At(Drain(v, listing))) && OnePoll(trace)
      modifies this, repo
      ensures Valid() && OnePoll(trace')
      ensures Exec(config, s0, trace') == Some(At(if full then Idle else Scan(v.now, v.rest)))
    {
      trace' := trace;
      full := false;
      var i := 0;
      while i < |listing|
        invariant 0 <= i <= |listing|
        invariant Valid() && OnePoll(trace')
        invariant Exec(config, s0, trace') == Some(At(Drain(v, listing[i..])))
      {
        full, trace' := DispatchOne(s0, v, listing[i..], others, trace');
        if full {
          return;
        }
        assert listing[i..][1..] == listing[i + 1..];
        i := i + 1;
      }
      PollerMoves(config, s0, trace', TakeSlot, At(Drain(v, listing[i..])), At(Scan(v.now, v.rest)));
      trace' := trace' + [Poller(TakeSlot)];
    }

    /** The queue's listing, and its task loop. */
    method ListAndDispatch(ghost s0: State, v: Visit, limit: nat, others: nat -> seq<Label>, trace: seq<Label>)
      returns (full: bool, trace': seq<Label>)
      requires Valid() && Exec(config, s0, trace) == Some(At(Limited(v, limit))) && OnePoll(trace)
      modifies this, repo
      ensures Valid() && OnePoll(trace')
      ensures Exec(config, s0, trace') == Some(At(if full then Idle else Scan(v.now, v.rest)))
    {
      trace' := Interfere(s0, Limited(v, limit), others(|trace|), trace);
      var listing := repo.ListPendingForQueue(v.queue.id, clock, limit);
      PollerMoves(config, s0, trace', ListTasks(listing), At(Limited(v, limit)), At(Drain(v, listing)));
      full, trace' := DispatchListed(s0, v, listing, others, trace' + [Poller(ListTasks(listing))]);
    }

    /** One queue of the poll: skip it if paused, stop if no slot is free, else work within its limits. */
    method VisitOne(ghost s0: State, v: Visit, others: nat -> seq<Label>, trace: seq<Label>)
      returns (full: bool, trace': seq<Label>)
      requires Valid() && Exec(config, s0, trace) == Some(At(Scan(v.now, [v.queue] + v.rest))) && OnePoll(trace)
      modifies this, repo
      ensures Valid() && OnePoll(trace')
      ensures Exec(config, s0, trace') == Some(At(if full then Idle else Scan(v.now, v.rest)))
    {
      ghost var s := At(Scan(v.now, [v.queue] + v.rest));
      assert s.pc.rest[1..] == v.rest;
      var room := config.slots - sem;
      full := !v.queue.paused && room <= 0;
      trace' := trace + [Poller(NextQueue)];
      if v.queue.paused || full {
        PollerMoves(config, s0, trace, NextQueue, s, At(if full then Idle else Scan(v.now, v.rest)));
        return;
      }
      PollerMoves(config, s0, trace, NextQueue, s, At(Roomed(v, room)));
      trace' := Interfere(s0, Roomed(v, room), others(|trace'|), trace');
      s := At(Roomed(v, room));
      var limit := ReadQueueLimits(v.queue, v.now, room);
      PollerMoves(config, s0, trace', ReadLimits, s, At(if limit <= 0 then Scan(v.now, v.rest) else Limited(v, limit)));
      trace' := trace' + [Poller(ReadLimits)];
      if limit > 0 {
        full, trace' := ListAndDispatch(s0, v, limit, others, trace');
      }
    }

    /** pollAndDispatch. `others(n)` is what the rest of the system does before the poller's next
        statement, when n steps of this poll have happened. */
    method PollAndDispatch(others: nat -> seq<Label>) returns (trace: seq<Label>)
      requires Valid()
      modifies this, repo
      ensures Valid() && OnePoll(trace)
      ensures Exec(config, old(At(Idle)), trace) == Some(At(Idle))
    {
      ghost var s0 := At(Idle);
      var qs := ListAll();
      var now := clock;
      trace := [Poller(BeginPoll(qs))];
      ExecExtend(config, s0, [], trace[0]);
      assert [] + trace == trace && qs[0..] == qs;
      var i := 0;
      while i < |qs|
        invariant 0 <= i <= |qs|
        invariant Valid() && OnePoll(trace)
        invariant Exec(config, s0, trace) == Some(At(Scan(now, qs[i..])))
      {
        assert qs[i..] == [qs[i]] + qs[i + 1..];
        var full;
        trace := Interfere(s0, Scan(now, qs[i..]), others(|trace|), trace);
        full, trace := VisitOne(s0, Visit(now, qs[i], qs[i + 1..]), others, trace);
        if full {
          return;
        }
        i := i + 1;
      }
      PollerMoves(config, s0, trace, NextQueue, At(Scan(now, qs[i..])), At(Idle));
      trace := trace + [Poller(NextQueue)];
    }
  }
}
