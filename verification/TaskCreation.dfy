/** CreateTask and the queue calls: resource names, validation before any write, and the invariant
    that makes task creation all or nothing. */
module TaskCreation {
  import opened Options
  import opened ResourceIds
  import opened TaskRows
  import opened WorkerSystem

  // ---------------------------------------------------------------- names

  /** strings.Split(s, "/"). */
  function Split(s: string): seq<string>
    ensures |Split(s)| >= 1 && forall i :: 0 <= i < |Split(s)| ==> NoSlash(Split(s)[i])
  {
    if s == [] then [[]]
    else
      var init := Split(s[..|s| - 1]);
      var last := s[|s| - 1];
      if last == '/' then init + [[]] else init[|init| - 1 := init[|init| - 1] + [last]]
  }

  /** The parts put together again. */
  function Join(parts: seq<string>): string
    requires parts != []
  {
    if |parts| == 1 then parts[0] else Join(parts[..|parts| - 1]) + "/" + parts[|parts| - 1]
  }

  lemma JoinAppend(parts: seq<string>, x: string)
    requires parts != []
    ensures Join(parts + [x]) == Join(parts) + "/" + x
  {
    assert (parts + [x])[..|parts|] == parts;
  }

  lemma JoinGrow(parts: seq<string>, ch: char)
    requires parts != []
    ensures Join(parts[|parts| - 1 := parts[|parts| - 1] + [ch]]) == Join(parts) + [ch]
  {
    var n := |parts| - 1;
    assert parts[n := parts[n] + [ch]][..n] == parts[..n];
  }

  /** Nothing is lost by splitting. */
  lemma {:induction false} JoinOfSplit(s: string)
    ensures Join(Split(s)) == s
  {
    if s != [] {
      var init, last := s[..|s| - 1], s[|s| - 1];
      JoinOfSplit(init);
      JoinAppend(Split(init), []);
      JoinGrow(Split(init), last);
      assert s == init + [last];
    }
  }

  /** Splitting is piece by piece. */
  lemma {:induction false} SplitConcat(a: string, b: string)
    ensures Split(a + "/" + b) == Split(a) + Split(b)
    decreases |b|
  {
    var s := a + "/" + b;
    if b == [] {
      assert s[..|s| - 1] == a;
    } else {
      assert s[..|s| - 1] == a + "/" + b[..|b| - 1];
      SplitConcat(a, b[..|b| - 1]);
    }
  }

  lemma {:induction false} SplitPlain(s: string)
    requires NoSlash(s)
    ensures Split(s) == [s]
  {
    if s != [] {
      SplitPlain(s[..|s| - 1]);
      assert s == s[..|s| - 1] + [s[|s| - 1]];
    }
  }

  predicate ValidTaskId(s: string) { MatchesId(s, 500) }
  predicate ValidQueueName(s: string) { MatchesId(s, 100) }

  /** Short task ids have up to 500 characters, queue names up to 100. */
  lemma IdsAre(s: string)
    ensures ValidTaskId(s) <==> 1 <= |s| <= 500 && forall i :: 0 <= i < |s| ==> IdCode(s[i] as int)
    ensures ValidQueueName(s) <==> 1 <= |s| <= 100 && forall i :: 0 <= i < |s| ==> IdCode(s[i] as int)
  {
  }

  const INFIX := "/tasks/"

  function TaskName(queueId: string, short: string): string { queueId + INFIX + short }

  predicate HasPrefix(s: string, prefix: string) { |prefix| <= |s| && s[..|prefix|] == prefix }

  /** A task name determines its queue: the short id is what follows the last slash. */
  lemma NameDeterminesQueue(q: string, x: string, r: string, y: string)
    requires NoSlash(x) && NoSlash(y) && TaskName(q, x) == TaskName(r, y)
    ensures q == r && x == y
  {
    SameShortLength(q, x, r, y);
    SameShortLength(r, y, q, x);
    var s := TaskName(q, x);
    assert q == s[..|q|] && r == s[..|r|];
    assert x == s[|s| - |x|..] && y == s[|s| - |y|..];
  }

  /** The character before a slash-free short id is a slash, so the other short id is not longer. */
  lemma SameShortLength(q: string, x: string, r: string, y: string)
    requires NoSlash(y) && TaskName(q, x) == TaskName(r, y)
    ensures |y| <= |x|
  {
    var s, k := TaskName(q, x), |q| + 6;
    assert s[k] == INFIX[6] == '/';
    assert forall i :: |r| + 7 <= i < |s| ==> s[i] == y[i - |r| - 7];
  }

  // ---------------------------------------------------------------- requests

  /** The parts of a CreateTask request that decide its fate; None stands for a missing message. */
  datatype Request = Request(parent: string, task: Option<Body>)
  datatype Body = Body(name: string, url: Option<string>, deadline: Option<int>, schedule: Option<int>)

  datatype Plan = Invalid | Proceed(queueName: string, queueId: string, taskName: string)

  /** The short id: the given name without the queue prefix, or the generated one. */
  function ShortId(name: string, queueId: string, generated: string): Option<string> {
    if name == "" then Some(generated)
    else if NoSlash(name) then (if ValidTaskId(name) then Some(name) else None)
    else if !HasPrefix(name, queueId + INFIX) then None
    else
      var rest := name[|queueId + INFIX|..];
      if ValidTaskId(rest) then Some(rest) else None
  }

  /** All the checks CreateTask makes before it touches the database. */
  function Check(req: Request, generated: string, urlOk: string -> bool): Plan {
    var parts := Split(req.parent);
    if req.parent == "" || |parts| < 6 then Invalid
    else if parts[0] != "projects" || parts[2] != "locations" || parts[4] != "queues" then Invalid
    else
      var queueId := "projects/" + parts[1] + "/locations/" + parts[3] + "/queues/" + parts[5];
      if req.task.None? then Invalid
      else
        var t := req.task.value;
        if t.url.None? || t.url.value == "" || !urlOk(t.url.value) then Invalid
        else if t.deadline.Some? && t.deadline.value <= 0 then Invalid
        else
          var short := ShortId(t.name, queueId, generated);
          if short.None? then Invalid else Proceed(parts[5], queueId, TaskName(queueId, short.value))
  }

  // ---------------------------------------------------------------- requests by their parts

  function QueueResource(p: string, l: string, q: string): string {
    "projects/" + p + "/locations/" + l + "/queues/" + q
  }

  /** The parent names this queue, perhaps followed by further segments. */
  predicate NamesQueue(parent: string, p: string, l: string, q: string) {
    && NoSlash(p) && NoSlash(l) && NoSlash(q)
    && HasPrefix(parent, QueueResource(p, l, q))
    && (|parent| > |QueueResource(p, l, q)| ==> parent[|QueueResource(p, l, q)|] == '/')
  }

  /** The same, one segment after the other. */
  lemma ResourceBySegments(p: string, l: string, q: string)
    ensures QueueResource(p, l, q)
            == "projects" + "/" + p + "/" + "locations" + "/" + l + "/" + "queues" + "/" + q
  {
    var head := "projects" + "/" + p;
    assert "projects/" + p == head;
    assert head + "/locations/" + l == head + "/" + "locations" + "/" + l;
    var next := head + "/locations/" + l;
    assert next + "/queues/" + q == next + "/" + "queues" + "/" + q;
  }

  lemma SplitMore(a: string, parts: seq<string>, b: string)
    requires Split(a) == parts && NoSlash(b)
    ensures Split(a + "/" + b) == parts + [b]
  {
    SplitConcat(a, b);
    SplitPlain(b);
  }

  lemma SplitResource(p: string, l: string, q: string)
    requires NoSlash(p) && NoSlash(l) && NoSlash(q)
    ensures Split(QueueResource(p, l, q)) == ["projects", p, "locations", l, "queues", q]
  {
    var two := "projects" + "/" + p;
    var three := two + "/" + "locations";
    var four := three + "/" + l;
    var five := four + "/" + "queues";
    SplitPlain("projects");
    SplitMore("projects", ["projects"], p);
    SplitMore(two, ["projects", p], "locations");
    SplitMore(three, ["projects", p, "locations"], l);
    SplitMore(four, ["projects", p, "locations", l], "queues");
    SplitMore(five, ["projects", p, "locations", l, "queues"], q);
    ResourceBySegments(p, l, q);
  }

  predicate HasParts(parts: seq<string>, p: string, l: string, q: string) {
    |parts| >= 6 && parts[..6] == ["projects", p, "locations", l, "queues", q]
  }

  /** A parent that names a queue splits into its parts. */
  lemma NamedIsSplit(parent: string, p: string, l: string, q: string)
    requires NamesQueue(parent, p, l, q)
    ensures HasParts(Split(parent), p, l, q)
  {
    var r := QueueResource(p, l, q);
    SplitResource(p, l, q);
    if |parent| > |r| {
      SplitConcat(r, parent[|r| + 1..]);
      assert parent == r + "/" + parent[|r| + 1..];
    } else {
      assert parent == r;
    }
  }

  /** Longer lists of parts join to longer strings, cut at a slash. */
  lemma {:induction false} JoinPrefix(parts: seq<string>, k: nat)
    requires 0 < k <= |parts|
    ensures HasPrefix(Join(parts), Join(parts[..k]))
    ensures |Join(parts)| > |Join(parts[..k])| ==> Join(parts)[|Join(parts[..k])|] == '/'
    decreases |parts|
  {
    if k < |parts| {
      var init := parts[..|parts| - 1];
      JoinPrefix(init, k);
      assert init[..k] == parts[..k];
    } else {
      assert parts[..k] == parts;
    }
  }

  lemma JoinMore(parts: seq<string>, joined: string, x: string, more: seq<string>)
    requires parts != [] && Join(parts) == joined && more == parts + [x]
    ensures Join(more) == joined + "/" + x
  {
    JoinAppend(parts, x);
  }

  lemma JoinSix(p: string, l: string, q: string)
    ensures Join(["projects", p, "locations", l, "queues", q]) == QueueResource(p, l, q)
  {
    var two := "projects" + "/" + p;
    var three := two + "/" + "locations";
    var four := three + "/" + l;
    var five := four + "/" + "queues";
    JoinMore(["projects"], "projects", p, ["projects", p]);
    JoinMore(["projects", p], two, "locations", ["projects", p, "locations"]);
    JoinMore(["projects", p, "locations"], three, l, ["projects", p, "locations", l]);
    JoinMore(["projects", p, "locations", l], four, "queues", ["projects", p, "locations", l, "queues"]);
    JoinMore(["projects", p, "locations", l, "queues"], five, q, ["projects", p, "locations", l, "queues", q]);
    ResourceBySegments(p, l, q);
  }

  /** And only such a parent does. */
  lemma SplitIsNamed(parent: string, p: string, l: string, q: string)
    requires HasParts(Split(parent), p, l, q)
    ensures NamesQueue(parent, p, l, q)
  {
    var parts := Split(parent);
    assert parts[..6][1] == p && parts[..6][3] == l && parts[..6][5] == q;
    JoinOfSplit(parent);
    JoinPrefix(parts, 6);
    JoinSix(p, l, q);
  }

  /** What is asked of the rest of a request for this queue. */
  predicate BodyOk(task: Option<Body>, queueId: string, urlOk: string -> bool) {
    && task.Some? && task.value.url.Some? && |task.value.url.value| > 0 && urlOk(task.value.url.value)
    && (task.value.deadline.Some? ==> task.value.deadline.value > 0)
    && (|task.value.name| == 0 || ValidTaskId(task.value.name) || NamesTask(task.value.name, queueId))
  }

  /** A full task name under the queue, with a valid short id. */
  predicate NamesTask(name: string, queueId: string) {
    HasPrefix(name, queueId + "/tasks/") && ValidTaskId(name[|queueId + "/tasks/"|..])
  }

  lemma NamesTaskHasSlash(name: string, queueId: string)
    ensures NamesTask(name, queueId) ==> !NoSlash(name)
    ensures ValidTaskId(name) ==> NoSlash(name)
  {
    if NamesTask(name, queueId) {
      assert name[..|queueId + "/tasks/"|][|queueId|] == '/';
      assert name[|queueId|] == '/';
    }
    if ValidTaskId(name) {
      IdHasNoSlash(name, 500);
    }
  }

  /** A request whose parent names the queue (p, l, q) is refused exactly when its body is not in order;
      otherwise the task goes to that queue, under the name that the body gives it. */
  lemma CheckByParts(req: Request, generated: string, urlOk: string -> bool, p: string, l: string, q: string)
    requires NamesQueue(req.parent, p, l, q)
    ensures var queueId, plan := "projects/" + p + "/locations/" + l + "/queues/" + q, Check(req, generated, urlOk);
            && (plan.Invalid? <==> !BodyOk(req.task, queueId, urlOk))
            && (plan.Proceed? ==>
                  var name := req.task.value.name;
                  && plan.queueName == q && plan.queueId == queueId
                  && plan.taskName == if |name| == 0 then queueId + "/tasks/" + generated
                                      else if NamesTask(name, queueId) then name else queueId + "/tasks/" + name)
  {
    var queueId := QueueResource(p, l, q);
    NamedIsSplit(req.parent, p, l, q);
    var parts := Split(req.parent);
    assert parts[..6][0] == "projects" && parts[..6][1] == p && parts[..6][2] == "locations";
    assert parts[..6][3] == l && parts[..6][4] == "queues" && parts[..6][5] == q;
    if req.task.Some? {
      ShortByParts(req.task.value.name, queueId, generated);
    }
  }

  lemma ShortByParts(name: string, queueId: string, generated: string)
    ensures var short := ShortId(name, queueId, generated);
            && (short.Some? <==> |name| == 0 || ValidTaskId(name) || NamesTask(name, queueId))
            && (short.Some? ==> TaskName(queueId, short.value) == if |name| == 0 then queueId + "/tasks/" + generated
                                  else if NamesTask(name, queueId) then name else queueId + "/tasks/" + name)
  {
    NamesTaskHasSlash(name, queueId);
  }

  /** A request whose parent names no queue is refused. */
  lemma CheckRefuses(req: Request, generated: string, urlOk: string -> bool)
    requires forall p, l, q :: !NamesQueue(req.parent, p, l, q)
    ensures Check(req, generated, urlOk).Invalid?
  {
    var parts := Split(req.parent);
    if |parts| >= 6 && parts[0] == "projects" && parts[2] == "locations" && parts[4] == "queues" {
      SplitIsNamed(req.parent, parts[1], parts[3], parts[5]);
    }
  }

  /** A plan files the task under its queue's name. */
  lemma CheckFiles(req: Request, generated: string, urlOk: string -> bool)
    requires ValidTaskId(generated) && Check(req, generated, urlOk).Proceed?
    ensures var p := Check(req, generated, urlOk); FiledUnder(p.taskName, p.queueId)
  {
    var p := Check(req, generated, urlOk);
    var t := req.task.value;
    var short := ShortId(t.name, p.queueId, generated);
    assert p.taskName == TaskName(p.queueId, short.value);
    IdHasNoSlash(short.value, 500);
  }

  ghost predicate FiledUnder(name: string, queueId: string) {
    exists short :: NoSlash(short) && name == TaskName(queueId, short)
  }

  // ---------------------------------------------------------------- store

  datatype Answer = OK | INVALID_ARGUMENT | NOT_FOUND | ALREADY_EXISTS

  class Store {
    var queues: map<QueueId, Queue>
    var tasks: Rows

    /** Every task is filed under its queue's name, and that queue exists. */
    ghost predicate Filed()
      reads this
    {
      forall id :: id in tasks ==> tasks[id].queue in queues && FiledUnder(id, tasks[id].queue)
    }

    constructor ()
      ensures Filed() && queues == map[] && tasks == map[]
    {
      queues, tasks := map[], map[];
    }

    /** queues.Repository.Create. */
    method CreateQueue(id: QueueId, rate: int, concurrency: int) returns (r: Answer)
      requires Filed()
      modifies this
      ensures Filed() && tasks == old(tasks)
      ensures r == if id in old(queues) then ALREADY_EXISTS else OK
      ensures queues == if r == OK then old(queues)[id := NewQueue(id, rate, concurrency)] else old(queues)
      ensures r == OK ==> var q := queues[id];
                          && q.id == id && !q.paused && q.rate == (if rate > 0 then rate else 500)
                          && q.concurrency == (if concurrency > 0 then concurrency else 1000)
    {
      if id in queues {
        return ALREADY_EXISTS;
      }
      queues := queues[id := NewQueue(id, rate, concurrency)];
      return OK;
    }

    /** queues.Repository.Delete: the queue and all of its tasks, in one transaction. */
    method DeleteQueue(id: QueueId) returns (r: Answer)
      requires Filed()
      modifies this
      ensures Filed()
      ensures r == if id in old(queues) then OK else NOT_FOUND
      ensures queues == old(queues) - {id}
      ensures tasks == if r == OK then DeleteOfQueue(old(tasks), id) else old(tasks)
      ensures forall u :: u in tasks <==> u in old(tasks) && (r == OK ==> old(tasks)[u].queue != id)
      ensures forall u :: u in tasks ==> tasks[u] == old(tasks)[u]
    {
      if id !in queues {
        return NOT_FOUND;
      }
      queues := queues - {id};
      tasks := DeleteOfQueue(tasks, id);
      return OK;
    }

    method DeleteTask(id: TaskId) returns (r: Answer)
      requires Filed()
      modifies this
      ensures Filed() && queues == old(queues)
      ensures r == if id in old(tasks) then OK else NOT_FOUND
      ensures tasks == old(tasks) - {id}
    {
      r := if id in tasks then OK else NOT_FOUND;
      tasks := tasks - {id};
    }

    /** A task of a missing queue cannot have a name that is taken. */
    lemma NewQueueHasNoTasks(name: string, queueId: QueueId)
      requires Filed() && FiledUnder(name, queueId) && queueId !in queues
      ensures name !in tasks
    {
      if name in tasks {
        var x :| NoSlash(x) && name == TaskName(queueId, x);
        var y :| NoSlash(y) && name == TaskName(tasks[name].queue, y);
        NameDeterminesQueue(queueId, x, tasks[name].queue, y);
      }
    }

    /** CreateTask as one step: validate, look the queue up, create it if allowed, insert. */
    method CreateTask(req: Request, generated: string, urlOk: string -> bool, autoCreate: bool,
                      maxRetries: int, now: int, rowid: int) returns (r: Answer)
      requires Filed() && ValidTaskId(generated)
      modifies this
      ensures Filed()
      // a request that fails leaves both tables as they were, the queue included
      ensures r != OK ==> queues == old(queues) && tasks == old(tasks)
      // which answer, exactly
      ensures var p := Check(req, generated, urlOk);
              r == if p.Invalid? then INVALID_ARGUMENT
                   else if p.queueId !in old(queues) && !autoCreate then NOT_FOUND
                   else if p.queueId !in old(queues) && !ValidQueueName(p.queueName) then INVALID_ARGUMENT
                   else if p.taskName in old(tasks) then ALREADY_EXISTS
                   else OK
      // success adds exactly one task, and its queue when that was missing
      ensures r == OK ==>
                var p := Check(req, generated, urlOk);
                var at := if req.task.value.schedule.Some? then req.task.value.schedule.value else now;
                && tasks == old(tasks)[p.taskName := Task(p.queueId, rowid, Pending, 0, maxRetries, at)]
                && queues == if p.queueId in old(queues) then old(queues)
                             else old(queues)[p.queueId := NewQueue(p.queueId, 0, 0)]
    {
      var p := Check(req, generated, urlOk);
      if p.Invalid? {
        return INVALID_ARGUMENT;
      }
      CheckFiles(req, generated, urlOk);
      if p.queueId !in queues {
        if !autoCreate {
          return NOT_FOUND;
        }
        if !ValidQueueName(p.queueName) {
          return INVALID_ARGUMENT;
        }
        NewQueueHasNoTasks(p.taskName, p.queueId);
        queues := queues[p.queueId := NewQueue(p.queueId, 0, 0)];
      }
      if p.taskName in tasks {
        return ALREADY_EXISTS;
      }
      var at := if req.task.value.schedule.Some? then req.task.value.schedule.value else now;
      tasks := tasks[p.taskName := Task(p.queueId, rowid, Pending, 0, maxRetries, at)];
      return OK;
    }
  }
}
