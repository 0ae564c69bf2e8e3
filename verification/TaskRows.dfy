/** The tasks table: rows, the effect of each SQL statement of the task repository on the
    whole table, and the repository object that performs those statements in place. */
module TaskRows {

  type TaskId = string
  type QueueId = string

  datatype Status = Pending | Running | Completed | Failed

  /** A row of `tasks`. Times are milliseconds; `rowid` is SQLite's implicit row number. */
  datatype Task = Task(queue: QueueId, rowid: int, status: Status,
                       retries: int, maxRetries: int, nextAttempt: int)

  type Rows = map<TaskId, Task>

  /** A row as a query returned it: a copy that can go stale. */
  datatype Listed = Listed(id: TaskId, task: Task)

  function Attempts(t: Task): int {
    if t.status == Pending then t.retries else t.retries + 1
  }

  /** `ORDER BY next_attempt_at ASC, rowid ASC`. */
  predicate Before(a: Task, b: Task) {
    a.nextAttempt < b.nextAttempt || (a.nextAttempt == b.nextAttempt && a.rowid < b.rowid)
  }

  predicate Due(t: Task, q: QueueId, now: int) {
    t.queue == q && t.status == Pending && t.nextAttempt <= now
  }

  predicate DistinctRowids(rows: Rows) {
    forall u, v :: u in rows && v in rows && u != v ==> rows[u].rowid != rows[v].rowid
  }

  predicate Lists(listing: seq<Listed>, id: TaskId) {
    exists i :: 0 <= i < |listing| && listing[i].id == id
  }

  /** `listing` is what ListPendingForQueue returns: the first `limit` due rows of the queue. */
  predicate IsListing(rows: Rows, q: QueueId, now: int, limit: int, listing: seq<Listed>) {
    && |listing| <= limit
    && (forall i :: 0 <= i < |listing| ==>
          && listing[i].id in rows
          && rows[listing[i].id] == listing[i].task
          && Due(listing[i].task, q, now))
    && (forall i, j :: 0 <= i < j < |listing| ==> Before(listing[i].task, listing[j].task))
    && (forall u :: u in rows && Due(rows[u], q, now) && !Lists(listing, u) ==>
          |listing| == limit && forall i :: 0 <= i < |listing| ==> Before(listing[i].task, rows[u]))
  }

  // ---------------------------------------------------------------- statements

  function Claim(rows: Rows, id: TaskId): Rows {
    if id in rows && rows[id].status == Pending then rows[id := rows[id].(status := Running)] else rows
  }

  function UpdateStatus(rows: Rows, id: TaskId, status: Status): Rows {
    if id in rows then rows[id := rows[id].(status := status)] else rows
  }

  function UpdateRetry(rows: Rows, id: TaskId, retries: int, nextAttempt: int): Rows {
    if id in rows
    then rows[id := rows[id].(status := Pending, retries := retries, nextAttempt := nextAttempt)]
    else rows
  }

  /** The four CASE expressions of SetNextAttemptNow, all reading the old row. */
  function RunNow(rows: Rows, id: TaskId, now: int): Rows {
    if id !in rows then rows else
      var t := rows[id];
      var ended := t.status == Failed || t.status == Completed;
      rows[id := t.(nextAttempt := if t.status == Running then t.nextAttempt else now,
                    retries := if ended then 0 else t.retries,
                    status := if ended then Pending else t.status)]
  }

  function RecoverRunning(rows: Rows): Rows {
    map id | id in rows :: if rows[id].status == Running then rows[id].(status := Pending) else rows[id]
  }

  function DeleteOfQueue(rows: Rows, q: QueueId): Rows {
    map id | id in rows && rows[id].queue != q :: rows[id]
  }

  predicate AboveAll(rows: Rows, rowid: int) {
    forall u :: u in rows ==> rows[u].rowid < rowid
  }

  datatype Result<T> = Ok(value: T) | NotFound | AlreadyExists

  /** tasks.Repository. The table is the field; every method is one statement. */
  class TaskRepository {
    var rows: Rows

    constructor ()
      ensures rows == map[]
    {
      rows := map[];
    }

    /** The insert; SQLite numbers the new row above every existing one. */
    method Create(id: TaskId, q: QueueId, maxRetries: int, at: int, rowid: int) returns (r: Result<()>)
      requires DistinctRowids(rows) && AboveAll(rows, rowid)
      modifies this
      ensures DistinctRowids(rows)
      ensures r == if id in old(rows) then AlreadyExists else Ok(())
      ensures rows == if id in old(rows) then old(rows) else old(rows)[id := Task(q, rowid, Pending, 0, maxRetries, at)]
    {
      if id in rows {
        return AlreadyExists;
      }
      rows := rows[id := Task(q, rowid, Pending, 0, maxRetries, at)];
      return Ok(());
    }

    method ClaimTask(id: TaskId) returns (claimed: bool)
      modifies this
      ensures rows == Claim(old(rows), id)
      ensures claimed <==> rows != old(rows)
      ensures claimed <==> id in old(rows) && old(rows)[id].status == Pending
    {
      claimed := id in rows && rows[id].status == Pending;
      if claimed {
        rows := rows[id := rows[id].(status := Running)];
        assert rows[id] != old(rows)[id];
      }
    }

    method SetStatus(id: TaskId, status: Status)
      modifies this
      ensures rows == UpdateStatus(old(rows), id, status)
    {
      if id in rows {
        rows := rows[id := rows[id].(status := status)];
      }
    }

    method SetRetry(id: TaskId, retries: int, nextAttempt: int)
      modifies this
      ensures rows == UpdateRetry(old(rows), id, retries, nextAttempt)
    {
      if id in rows {
        rows := rows[id := rows[id].(status := Pending, retries := retries, nextAttempt := nextAttempt)];
      }
    }

    method Delete(id: TaskId) returns (r: Result<()>)
      modifies this
      ensures r == if id in old(rows) then Ok(()) else NotFound
      ensures rows == old(rows) - {id}
    {
      r := if id in rows then Ok(()) else NotFound;
      rows := rows - {id};
    }

    method SetNextAttemptNow(id: TaskId, now: int) returns (r: Result<()>)
      modifies this
      ensures r == if id in old(rows) then Ok(()) else NotFound
      ensures rows == RunNow(old(rows), id, now)
      // what that is: due now, and from scratch if it had ended; a running task is left alone
      ensures rows.Keys == old(rows).Keys && forall u :: u in rows && u != id ==> rows[u] == old(rows)[u]
      ensures id in rows ==> rows[id] == var t := old(rows)[id];
                                         match t.status
                                         case Running => t
                                         case Pending => t.(nextAttempt := now)
                                         case _ => t.(status := Pending, retries := 0, nextAttempt := now)
    {
      if id !in rows {
        return NotFound;
      }
      var t := rows[id];
      if t.status == Pending {
        rows := rows[id := t.(nextAttempt := now)];
      } else if t.status != Running {
        rows := rows[id := t.(status := Pending, retries := 0, nextAttempt := now)];
      }
      return Ok(());
    }

    /** The start-up sweep, row by row; the count is the number of rows it changed. */
    method Recover() returns (n: nat)
      modifies this
      ensures rows == RecoverRunning(old(rows))
      ensures n == |set id | id in old(rows) && old(rows)[id].status == Running|
      ensures rows.Keys == old(rows).Keys && forall id :: id in rows ==>
                rows[id] == if old(rows)[id].status == Running then old(rows)[id].(status := Pending) else old(rows)[id]
    {
      var todo := rows.Keys;
      ghost var done: set<TaskId> := {};
      n := 0;
      while todo != {}
        invariant todo <= old(rows).Keys && rows.Keys == old(rows).Keys
        invariant forall id :: id in todo ==> rows[id] == old(rows)[id]
        invariant forall id :: id in rows && id !in todo ==> rows[id] == RecoverRunning(old(rows))[id]
        invariant done == set id | id in old(rows) && id !in todo && old(rows)[id].status == Running
        invariant n == |done|
        decreases todo
      {
        var id :| id in todo;
        if rows[id].status == Running {
          rows := rows[id := rows[id].(status := Pending)];
          n := n + 1;
          done := done + {id};
        }
        todo := todo - {id};
      }
      assert done == set id | id in old(rows) && old(rows)[id].status == Running;
    }

    /** The first of the rows in `from`, by (next_attempt_at, rowid). */
    method First(from: set<TaskId>) returns (best: TaskId)
      requires from != {} && from <= rows.Keys && DistinctRowids(rows)
      ensures best in from
      ensures forall u :: u in from && u != best ==> Before(rows[best], rows[u])
    {
      best :| best in from;
      var todo := from - {best};
      while todo != {}
        invariant best in from && todo <= from
        invariant forall u :: u in from - todo && u != best ==> Before(rows[best], rows[u])
        decreases todo
      {
        var u :| u in todo;
        if Before(rows[u], rows[best]) {
          best := u;
        }
        todo := todo - {u};
      }
    }

    /** The poller's query. */
    method ListPendingForQueue(q: QueueId, now: int, limit: nat) returns (listing: seq<Listed>)
      requires DistinctRowids(rows)
      ensures IsListing(rows, q, now, limit, listing)
    {
      listing := [];
      var left := set u | u in rows && Due(rows[u], q, now);
      while |listing| < limit && left != {}
        invariant |listing| <= limit
        invariant forall u :: u in left <==> u in rows && Due(rows[u], q, now) && !Lists(listing, u)
        invariant forall i :: 0 <= i < |listing| ==>
                    && listing[i].id in rows
                    && rows[listing[i].id] == listing[i].task
                    && Due(listing[i].task, q, now)
        invariant forall i, j :: 0 <= i < j < |listing| ==> Before(listing[i].task, listing[j].task)
        invariant forall i, u :: 0 <= i < |listing| && u in left ==> Before(listing[i].task, rows[u])
        decreases limit - |listing|
      {
        var u := First(left);
        var grown := listing + [Listed(u, rows[u])];
        forall v ensures Lists(grown, v) <==> Lists(listing, v) || v == u {
          if Lists(listing, v) {
            var i :| 0 <= i < |listing| && listing[i].id == v;
            assert grown[i].id == v;
          }
          assert grown[|listing|].id == u;
        }
        listing := grown;
        left := left - {u};
      }
    }
  }
}
