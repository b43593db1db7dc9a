/**
 * `DeleteTaskJob`: the delayed job a completion schedules. When it runs it
 * looks the task up again and deletes it only if it still exists and is
 * still complete; nothing ever cancels it. Also the queue worker that runs
 * the jobs that are due.
 */
module Jobs {
  import opened Tasks
  import opened Storage

  /** The rows after `handle()` has run for `taskId`. */
  function AfterHandle(rows: map<int, Task>, taskId: int): (r: map<int, Task>)
    ensures taskId in rows && Truthy(rows[taskId].finalizado) ==> r == rows - {taskId}
    ensures !(taskId in rows && Truthy(rows[taskId].finalizado)) ==> r == rows
    ensures forall k :: k != taskId ==> (k in r <==> k in rows) && (k in r ==> r[k] == rows[k])
  {
    if taskId in rows && Truthy(rows[taskId].finalizado) then rows - {taskId} else rows
  }

  /** Running the same job twice leaves the rows as running it once. */
  lemma HandleIdempotent(rows: map<int, Task>, taskId: int)
    ensures AfterHandle(AfterHandle(rows, taskId), taskId) == AfterHandle(rows, taskId)
  {
  }

  /** Jobs for different tasks, or the same task, may run in either order. */
  lemma HandleCommutes(rows: map<int, Task>, a: int, b: int)
    ensures AfterHandle(AfterHandle(rows, a), b) == AfterHandle(AfterHandle(rows, b), a)
  {
  }

  class DeleteTaskJob {
    var taskId: int

    constructor (taskId: int)
      ensures this.taskId == taskId
    {
      this.taskId := taskId;
    }

    method Handle(table: TaskTable)
      requires table.Valid()
      modifies table
      ensures table.Valid()
      ensures table.rows == AfterHandle(old(table.rows), taskId) && table.nextId == old(table.nextId)
    {
      var task := table.Find(taskId);
      if task.Some? && Truthy(task.value.finalizado) {
        table.Delete(taskId);
      }
    }
  }

  predicate IsDue(p: Pending, now: int)
  {
    p.availableAt <= now
  }

  /** The rows after the worker has run, in queue order, every job of `pending` that is due. */
  function RunDueRows(rows: map<int, Task>, pending: seq<Pending>, now: int): map<int, Task>
    decreases |pending|
  {
    if pending == [] then rows
    else
      var after := if IsDue(pending[0], now) then AfterHandle(rows, pending[0].taskId) else rows;
      RunDueRows(after, pending[1..], now)
  }

  /** The jobs left waiting: those not yet due, in their order. */
  function NotYetDue(pending: seq<Pending>, now: int): (r: seq<Pending>)
    ensures forall i :: 0 <= i < |r| ==> !IsDue(r[i], now) && r[i] in pending
    ensures forall p :: p in pending && !IsDue(p, now) ==> p in r
    decreases |pending|
  {
    if pending == [] then []
    else if IsDue(pending[0], now) then NotYetDue(pending[1..], now)
    else [pending[0]] + NotYetDue(pending[1..], now)
  }

  /** The worker's pass over the queue, as a step of the server state. */
  function RunDue(s: State): State
  {
    s.(tasks := RunDueRows(s.tasks, s.pending, s.now), pending := NotYetDue(s.pending, s.now))
  }

  /** Some job due at `now` carries `taskId`. */
  predicate HasDueJob(pending: seq<Pending>, taskId: int, now: int)
  {
    exists i :: 0 <= i < |pending| && pending[i].taskId == taskId && IsDue(pending[i], now)
  }

  /**
   * What a pass of the worker leaves: a task survives iff it is not both
   * complete and named by a due job, and surviving rows are unchanged.
   */
  lemma {:induction false} RunDueRowsExact(rows: map<int, Task>, pending: seq<Pending>, now: int)
    ensures forall k :: k in RunDueRows(rows, pending, now)
                    <==> k in rows && !(Truthy(rows[k].finalizado) && HasDueJob(pending, k, now))
    ensures forall k :: k in RunDueRows(rows, pending, now) ==> RunDueRows(rows, pending, now)[k] == rows[k]
    decreases |pending|
  {
    if pending != [] {
      var p := pending[0];
      var after := if IsDue(p, now) then AfterHandle(rows, p.taskId) else rows;
      RunDueRowsExact(after, pending[1..], now);
      forall k
        ensures HasDueJob(pending, k, now) <==> (p.taskId == k && IsDue(p, now)) || HasDueJob(pending[1..], k, now)
      {
        if HasDueJob(pending, k, now) {
          var i :| 0 <= i < |pending| && pending[i].taskId == k && IsDue(pending[i], now);
          if i > 0 {
            assert pending[1..][i - 1] == pending[i];
          }
        }
        if HasDueJob(pending[1..], k, now) {
          var i :| 0 <= i < |pending[1..]| && pending[1..][i].taskId == k && IsDue(pending[1..][i], now);
          assert pending[i + 1] == pending[1..][i];
        }
      }
    }
  }

  /** The queue worker: runs each due job in order and keeps the others. */
  method RunDueJobs(table: TaskTable, queue: JobQueue)
    requires table.Valid()
    modifies table, queue
    ensures table.Valid()
    ensures table.rows == RunDueRows(old(table.rows), old(queue.pending), old(queue.now))
    ensures queue.pending == NotYetDue(old(queue.pending), old(queue.now))
    ensures queue.now == old(queue.now) && table.nextId == old(table.nextId)
  {
    var todo := queue.pending;
    var kept := [];
    var i := 0;
    while i < |todo|
      invariant 0 <= i <= |todo|
      invariant table.Valid() && table.nextId == old(table.nextId)
      invariant queue.now == old(queue.now) && todo == old(queue.pending)
      invariant RunDueRows(table.rows, todo[i..], queue.now) == RunDueRows(old(table.rows), todo, queue.now)
      invariant kept + NotYetDue(todo[i..], queue.now) == NotYetDue(todo, queue.now)
    {
      var p := todo[i];
      assert todo[i..][1..] == todo[i + 1..];
      if IsDue(p, queue.now) {
        var job := new DeleteTaskJob(p.taskId);
        job.Handle(table);
      } else {
        kept := kept + [p];
      }
      i := i + 1;
    }
    queue.pending := kept;
  }
}
