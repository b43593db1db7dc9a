/**
 * The persisted state the server side works on: the `tasks` table behind
 * the Eloquent model, and the queue of delayed jobs with its clock.
 */
module Storage {
  import opened Wrappers
  import opened Tasks

  /** A queued `DeleteTaskJob`: the id it carries and the time it becomes due, in seconds. */
  datatype Pending = Pending(taskId: int, availableAt: int)

  /** The server's state as one value: rows by id, the next auto-increment id, pending jobs, the clock. */
  datatype State = State(tasks: map<int, Task>, nextId: int, pending: seq<Pending>, now: int)

  /** Every row sits under its own id, and ids are positive and below the next auto-increment value. */
  ghost predicate ValidRows(rows: map<int, Task>, nextId: int)
  {
    0 < nextId && forall k :: k in rows ==> 0 < k < nextId && rows[k].id == k
  }

  ghost predicate Valid(s: State)
  {
    ValidRows(s.tasks, s.nextId)
  }

  /** The `tasks` table. */
  class TaskTable {
    var rows: map<int, Task>
    var nextId: int
    /** The column default of `finalizado`, which the schema fixes. */
    const defaultFinalizado: Value

    ghost predicate Valid()
      reads this
    {
      ValidRows(rows, nextId)
    }

    constructor (defaultFinalizado: Value)
      ensures Valid() && rows == map[] && nextId == 1
      ensures this.defaultFinalizado == defaultFinalizado
    {
      rows := map[];
      nextId := 1;
      this.defaultFinalizado := defaultFinalizado;
    }

    /** `Task::find($id)`. */
    method Find(id: int) returns (t: Option<Task>)
      ensures t == if id in rows then Some(rows[id]) else None
    {
      t := if id in rows then Some(rows[id]) else None;
    }

    /** `Task::create($validated)`: inserts under the next auto-increment id. */
    method Create(ch: Changes) returns (t: Task)
      requires Valid()
      modifies this
      ensures Valid()
      ensures t == NewRecord(old(nextId), ch, defaultFinalizado) && old(nextId) !in old(rows)
      ensures rows == old(rows)[t.id := t] && nextId == old(nextId) + 1
    {
      t := NewRecord(nextId, ch, defaultFinalizado);
      rows := rows[nextId := t];
      nextId := nextId + 1;
    }

    /** `$task->save()` on a row that exists. */
    method Save(t: Task)
      requires Valid() && t.id in rows
      modifies this
      ensures Valid()
      ensures rows == old(rows)[t.id := t] && nextId == old(nextId)
    {
      rows := rows[t.id := t];
    }

    /** `$task->delete()`. */
    method Delete(id: int)
      requires Valid()
      modifies this
      ensures Valid()
      ensures rows == old(rows) - {id} && nextId == old(nextId)
    {
      rows := rows - {id};
    }
  }

  /** The queue of delayed jobs and the clock that decides when they are due. */
  class JobQueue {
    var pending: seq<Pending>
    var now: int

    constructor (now: int)
      ensures pending == [] && this.now == now
    {
      pending := [];
      this.now := now;
    }

    /** Dispatching a `DeleteTaskJob` for `taskId` that becomes due `delay` seconds from now. */
    method Dispatch(taskId: int, delay: nat)
      modifies this
      ensures pending == old(pending) + [Pending(taskId, old(now) + delay)] && now == old(now)
    {
      pending := pending + [Pending(taskId, now + delay)];
    }

    /** Time passes. */
    method Advance(seconds: nat)
      modifies this
      ensures now == old(now) + seconds && pending == old(pending)
    {
      now := now + seconds;
    }
  }
}
