/**
 * The client's Pinia store `tasks`: a cached list of tasks and a loading
 * flag, updated from the server's answers. Each request is abstracted to
 * its outcome: whether the response was ok, and the decoded body.
 */
module ClientStore {
  import opened Wrappers
  import opened Tasks

  /** `tasks.findIndex((t) => t.id === id)`: the first position holding `id`, or -1. */
  function IndexOf(s: seq<Task>, id: int): (i: int)
    ensures -1 <= i < |s|
    ensures i == -1 <==> forall j :: 0 <= j < |s| ==> s[j].id != id
    ensures i != -1 ==> s[i].id == id && forall j :: 0 <= j < i ==> s[j].id != id
    decreases |s|
  {
    if s == [] then -1
    else if s[0].id == id then 0
    else
      var k := IndexOf(s[1..], id);
      if k == -1 then -1 else k + 1
  }

  /** `if (idx !== -1) tasks[idx] = updated`: only the first task with `id` is replaced. */
  function ReplaceFirst(s: seq<Task>, id: int, updated: Task): (r: seq<Task>)
    ensures |r| == |s|
    ensures IndexOf(s, id) == -1 ==> r == s
    ensures IndexOf(s, id) != -1 ==>
      r[IndexOf(s, id)] == updated && forall j :: 0 <= j < |s| && j != IndexOf(s, id) ==> r[j] == s[j]
  {
    var i := IndexOf(s, id);
    if i == -1 then s else s[i := updated]
  }

  /** `tasks.filter((t) => t.id !== id)`. */
  function RemoveId(s: seq<Task>, id: int): (r: seq<Task>)
    ensures |r| <= |s|
    ensures forall i :: 0 <= i < |r| ==> r[i].id != id && r[i] in s
    ensures forall t :: t in s && t.id != id ==> t in r
    decreases |s|
  {
    if s == [] then []
    else if s[0].id == id then RemoveId(s[1..], id)
    else [s[0]] + RemoveId(s[1..], id)
  }

  /** Filtering keeps the relative order: it works piece by piece. */
  lemma {:induction false} RemoveIdAppend(a: seq<Task>, b: seq<Task>, id: int)
    ensures RemoveId(a + b, id) == RemoveId(a, id) + RemoveId(b, id)
    decreases |a|
  {
    if a == [] {
      assert a + b == b;
    } else {
      assert (a + b)[0] == a[0] && (a + b)[1..] == a[1..] + b;
      RemoveIdAppend(a[1..], b, id);
    }
  }

  /** Filtering drops every copy of a task with `id` and keeps every copy of each other task. */
  lemma {:induction false} RemoveIdCounts(s: seq<Task>, id: int)
    ensures forall t :: multiset(RemoveId(s, id))[t] == if t.id == id then 0 else multiset(s)[t]
    decreases |s|
  {
    if s != [] {
      RemoveIdCounts(s[1..], id);
      assert s == [s[0]] + s[1..];
    }
  }

  class TaskStore {
    var tasks: seq<Task>
    var loading: bool

    constructor ()
      ensures tasks == [] && !loading
    {
      tasks := [];
      loading := false;
    }

    /** `fetchTasks`: the body on success, the empty list on any failure. */
    method FetchTasks(ok: bool, body: seq<Task>)
      modifies this
      ensures tasks == (if ok then body else []) && !loading
    {
      loading := true;
      if ok {
        tasks := body;
      } else {
        tasks := [];
      }
      loading := false;
    }

    /** `createTask`: appends the created task; `None` when the promise rejects. */
    method CreateTask(ok: bool, created: Task) returns (r: Option<Task>)
      modifies this
      ensures !loading
      ensures ok ==> tasks == old(tasks) + [created] && r == Some(created)
      ensures !ok ==> tasks == old(tasks) && r == None
    {
      loading := true;
      if !ok {
        loading := false;
        return None;
      }
      tasks := tasks + [created];
      r := Some(created);
      loading := false;
    }

    /** `updateTask`: replaces the first task with `id`; `None` when the promise rejects. */
    method UpdateTask(id: int, ok: bool, updated: Task) returns (r: Option<Task>)
      modifies this
      ensures !loading
      ensures ok ==> tasks == ReplaceFirst(old(tasks), id, updated) && r == Some(updated)
      ensures !ok ==> tasks == old(tasks) && r == None
    {
      loading := true;
      if !ok {
        loading := false;
        return None;
      }
      var idx := IndexOf(tasks, id);
      if idx != -1 {
        tasks := tasks[idx := updated];
      }
      r := Some(updated);
      loading := false;
    }

    /** `deleteTask`: drops every task with `id`; `resolved` is false when the promise rejects. */
    method DeleteTask(id: int, ok: bool) returns (resolved: bool)
      modifies this
      ensures !loading && resolved == ok
      ensures tasks == if ok then RemoveId(old(tasks), id) else old(tasks)
    {
      loading := true;
      if !ok {
        loading := false;
        return false;
      }
      tasks := RemoveId(tasks, id);
      resolved := true;
      loading := false;
    }

    /**
     * `toggleTask`: does nothing, not even a request, for an id it does not
     * hold; otherwise replaces the task with the server's answer.
     */
    method ToggleTask(id: int, ok: bool, updated: Task) returns (resolved: bool)
      modifies this
      ensures IndexOf(old(tasks), id) == -1 ==> tasks == old(tasks) && loading == old(loading) && resolved
      ensures IndexOf(old(tasks), id) != -1 ==>
        && !loading && resolved == ok
        && tasks == if ok then ReplaceFirst(old(tasks), id, updated) else old(tasks)
    {
      var found := IndexOf(tasks, id);
      if found == -1 {
        return true;
      }
      loading := true;
      if !ok {
        loading := false;
        return false;
      }
      var idx := IndexOf(tasks, id);
      if idx != -1 {
        tasks := tasks[idx := updated];
      }
      resolved := true;
      loading := false;
    }
  }
}
