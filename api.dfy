/**
 * `TaskController`: the six actions of the task API over the table and the
 * job queue. Each action is specified by a function from the state before
 * to the state after and the response; the class runs the same steps on
 * the table and queue objects.
 */
module Api {
  import opened Wrappers
  import opened Tasks
  import opened Middleware
  import opened StoreUpdateTaskRequest
  import opened Storage
  import opened Jobs

  const NotFoundMessage: string := "Tarefa não encontrada"

  /** `now()->addMinutes(10)`, in seconds. */
  const DeletionDelay: nat := 10 * 60

  datatype Body =
    | One(task: Task)
    | All(tasks: map<int, Task>)
    | Message(text: string)
    | Invalid(failed: set<RuleKey>)
    | NoContent

  datatype Response = Response(status: int, body: Body)

  /** The state after an action and the action's response. */
  datatype Step = Step(next: State, response: Response)

  function NotFound(): Response
  {
    Response(404, Message(NotFoundMessage))
  }

  /** `index`: every row, nothing changed. */
  function IndexOp(s: State): Response
  {
    Response(200, All(s.tasks))
  }

  /** `show`. */
  function ShowOp(s: State, id: int): (r: Response)
    ensures id !in s.tasks ==> r == NotFound()
    ensures id in s.tasks ==> r == Response(200, One(s.tasks[id]))
    ensures Valid(s) && r.status == 200 ==> r.body.One? && r.body.task.id == id
  {
    if id in s.tasks then Response(200, One(s.tasks[id])) else NotFound()
  }

  /** `store`, given the outcome of validating the request. */
  function StoreOp(s: State, req: Result<Changes, set<RuleKey>>, defaultFinalizado: Value): (r: Step)
    ensures Valid(s) ==> Valid(r.next)
    ensures r.next.pending == s.pending && r.next.now == s.now
    ensures req.Err? ==> r == Step(s, Response(422, Invalid(req.error)))
    ensures req.Ok? && Valid(s) ==>
      && s.nextId !in s.tasks
      && r.next.tasks.Keys == s.tasks.Keys + {s.nextId}
      && (forall k :: k in s.tasks ==> r.next.tasks[k] == s.tasks[k])
      && r.next.tasks[s.nextId].id == s.nextId
      && r.next.tasks[s.nextId].nome == req.value.nome
      && r.next.tasks[s.nextId].descricao == (if req.value.descricao.Some? then req.value.descricao.value else Null)
      && r.next.tasks[s.nextId].dataLimite == (if req.value.dataLimite.Some? then req.value.dataLimite.value else Null)
      && r.next.tasks[s.nextId].finalizado
         == (if req.value.finalizado.Some? then req.value.finalizado.value else defaultFinalizado)
      && r.response == Response(201, One(r.next.tasks[s.nextId]))
  {
    match req
    case Err(errors) => Step(s, Response(422, Invalid(errors)))
    case Ok(ch) =>
      var t := NewRecord(s.nextId, ch, defaultFinalizado);
      Step(s.(tasks := s.tasks[s.nextId := t], nextId := s.nextId + 1), Response(201, One(t)))
  }

  /** `update`, given the outcome of validating the request; validation comes before the lookup. */
  function UpdateOp(s: State, req: Result<Changes, set<RuleKey>>, id: int): (r: Step)
    ensures Valid(s) ==> Valid(r.next)
    ensures req.Err? ==> r == Step(s, Response(422, Invalid(req.error)))
    ensures req.Ok? && id !in s.tasks ==> r == Step(s, NotFound())
    ensures req.Ok? && id in s.tasks ==> id in r.next.tasks
    ensures req.Ok? && id in s.tasks ==>
      var (old_, new_, ch) := (s.tasks[id], r.next.tasks[id], req.value);
      && r.next == s.(tasks := r.next.tasks)
      && r.next.tasks.Keys == s.tasks.Keys
      && (forall k :: k in s.tasks && k != id ==> r.next.tasks[k] == s.tasks[k])
      && new_.id == old_.id && new_.nome == ch.nome
      && new_.descricao == (if ch.descricao.Some? then ch.descricao.value else old_.descricao)
      && new_.dataLimite == (if ch.dataLimite.Some? then ch.dataLimite.value else old_.dataLimite)
      && new_.finalizado == (if ch.finalizado.Some? then ch.finalizado.value else old_.finalizado)
      && r.response == Response(200, One(new_))
  {
    match req
    case Err(errors) => Step(s, Response(422, Invalid(errors)))
    case Ok(ch) =>
      if id !in s.tasks then Step(s, NotFound())
      else
        var t := ApplyChanges(s.tasks[id], ch);
        Step(s.(tasks := s.tasks[id := t]), Response(200, One(t)))
  }

  /** `destroy`: the row goes; a job already queued for it stays queued. */
  function DestroyOp(s: State, id: int): (r: Step)
    ensures Valid(s) ==> Valid(r.next)
    ensures id !in s.tasks ==> r == Step(s, NotFound())
    ensures id in s.tasks ==>
      && r.next == s.(tasks := r.next.tasks)
      && r.next.tasks == s.tasks - {id} && id !in r.next.tasks
      && r.response == Response(204, NoContent)
  {
    if id !in s.tasks then Step(s, NotFound())
    else Step(s.(tasks := s.tasks - {id}), Response(204, NoContent))
  }

  /**
   * `toggle`: flips `finalizado` and, when the task is now complete, queues
   * one deletion job for it due ten minutes from now.
   */
  function ToggleOp(s: State, id: int): (r: Step)
    ensures Valid(s) ==> Valid(r.next)
    ensures id !in s.tasks ==> r == Step(s, NotFound())
    ensures id in s.tasks ==> id in r.next.tasks
    ensures id in s.tasks ==>
      var (old_, new_) := (s.tasks[id], r.next.tasks[id]);
      && r.next.tasks.Keys == s.tasks.Keys
      && (forall k :: k in s.tasks && k != id ==> r.next.tasks[k] == s.tasks[k])
      && new_ == old_.(finalizado := new_.finalizado)
      && Truthy(new_.finalizado) == !Truthy(old_.finalizado)
      && r.next.pending == s.pending + (if Truthy(new_.finalizado) then [Pending(new_.id, s.now + DeletionDelay)] else [])
      && r.next.nextId == s.nextId && r.next.now == s.now
      && r.response == Response(200, One(new_))
  {
    if id !in s.tasks then Step(s, NotFound())
    else
      var t := s.tasks[id].(finalizado := Bool(!Truthy(s.tasks[id].finalizado)));
      var pending := if Truthy(t.finalizado) then s.pending + [Pending(t.id, s.now + DeletionDelay)] else s.pending;
      Step(s.(tasks := s.tasks[id := t], pending := pending), Response(200, One(t)))
  }

  /** The clock moves on. */
  function Tick(s: State, seconds: nat): State
  {
    s.(now := s.now + seconds)
  }

  /** After `destroy` of an existing task, `show` of it answers 404. */
  lemma DestroyThenShow(s: State, id: int)
    requires id in s.tasks
    ensures DestroyOp(s, id).response.status == 204
    ensures ShowOp(DestroyOp(s, id).next, id) == NotFound()
  {
  }

  /** Two toggles restore the truth of `finalizado`. */
  lemma ToggleTwice(s: State, id: int)
    requires id in s.tasks
    ensures var s2 := ToggleOp(ToggleOp(s, id).next, id).next;
      id in s2.tasks && Truthy(s2.tasks[id].finalizado) == Truthy(s.tasks[id].finalizado)
  {
  }

  /** A task that is complete when a due job for it runs is gone afterwards. */
  lemma {:induction false} CompleteWhenDueIsDeleted(s: State, id: int)
    requires id in s.tasks && Truthy(s.tasks[id].finalizado)
    requires HasDueJob(s.pending, id, s.now)
    ensures id !in RunDue(s).tasks
  {
    RunDueRowsExact(s.tasks, s.pending, s.now);
  }

  /** A task that is not complete survives every pass of the worker unchanged. */
  lemma {:induction false} IncompleteSurvives(s: State, id: int)
    requires id in s.tasks && !Truthy(s.tasks[id].finalizado)
    ensures id in RunDue(s).tasks && RunDue(s).tasks[id] == s.tasks[id]
  {
    RunDueRowsExact(s.tasks, s.pending, s.now);
  }

  /**
   * Completing a task and leaving it complete: once ten minutes have passed,
   * the worker's pass deletes it.
   */
  lemma {:induction false} CompletedTaskIsDeleted(s: State, id: int, wait: nat)
    requires Valid(s)
    requires id in s.tasks && !Truthy(s.tasks[id].finalizado)
    requires wait >= DeletionDelay
    ensures id !in RunDue(Tick(ToggleOp(s, id).next, wait)).tasks
  {
    var s1 := Tick(ToggleOp(s, id).next, wait);
    var i := |s1.pending| - 1;
    assert s1.pending[i] == Pending(id, s.now + DeletionDelay);
    assert HasDueJob(s1.pending, id, s1.now);
    CompleteWhenDueIsDeleted(s1, id);
  }

  /**
   * Completing a task and taking it back before its job runs: the job still
   * runs when due, and the task survives it, because the job checks again.
   */
  lemma {:induction false} ToggledBackSurvives(s: State, id: int, wait: nat, later: nat)
    requires Valid(s)
    requires id in s.tasks && !Truthy(s.tasks[id].finalizado)
    ensures var s1 := ToggleOp(s, id).next;
            var s2 := ToggleOp(Tick(s1, wait), id).next;
            var s3 := Tick(s2, later);
            && (wait + later >= DeletionDelay ==> HasDueJob(s3.pending, id, s3.now))
            && id in RunDue(s3).tasks && RunDue(s3).tasks[id] == s2.tasks[id]
            && !Truthy(RunDue(s3).tasks[id].finalizado)
  {
    var s1 := ToggleOp(s, id).next;
    var s2 := ToggleOp(Tick(s1, wait), id).next;
    var s3 := Tick(s2, later);
    var i := |s1.pending| - 1;
    assert s3.pending[i] == Pending(id, s.now + DeletionDelay);
    IncompleteSurvives(s3, id);
  }

  /**
   * Nothing cancels a job: complete a task, take it back after 100 seconds,
   * complete it again after 590 seconds, and the first job deletes it ten
   * seconds later, not ten minutes after the last completion.
   */
  lemma {:induction false} StaleJobDeletesEarly(s: State, id: int)
    requires Valid(s)
    requires id in s.tasks && !Truthy(s.tasks[id].finalizado)
    ensures var s1 := ToggleOp(Tick(ToggleOp(s, id).next, 100), id).next;
            var s2 := ToggleOp(Tick(s1, 490), id).next;
            id in s2.tasks && Truthy(s2.tasks[id].finalizado)
            && id !in RunDue(Tick(s2, 10)).tasks
  {
    var s1 := ToggleOp(Tick(ToggleOp(s, id).next, 100), id).next;
    var s2 := ToggleOp(Tick(s1, 490), id).next;
    var s3 := Tick(s2, 10);
    var i := |s.pending|;
    assert s3.pending[i] == Pending(id, s.now + DeletionDelay);
    assert HasDueJob(s3.pending, id, s3.now);
    CompleteWhenDueIsDeleted(s3, id);
  }

  /** `store` with a blank `finalizado`: the middlewares make it null, `boolean` rejects it, and nothing is stored. */
  lemma StoreBlankFinalizadoIsRejected(s: State, body: Payload, c: Coercions, defaultFinalizado: Value)
    requires Finalizado in body && body[Finalizado].Str? && Blank(body[Finalizado].s)
    ensures var r := StoreOp(s, FormRequest(Post, Normalize(body), s.tasks.Keys, c), defaultFinalizado);
      r.next == s && r.response.status == 422 && r.response.body.failed == Validate(Post, Normalize(body), s.tasks.Keys, c)
      && RuleKey(Finalizado, Boolean) in r.response.body.failed
  {
    NormalizedBlankFinalizadoFails(Post, body, s.tasks.Keys, c);
  }

  class TaskController {
    const table: TaskTable
    const queue: JobQueue
    const checks: Coercions

    constructor (table: TaskTable, queue: JobQueue, checks: Coercions)
      ensures this.table == table && this.queue == queue && this.checks == checks
    {
      this.table := table;
      this.queue := queue;
      this.checks := checks;
    }

    /** The state the table and queue hold. */
    ghost function Model(): State
      reads this, table, queue
    {
      State(table.rows, table.nextId, queue.pending, queue.now)
    }

    method Index() returns (r: Response)
      ensures r == IndexOp(Model()) && r.body.tasks == table.rows
    {
      r := Response(200, All(table.rows));
    }

    method Show(id: int) returns (r: Response)
      ensures r == ShowOp(Model(), id)
    {
      var task := table.Find(id);
      if task.None? {
        return NotFound();
      }
      r := Response(200, One(task.value));
    }

    /** `store`; the body passes the middlewares, then the form request validates it as a POST. */
    method Store(body: Payload) returns (r: Response)
      requires table.Valid()
      modifies table
      ensures table.Valid()
      ensures Step(Model(), r)
           == StoreOp(old(Model()), FormRequest(Post, Normalize(body), old(table.rows).Keys, checks), table.defaultFinalizado)
    {
      var req := FormRequest(Post, Normalize(body), table.rows.Keys, checks);
      if req.Err? {
        return Response(422, Invalid(req.error));
      }
      var task := table.Create(req.value);
      r := Response(201, One(task));
    }

    /** `update`, reached by PUT or PATCH; the body passes the middlewares and the form request first. */
    method Update(m: HttpMethod, id: int, body: Payload) returns (r: Response)
      requires table.Valid()
      modifies table
      ensures table.Valid()
      ensures Step(Model(), r) == UpdateOp(old(Model()), FormRequest(m, Normalize(body), old(table.rows).Keys, checks), id)
    {
      var req := FormRequest(m, Normalize(body), table.rows.Keys, checks);
      if req.Err? {
        return Response(422, Invalid(req.error));
      }
      var task := table.Find(id);
      if task.None? {
        return NotFound();
      }
      var updated := ApplyChanges(task.value, req.value);
      table.Save(updated);
      r := Response(200, One(updated));
    }

    method Destroy(id: int) returns (r: Response)
      requires table.Valid()
      modifies table
      ensures table.Valid()
      ensures Step(Model(), r) == DestroyOp(old(Model()), id)
    {
      var task := table.Find(id);
      if task.None? {
        return NotFound();
      }
      table.Delete(id);
      r := Response(204, NoContent);
    }

    method Toggle(id: int) returns (r: Response)
      requires table.Valid()
      modifies table, queue
      ensures table.Valid()
      ensures Step(Model(), r) == ToggleOp(old(Model()), id)
    {
      var task := table.Find(id);
      if task.None? {
        return NotFound();
      }
      var t := task.value.(finalizado := Bool(!Truthy(task.value.finalizado)));
      table.Save(t);
      if Truthy(t.finalizado) {
        queue.Dispatch(t.id, DeletionDelay);
      }
      r := Response(200, One(t));
    }

    /** The queue worker's pass over the jobs that are due. */
    method Work()
      requires table.Valid()
      modifies table, queue
      ensures table.Valid()
      ensures Model() == RunDue(old(Model()))
    {
      RunDueJobs(table, queue);
    }

    /** Time passes. */
    method Wait(seconds: nat)
      modifies queue
      ensures Model() == Tick(old(Model()), seconds)
    {
      queue.Advance(seconds);
    }
  }
}
