# Task API with deferred deletion — a Dafny model

This project models the core of a small Laravel task application and its Pinia client store.

- **Task table and controller** (`Api`, `Storage`). The `tasks` table is a `map<int, Task>` with an auto-increment counter. The controller actions `index`, `store`, `show`, `update`, `destroy` and `toggle` are modelled twice. First, each is a function from the state before to the state after plus the HTTP response (status 200, 201, 204, 404 or 422). Second, `TaskController` runs the same steps on a `TaskTable` object and a `JobQueue` object, and each method's postcondition ties it to that function.
- **Deferred deletion** (`Jobs`). When `toggle` leaves a task complete, it queues a `DeleteTaskJob` due ten minutes (600 s) later. When the job runs, it looks the task up again and deletes it only if the task still exists and `finalizado` is still true. Nothing cancels a queued job. The queue is a sequence of `(taskId, availableAt)` entries with an abstract clock. A worker pass (`RunDueJobs`) runs every due job in queue order and keeps the others.
- **Request validation** (`StoreUpdateTaskRequest`). This covers the rule set of `rules()` (`id` is added for PUT and PATCH), the message table of `messages()` and `authorize()`. Rules are applied the way Laravel's validator applies them:
  - only `required` runs on an absent attribute or a blank string;
  - `nullable` skips the other rules on a null;
  - validation of an attribute stops once `required` has failed;
  - `exists` is skipped after an earlier failure on the same attribute.

  The result is the set of violated rule keys (`nome.required`, `id.exists`, …). `store` and `update` receive either those keys (answered with 422) or the validated attributes.
- **Request normalisation** (`Middleware`). Before the form request sees a body, Laravel's default global middlewares `TrimStrings` and `ConvertEmptyStringsToNull` trim every string and turn every empty string into null. The application's HTTP kernel is not part of this model, so the framework's default stack is assumed. `store` and `update` validate the normalised body, so a blank `finalizado` arrives as null and fails `boolean`, a blank `descricao` is stored as null, and `max:255` measures the trimmed `nome`.
- **Client store** (`ClientStore`). `tasks` is a `seq<Task>` field and `loading` is a flag. Each `fetch` becomes two inputs: whether the response was ok, and its decoded body.

`finalizado` holds the JSON value that was sent (after normalisation). `toggle` and the job read it with PHP's truth conversion (`Truthy`), exactly as `!$task->finalizado` and `if ($task && $task->finalizado)` do, so these truth tests need no knowledge of the Eloquent model's casts. The value stored and echoed by `store` and `update` is a different matter; see "Left out".

A consequence the model proves (`Api.StaleJobDeletesEarly`): because jobs are never cancelled, a task that is completed, taken back and completed again within ten minutes is deleted when the FIRST job falls due. That can be seconds after its last completion, not ten minutes.

## Model

| member | source | states |
|---|---|---|
| `StoreUpdateTaskRequest.Authorize` | app/Http/Requests/StoreUpdateTaskRequest.php:12-15 | every request is authorized |
| `StoreUpdateTaskRequest.Rules` | app/Http/Requests/StoreUpdateTaskRequest.php:22-37 | the four task attributes always carry rules; `id` carries rules exactly for PUT and PATCH |
| `StoreUpdateTaskRequest.Failures` | app/Http/Requests/StoreUpdateTaskRequest.php:24-34 | the failing rules of an attribute are rules it has, never `nullable`, and include those already failed |
| `StoreUpdateTaskRequest.Validate` | app/Http/Requests/StoreUpdateTaskRequest.php:22-37 | every violated key belongs to an attribute that has rules for the request's method and names one of its rules |
| `StoreUpdateTaskRequest.ValidateByField` | app/Http/Requests/StoreUpdateTaskRequest.php:22-37 | a key of attribute f is violated iff f has rules for the method and that rule fails on f's value |
| `StoreUpdateTaskRequest.NomeFailures` | app/Http/Requests/StoreUpdateTaskRequest.php:25 | the rules required, string and max:255 fail on at most one rule: required if missing, null or blank; else string if not a string; else max if longer than 255 |
| `StoreUpdateTaskRequest.NomeRules` | app/Http/Requests/StoreUpdateTaskRequest.php:25 | `nome.required` iff nome is missing, null or blank; `nome.string` iff filled and not a string; `nome.max` iff a string over 255 characters; no other nome key |
| `StoreUpdateTaskRequest.DescricaoRules` | app/Http/Requests/StoreUpdateTaskRequest.php:26 | `descricao.string` iff descricao is present, non-null and not a string; absent or null never fails |
| `StoreUpdateTaskRequest.DataLimiteRules` | app/Http/Requests/StoreUpdateTaskRequest.php:27 | `data_limite.date` iff data_limite is present, non-null, non-blank and not a valid date |
| `StoreUpdateTaskRequest.FinalizadoRules` | app/Http/Requests/StoreUpdateTaskRequest.php:28 | `finalizado.boolean` iff finalizado is present, non-blank and not one of `true`, `false`, `0`, `1`, `"0"`, `"1"`; in particular a sent null fails, since the rule is not `nullable` |
| `StoreUpdateTaskRequest.IdFailures` | app/Http/Requests/StoreUpdateTaskRequest.php:33 | the rules required, integer and exists:tasks,id fail on at most one rule, with `exists` only for an integer that is not a task id |
| `StoreUpdateTaskRequest.IdRules` | app/Http/Requests/StoreUpdateTaskRequest.php:32-34 | for PUT/PATCH: `id.required` iff missing, `id.integer` iff not an integer, `id.exists` iff an integer that is not a task id; for other methods no id key ever |
| `StoreUpdateTaskRequest.Messages` | app/Http/Requests/StoreUpdateTaskRequest.php:44-57 | the message table has an entry for a rule key iff it is one of the nine keys a request can violate |
| `StoreUpdateTaskRequest.EveryFailureHasMessage` | app/Http/Requests/StoreUpdateTaskRequest.php:44-57 | every key a request violates is one of the nine failable keys and has its fixed message |
| `StoreUpdateTaskRequest.MinimalBodyIsValid` | app/Http/Requests/StoreUpdateTaskRequest.php:24-29 | a POST body holding only a non-blank string `nome` of at most 255 characters is valid |
| `StoreUpdateTaskRequest.FormRequest` | app/Http/Controllers/Api/TaskController.php:26 | the request is rejected iff some rule fails, with exactly the violated keys; when accepted, `nome` is a non-blank string of at most 255 characters and the optional attributes are passed on as the validator received them |
| `StoreUpdateTaskRequest.NormalizedNomeRules` | app/Http/Requests/StoreUpdateTaskRequest.php:25 | for a `nome` string sent, after normalisation: `nome.required` iff it is blank, never `nome.string`, and `nome.max` iff its trimmed text is over 255 characters |
| `StoreUpdateTaskRequest.NormalizedBlankFinalizadoFails` | app/Http/Requests/StoreUpdateTaskRequest.php:28 | a blank `finalizado` string arrives as null and violates `finalizado.boolean` |
| `StoreUpdateTaskRequest.NormalizedBlankOptionalIsNull` | app/Http/Requests/StoreUpdateTaskRequest.php:26-27 | blank `descricao` and `data_limite` strings violate nothing and, when the request is accepted, are handed on as null |
| `Storage.TaskTable.Find` | app/Http/Controllers/Api/TaskController.php:36 | `Task::find`: the row under the id if there is one, otherwise nothing |
| `Storage.TaskTable.Create` | app/Http/Controllers/Api/TaskController.php:27 | inserts one row under the next auto-increment id, which was not in use, and keeps the table invariant |
| `Storage.TaskTable.Save` | app/Http/Controllers/Api/TaskController.php:89 | writing back an existing row: only that row is replaced, the counter is kept, and so is the table invariant |
| `Storage.TaskTable.Delete` | app/Http/Controllers/Api/TaskController.php:73 | exactly that row is removed, the counter is kept, and so is the table invariant |
| `Storage.JobQueue.Dispatch` | app/Http/Controllers/Api/TaskController.php:93 | one job for the task, due the given delay after the current time, is appended behind the queued ones; the clock is kept |
| `Api.ShowOp` | app/Http/Controllers/Api/TaskController.php:34-43 | an absent id answers 404 "Tarefa não encontrada"; a present one answers 200 with its row, whose id is the requested one |
| `Api.StoreOp` | app/Http/Controllers/Api/TaskController.php:24-29 | a rejected request answers 422 and changes nothing; an accepted one adds one row under a fresh id, leaves every other row unchanged and answers 201 with the new row, whose `nome` is the one sent, whose `descricao` and `data_limite` are the ones sent or else null, and whose `finalizado` is the one sent or else the column default |
| `Api.UpdateOp` | app/Http/Controllers/Api/TaskController.php:48-60 | 422 with no change on a rejected request; 404 with no change for an absent id; otherwise only that row changes, `nome` and the sent attributes are overwritten, the rest are kept, and the answer is 200 with the row |
| `Api.DestroyOp` | app/Http/Controllers/Api/TaskController.php:65-75 | 404 with no change for an absent id; otherwise exactly that key is removed, queued jobs are kept and the answer is 204 |
| `Api.ToggleOp` | app/Http/Controllers/Api/TaskController.php:80-97 | 404 with no change for an absent id; otherwise only `finalizado` of that row changes and its truth flips, and exactly one job due at now + 600 s is appended iff the task is now complete; no job is removed |
| `Api.DestroyThenShow` | app/Http/Controllers/Api/TaskController.php:65-75 | after `destroy` of an existing task answers 204, `show` of it answers 404 |
| `Api.ToggleTwice` | app/Http/Controllers/Api/TaskController.php:88-89 | two toggles restore the truth of `finalizado` |
| `Api.CompleteWhenDueIsDeleted` | app/Jobs/DeleteTaskJob.php:31-34 | a task still complete when a due job for it runs no longer exists afterwards |
| `Api.IncompleteSurvives` | app/Jobs/DeleteTaskJob.php:32 | a task that is not complete survives every worker pass unchanged |
| `Api.CompletedTaskIsDeleted` | app/Http/Controllers/Api/TaskController.php:88-94 | toggling an incomplete task and waiting ten minutes or more: the worker pass deletes it |
| `Api.ToggledBackSurvives` | app/Jobs/DeleteTaskJob.php:32-33 | toggling to complete and back before the job runs: the job is due and runs, and the task survives it unchanged |
| `Api.StaleJobDeletesEarly` | app/Http/Controllers/Api/TaskController.php:91-94 | complete, take back after 100 s, complete again after 590 s: the first job deletes the task 10 s later |
| `Api.TaskController.Index` | app/Http/Controllers/Api/TaskController.php:15-19 | answers 200 with exactly the rows of the table and changes nothing |
| `Api.TaskController.Show` | app/Http/Controllers/Api/TaskController.php:34-43 | the lookup the table answers, as `ShowOp` states |
| `Api.StoreBlankFinalizadoIsRejected` | app/Http/Controllers/Api/TaskController.php:24-26 | `store` with a blank `finalizado` answers 422 listing `finalizado.boolean` and stores nothing |
| `Api.TaskController.Store` | app/Http/Controllers/Api/TaskController.php:24-29 | validates the normalised body as a POST, then changes the table and answers as `StoreOp` states |
| `Api.TaskController.Update` | app/Http/Controllers/Api/TaskController.php:48-60 | validates the normalised body, then looks up, saves and answers as `UpdateOp` states |
| `Api.TaskController.Destroy` | app/Http/Controllers/Api/TaskController.php:65-75 | changes the table and answers as `DestroyOp` states |
| `Api.TaskController.Toggle` | app/Http/Controllers/Api/TaskController.php:80-97 | changes the table and the queue and answers as `ToggleOp` states |
| `Api.TaskController.Work` | app/Jobs/DeleteTaskJob.php:29-35 | a worker pass over the queue leaves the table and queue as `RunDue` states, which `Jobs.RunDueRowsExact` describes row by row |
| `Jobs.AfterHandle` | app/Jobs/DeleteTaskJob.php:29-35 | the task is deleted iff it exists and is complete; otherwise nothing changes; no other task is ever affected |
| `Jobs.HandleIdempotent` | app/Jobs/DeleteTaskJob.php:31-34 | running the job twice leaves the same rows as running it once |
| `Jobs.HandleCommutes` | app/Jobs/DeleteTaskJob.php:31-34 | two jobs leave the same rows in either order |
| `Jobs.DeleteTaskJob.constructor` | app/Jobs/DeleteTaskJob.php:21-24 | stores its argument unchanged in `taskId` |
| `Jobs.DeleteTaskJob.Handle` | app/Jobs/DeleteTaskJob.php:29-35 | finds the task again and deletes it only if it is still complete, as `AfterHandle` states |
| `Jobs.RunDueRowsExact` | app/Jobs/DeleteTaskJob.php:31-34 | after a worker pass a task exists iff it existed and was not both complete and named by a due job; surviving rows are unchanged |
| `Jobs.RunDueJobs` | app/Jobs/DeleteTaskJob.php:29-35 | runs every due job in queue order through `DeleteTaskJob.Handle` and keeps exactly the jobs not yet due |
| `ClientStore.IndexOf` | resources/js/stores/taskStore.js:47 | -1 iff no task has the id; otherwise the first position holding it |
| `ClientStore.ReplaceFirst` | resources/js/stores/taskStore.js:47-48 | same length; only the first task with the id is replaced; unchanged if none has it |
| `ClientStore.RemoveId` | resources/js/stores/taskStore.js:61 | no task with the id remains, every other task remains, nothing new appears |
| `ClientStore.RemoveIdAppend` | resources/js/stores/taskStore.js:61 | filtering works piece by piece, so the relative order of the rest is preserved |
| `ClientStore.RemoveIdCounts` | resources/js/stores/taskStore.js:61 | every copy of a task with the id is dropped, and every copy of every other task is kept |
| `ClientStore.TaskStore.constructor` | resources/js/stores/taskStore.js:4-7 | starts with no tasks and not loading |
| `ClientStore.TaskStore.FetchTasks` | resources/js/stores/taskStore.js:9-20 | tasks become the body on success and the empty list on failure; loading ends false |
| `ClientStore.TaskStore.CreateTask` | resources/js/stores/taskStore.js:21-36 | on ok the created task is appended at the end and returned; otherwise the list is unchanged and the call rejects; loading ends false |
| `ClientStore.TaskStore.UpdateTask` | resources/js/stores/taskStore.js:37-53 | on ok only the first task with the id is replaced; otherwise unchanged and rejected; loading ends false |
| `ClientStore.TaskStore.DeleteTask` | resources/js/stores/taskStore.js:54-65 | on ok every task with the id is filtered out; otherwise unchanged and rejected; loading ends false |
| `ClientStore.TaskStore.ToggleTask` | resources/js/stores/taskStore.js:66-86 | for an id not held, nothing changes, not even `loading`; otherwise on ok the first task with the id is replaced by the answer, on failure the list is unchanged; loading ends false |

## Left out

- HTTP routing: `routes/api.php` only registers routes through the framework. The controller methods are the entry points, and `update` takes the request method as a parameter.
- JSON encoding: response bodies are datatypes. The 422 body carries the set of violated rule keys, and each key's text is its entry in `Messages`. The per-attribute grouping of Laravel's error JSON is not modelled.
- Ids are integers. The string route parameter and its lookup by `Task::find` are not modelled.
- Eloquent internals: the table is a map with an auto-increment counter. The schema is not shown, so the column default of `finalizado` is a constant given when the table is built. Absent `descricao` and `data_limite` become null. `Store` answers with the row as stored, including that default; Eloquent's fresh model would leave unset columns out of its JSON.
- `Api.UpdateOp`: the validated `id` of a PUT or PATCH body is not written to the row. The model assumes `id` is not mass-assignable, since the model class is not shown. The body `id` is only checked for existence; the row updated is the one named in the URL.
- Coercions: date parsing (`date`) and integer detection (`integer`, `exists`) are left as the functions of a `Coercions` value. `exists` is taken to hold when the integer read from the value is a key of the table.
- `StoreUpdateTaskRequest.Passes`: `max:255` limits only strings. The size Laravel measures for a non-string value (digits of a number, elements of an array) is not modelled, so a non-string `nome` is reported with `nome.string` alone.
- Stored `finalizado`: the row keeps the value that was sent (for example `"1"`), and `store` and `update` echo that value. A `boolean` cast on the Eloquent model, or the column type, would turn it into `true` or `1`. The model class and the migration are not part of this model.
- Trimming: strings are trimmed of the characters PHP's `trim` removes. Newer framework versions also trim Unicode white space, which is not modelled. Strings nested inside arrays or objects (`Other`) are not normalised.
- Arrays, objects and floats sent as values are one case, `Other`, carrying PHP's truth value. An empty array is not treated as failing `required`.
- Queue mechanics: serialization, retries, failed jobs and real delays are not modelled. A worker pass runs the due jobs in queue order. `Jobs.HandleCommutes` shows that the order does not change the result.
- Concurrency: no interleaving is modelled, within a request or between a running job and a request. This includes the race between a job's re-check and a concurrent toggle. Overlapping async actions in the client store are not modelled either; the store's intermediate `loading = true` is not observable in this sequential model.
- `fetch`, `async`/`await` and JSON decoding in the client store are replaced by the `(ok, body)` inputs. A JSON decoding failure is not modelled. The toggle request body is ignored by the server and is not modelled.
