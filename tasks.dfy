/**
 * The task record shared by the server (the Eloquent model `Task`) and the
 * client store, and the JSON values its attributes hold.
 */
module Tasks {
  import opened Wrappers

  /** A JSON value as PHP sees it after decoding a request body. */
  datatype Value =
    | Null
    | Bool(b: bool)
    | Int(i: int)
    | Str(s: string)
    /** a float, an array or an object, with the truth value PHP gives it */
    | Other(truthy: bool)

  /** PHP's conversion to boolean, used by `!$task->finalizado` and `if ($task->finalizado)`. */
  function Truthy(v: Value): bool
  {
    match v
    case Null => false
    case Bool(b) => b
    case Int(i) => i != 0
    case Str(s) => s != "" && s != "0"
    case Other(t) => t
  }

  /** One row of the `tasks` table, as stored and as sent to the client. */
  datatype Task = Task(id: int, nome: string, descricao: Value, dataLimite: Value, finalizado: Value)

  /**
   * The attributes a validated request carries: `nome` is always there
   * (it is required), the others only when the request sent them.
   */
  datatype Changes = Changes(nome: string, descricao: Option<Value>, dataLimite: Option<Value>, finalizado: Option<Value>)

  /** `Task::create($validated)`: a new row; absent nullable columns are null, absent `finalizado` takes the column default. */
  function NewRecord(id: int, ch: Changes, defaultFinalizado: Value): Task
  {
    Task(id, ch.nome, Or(ch.descricao, Null), Or(ch.dataLimite, Null), Or(ch.finalizado, defaultFinalizado))
  }

  /** `$task->update($validated)`: the sent attributes overwrite, the others and the id stay. */
  function ApplyChanges(t: Task, ch: Changes): Task
  {
    t.(nome := ch.nome,
       descricao := Or(ch.descricao, t.descricao),
       dataLimite := Or(ch.dataLimite, t.dataLimite),
       finalizado := Or(ch.finalizado, t.finalizado))
  }

  function Or(o: Option<Value>, otherwise: Value): Value
  {
    if o.Some? then o.value else otherwise
  }
}
