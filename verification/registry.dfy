/**
 * The dictionary-in, dictionary-out handlers of backend/mcp/tool_registry.py: each builds its
 * request model from the parameter dictionary, runs the task tool, and returns the response
 * model's `.dict()`.
 */
module Registry {
  import opened Wrappers
  import opened Json
  import opened Text
  import opened ToolErrors
  import opened TaskTools

  /**
   * What a handler raises: a tool exception, or the model's own rejection of the parameters, named
   * by the first offending field (its message text is not modelled).
   */
  datatype HandlerError = Raised(e: ToolException) | RejectedParams(field: string)

  datatype DictStep = DictStep(db: TaskDb, result: Result<Dict, HandlerError>)

  // ---------------------------------------------------------------- request models

  /** A required `str` field. */
  function RequiredString(params: Dict, field: string): Result<string, string> {
    if field in params && params[field].Str? then Ok(params[field].s) else Err(field)
  }

  /** An `Optional[str] = None` field: absent or `None` is `None`. */
  function OptionalString(params: Dict, field: string): Result<Option<string>, string> {
    if field !in params || params[field].Null? then Ok(None)
    else if params[field].Str? then Ok(Some(params[field].s))
    else Err(field)
  }

  /** A required `int` field. */
  function RequiredInt(params: Dict, field: string): Result<int, string> {
    if field in params && params[field].Int? then Ok(params[field].i) else Err(field)
  }

  /** `ListTasksRequest.status`: one of the three names, `"all"` when absent. */
  function StatusParam(params: Dict): Result<TaskStatus, string> {
    if "status" !in params then Ok(All)
    else match params["status"]
      case Str(s) =>
        if s == "all" then Ok(All)
        else if s == "pending" then Ok(Pending)
        else if s == "completed" then Ok(Completed)
        else Err("status")
      case _ => Err("status")
  }

  /** The parameter dictionary a typed request is sent as. */
  function OptionalValue(v: Option<string>): Value {
    match v
    case Some(s) => Str(s)
    case None => Null
  }

  function StatusName(s: TaskStatus): string {
    match s
    case All => "all"
    case Pending => "pending"
    case Completed => "completed"
  }

  /** The request models read back exactly what the parameter dictionary of a request holds. */
  lemma ParamsRoundTrip(title: string, description: Option<string>, taskId: int, status: TaskStatus)
    ensures var p := map["title" := Str(title), "description" := OptionalValue(description)];
      RequiredString(p, "title") == Ok(title) && OptionalString(p, "description") == Ok(description)
    ensures RequiredInt(map["task_id" := Int(taskId)], "task_id") == Ok(taskId)
    ensures StatusParam(map["status" := Str(StatusName(status))]) == Ok(status)
    ensures StatusParam(map[]) == Ok(All)
  {
  }

  // ---------------------------------------------------------------- response dictionaries

  function TaskItemDict(t: TaskItem): Value {
    Object(map["id" := Int(t.id), "title" := Str(t.title), "completed" := Bool(t.completed)])
  }

  function SummaryDict(s: TaskSummary): Dict {
    map["task_id" := Int(s.taskId), "title" := Str(s.title), "completed" := Bool(s.completed)]
  }

  /** Lift a tool step into a handler step, rendering the result with `render`. */
  function Lift<R>(s: Step<R>, render: R -> Dict): (d: DictStep)
    ensures d.db == s.db
    ensures s.result.Ok? <==> d.result.Ok?
    ensures s.result.Ok? ==> d.result.value == render(s.result.value)
    ensures s.result.Err? ==> d.result.error == Raised(s.result.error)
  {
    match s.result
    case Ok(r) => DictStep(s.db, Ok(render(r)))
    case Err(e) => DictStep(s.db, Err(Raised(e)))
  }

  // ---------------------------------------------------------------- the handlers

  /** `add_task_handler`; `isoformat` renders the creation time. */
  function AddTaskHandler(db: TaskDb, user: string, params: Dict, now: int, isoformat: int -> string): (d: DictStep)
    ensures RequiredString(params, "title").Err? ==> d == DictStep(db, Err(RejectedParams("title")))
    ensures RequiredString(params, "title").Ok? && OptionalString(params, "description").Err? ==>
      d == DictStep(db, Err(RejectedParams("description")))
    ensures var title, description := RequiredString(params, "title"), OptionalString(params, "description");
      title.Ok? && description.Ok? ==>
        && (d.result.Err? <==> AddTaskError(title.value, description.value).Some?)
        && (d.result.Err? ==> d.result.error == Raised(AddTaskError(title.value, description.value).value))
    ensures d.result.Ok? ==>
      && RequiredString(params, "title").Ok?
      && var title := RequiredString(params, "title").value;
      && d.result.value == map["task_id" := Int(db.nextId), "title" := Str(Strip(title)), "completed" := Bool(false),
                               "created_at" := Str(isoformat(now))]
      && Owns(d.db, user, db.nextId) && d.db.tasks[db.nextId].title == Strip(title)
    ensures d.result.Ok? ==>
      && d.db.tasks.Keys == db.tasks.Keys + {db.nextId} && d.db.nextId == db.nextId + 1
      && forall id :: id in db.tasks && id != db.nextId ==> d.db.tasks[id] == db.tasks[id]
    ensures d.result.Err? ==> d.db == db
    ensures Valid(db) ==> Valid(d.db) && OthersUnchanged(db, d.db, user)
  {
    match RequiredString(params, "title")
    case Err(f) => DictStep(db, Err(RejectedParams(f)))
    case Ok(title) =>
      match OptionalString(params, "description")
      case Err(f) => DictStep(db, Err(RejectedParams(f)))
      case Ok(description) =>
        var s := AddTask(db, user, title, description, now);
        assert Valid(db) ==> OthersUnchanged(db, s.db, user) by {
          if Valid(db) {
            ApplyKeepsOthers(db, user, Add(title, description), now);
          }
        }
        Lift(s,
             (r: AddTaskResponse) => map["task_id" := Int(r.taskId), "title" := Str(r.title), "completed" := Bool(r.completed),
                                         "created_at" := Str(isoformat(r.createdAt))])
  }

  /** `list_tasks_handler` */
  function ListTasksHandler(db: TaskDb, user: string, params: Dict): (d: DictStep)
    requires Valid(db)
    ensures d.db == db
    ensures StatusParam(params).Err? <==> d.result.Err?
    ensures d.result.Ok? ==>
      var items := ListTasks(db, user, StatusParam(params).value);
      d.result.value == map["tasks" := Array(seq(|items|, i requires 0 <= i < |items| => TaskItemDict(items[i])))]
  {
    match StatusParam(params)
    case Err(f) => DictStep(db, Err(RejectedParams(f)))
    case Ok(status) =>
      var items := ListTasks(db, user, status);
      DictStep(db, Ok(map["tasks" := Array(seq(|items|, i requires 0 <= i < |items| => TaskItemDict(items[i])))]))
  }

  /** `complete_task_handler`: the same id back, now completed. */
  function CompleteTaskHandler(db: TaskDb, user: string, params: Dict, now: int): (d: DictStep)
    ensures d.result.Err? ==> d.db == db
    ensures RequiredInt(params, "task_id").Err? ==> d.result == Err(RejectedParams("task_id"))
    ensures RequiredInt(params, "task_id").Ok? && !Owns(db, user, RequiredInt(params, "task_id").value) ==>
      d.result == Err(Raised(TaskNotFoundError(RequiredInt(params, "task_id").value)))
    ensures d.result.Ok? ==>
      && RequiredInt(params, "task_id").Ok?
      && var id := RequiredInt(params, "task_id").value;
      && Owns(db, user, id)
      && d.result.value == map["task_id" := Int(id), "title" := Str(db.tasks[id].title), "completed" := Bool(true)]
      && Owns(d.db, user, id) && d.db.tasks[id].completed
      && d.db == TaskDb(db.tasks[id := db.tasks[id].(completed := true, updatedAt := Some(now))], db.nextId)
    ensures Valid(db) ==> Valid(d.db) && OthersUnchanged(db, d.db, user)
  {
    match RequiredInt(params, "task_id")
    case Err(f) => DictStep(db, Err(RejectedParams(f)))
    case Ok(id) => Lift(CompleteTask(db, user, id, now), SummaryDict)
  }

  /** `update_task_handler`: neither field is refused before the lookup; a blank title after it. */
  function UpdateTaskHandler(db: TaskDb, user: string, params: Dict, now: int): (d: DictStep)
    ensures d.result.Err? ==> d.db == db
    ensures var id, t, ds := RequiredInt(params, "task_id"), OptionalString(params, "title"), OptionalString(params, "description");
      id.Ok? && t.Ok? && ds.Ok? ==>
        && (t.value.None? && ds.value.None? ==> d.result == Err(Raised(ValidationError(NothingToUpdate, None))))
        && ((t.value.Some? || ds.value.Some?) && !Owns(db, user, id.value) ==>
              d.result == Err(Raised(TaskNotFoundError(id.value))))
        && (Owns(db, user, id.value) && t.value.Some? && IsBlank(t.value.value) ==>
              d.result == Err(Raised(ValidationError(TitleEmpty, Some("title")))))
        && (d.result.Ok? <==> UpdateTaskError(db, user, id.value, t.value, ds.value).None?)
        && (d.result.Ok? ==>
              var row := db.tasks[id.value];
              && d.result.value == map["task_id" := Int(id.value), "title" := Str(t.value.GetOr(row.title)),
                                       "completed" := Bool(row.completed)]
              && d.db == TaskDb(db.tasks[id.value := row.(title := t.value.GetOr(row.title),
                                                          description := if ds.value.Some? then ds.value else row.description,
                                                          updatedAt := Some(now))], db.nextId))
    ensures d.result.Ok? ==> RequiredInt(params, "task_id").Ok? && OptionalString(params, "title").Ok?
                             && OptionalString(params, "description").Ok?
    ensures Valid(db) ==> Valid(d.db) && OthersUnchanged(db, d.db, user)
  {
    match RequiredInt(params, "task_id")
    case Err(f) => DictStep(db, Err(RejectedParams(f)))
    case Ok(id) =>
      match OptionalString(params, "title")
      case Err(f) => DictStep(db, Err(RejectedParams(f)))
      case Ok(title) =>
        match OptionalString(params, "description")
        case Err(f) => DictStep(db, Err(RejectedParams(f)))
        case Ok(description) =>
          var s := UpdateTask(db, user, id, title, description, now);
          assert Valid(db) ==> OthersUnchanged(db, s.db, user) by {
            if Valid(db) {
              ApplyKeepsOthers(db, user, Update(id, title, description), now);
            }
          }
          Lift(s, SummaryDict)
  }

  /** `delete_task_handler` */
  function DeleteTaskHandler(db: TaskDb, user: string, params: Dict): (d: DictStep)
    ensures d.result.Err? ==> d.db == db
    ensures RequiredInt(params, "task_id").Err? ==> d.result == Err(RejectedParams("task_id"))
    ensures RequiredInt(params, "task_id").Ok? && !Owns(db, user, RequiredInt(params, "task_id").value) ==>
      d.result == Err(Raised(TaskNotFoundError(RequiredInt(params, "task_id").value)))
    ensures d.result.Ok? ==>
      && RequiredInt(params, "task_id").Ok?
      && var id := RequiredInt(params, "task_id").value;
      && d.result.value == map["task_id" := Int(id), "status" := Str("deleted")]
      && id !in d.db.tasks && Owns(db, user, id)
      && d.db == TaskDb(db.tasks - {id}, db.nextId)
    ensures Valid(db) ==> Valid(d.db) && OthersUnchanged(db, d.db, user)
  {
    match RequiredInt(params, "task_id")
    case Err(f) => DictStep(db, Err(RejectedParams(f)))
    case Ok(id) =>
      Lift(DeleteTask(db, user, id), (r: DeleteTaskResponse) => map["task_id" := Int(r.taskId), "status" := Str(r.status)])
  }

  /**
   * The handlers read only the caller's rows: on two tables that agree on them, every handler
   * returns the same dictionary.
   */
  lemma HandlersIgnoreOthers(a: TaskDb, b: TaskDb, user: string, params: Dict, now: int)
    requires Valid(a) && Valid(b) && a.nextId == b.nextId
    requires forall id :: Owns(a, user, id) <==> Owns(b, user, id)
    requires forall id :: Owns(a, user, id) ==> id in b.tasks && a.tasks[id] == b.tasks[id]
    ensures ListTasksHandler(a, user, params).result == ListTasksHandler(b, user, params).result
    ensures CompleteTaskHandler(a, user, params, now).result == CompleteTaskHandler(b, user, params, now).result
    ensures UpdateTaskHandler(a, user, params, now).result == UpdateTaskHandler(b, user, params, now).result
    ensures DeleteTaskHandler(a, user, params).result == DeleteTaskHandler(b, user, params).result
  {
    if StatusParam(params).Ok? {
      ResultsIgnoreOthers(a, b, user, List(StatusParam(params).value), now);
    }
    if RequiredInt(params, "task_id").Ok? {
      TaskIdHandlersIgnoreOthers(a, b, user, params, RequiredInt(params, "task_id").value, now);
    }
  }

  /** The same for the three handlers that take a `task_id`. */
  lemma TaskIdHandlersIgnoreOthers(a: TaskDb, b: TaskDb, user: string, params: Dict, id: int, now: int)
    requires Valid(a) && Valid(b) && a.nextId == b.nextId
    requires forall id :: Owns(a, user, id) <==> Owns(b, user, id)
    requires forall id :: Owns(a, user, id) ==> id in b.tasks && a.tasks[id] == b.tasks[id]
    requires RequiredInt(params, "task_id") == Ok(id)
    ensures CompleteTaskHandler(a, user, params, now).result == CompleteTaskHandler(b, user, params, now).result
    ensures UpdateTaskHandler(a, user, params, now).result == UpdateTaskHandler(b, user, params, now).result
    ensures DeleteTaskHandler(a, user, params).result == DeleteTaskHandler(b, user, params).result
  {
    ResultsIgnoreOthers(a, b, user, Complete(id), now);
    ResultsIgnoreOthers(a, b, user, Delete(id), now);
    var title, description := OptionalString(params, "title"), OptionalString(params, "description");
    if title.Ok? && description.Ok? {
      ResultsIgnoreOthers(a, b, user, Update(id, title.value, description.value), now);
    }
  }
}
