/**
 * `MCPTaskClient` (backend/services/mcp_client.py): one HTTP request per task operation, the decoded
 * JSON body on success, and a fixed-shape failure dictionary on any error. The client never raises.
 */
module TaskClient {
  import opened Wrappers
  import opened Json

  /** The base URL used when none is configured. */
  const DefaultBaseUrl: string := "http://localhost:8000"

  /** The `message` of a failed complete, delete or update. */
  const NotFoundMessage: string := "Could not find that task. Please check your list of tasks."

  /** A task-service operation with its arguments as the caller passes them; `None` is Python's `None`. */
  datatype ServiceCall =
    | AddTask(task: Value, user: Option<string>)
    | ListTasks(user: Option<string>)
    | CompleteTask(taskId: Value, user: Option<string>)
    | DeleteTask(taskId: Value, user: Option<string>)
    | UpdateTask(taskId: Value, newContent: Value, user: Option<string>)

  datatype HttpMethod = HttpGet | HttpPost | HttpPut | HttpDelete

  datatype Request = Request(verb: HttpMethod, url: string, body: Option<Dict>)

  /**
   * What the HTTP layer hands back: the decoded JSON body of a 2xx response, or the text of the
   * exception raised by the connection, by `raise_for_status` or by JSON decoding.
   */
  datatype Transport = Delivered(json: Value) | Failed(message: string)

  /** `base_url or "http://localhost:8000"` */
  function BaseUrl(configured: Option<string>): (b: string)
    ensures configured.Some? && configured.value != "" ==> b == configured.value
    ensures configured.None? || configured.value == "" ==> b == DefaultBaseUrl
  {
    match configured
    case Some(u) => if u != "" then u else DefaultBaseUrl
    case None => DefaultBaseUrl
  }

  /** The JSON rendering of an optional string: `null` for `None`. */
  function UserValue(user: Option<string>): Value {
    match user
    case Some(u) => Str(u)
    case None => Null
  }

  function Endpoint(base: string, name: string): string {
    base + "/api/" + name
  }

  const UserQuery: string := "?user_id="

  /** The request each operation sends. */
  function RequestFor(base: string, call: ServiceCall): (req: Request)
    ensures call.ListTasks? <==> req.body.None?
    ensures call.ListTasks? ==> req.verb == HttpGet
    ensures req.body.Some? ==> "user_id" in req.body.value && req.body.value["user_id"] == UserValue(call.user)
  {
    match call
    case AddTask(task, user) =>
      Request(HttpPost, Endpoint(base, "add_task"), Some(map["task" := task, "user_id" := UserValue(user)]))
    case ListTasks(user) =>
      var url := Endpoint(base, "list_tasks");
      Request(HttpGet, if user.Some? && user.value != "" then url + UserQuery + user.value else url, None)
    case CompleteTask(taskId, user) =>
      Request(HttpPost, Endpoint(base, "complete_task"), Some(map["task_id" := taskId, "user_id" := UserValue(user)]))
    case DeleteTask(taskId, user) =>
      Request(HttpDelete, Endpoint(base, "delete_task"), Some(map["task_id" := taskId, "user_id" := UserValue(user)]))
    case UpdateTask(taskId, newContent, user) =>
      Request(HttpPut, Endpoint(base, "update_task"),
              Some(map["task_id" := taskId, "new_content" := newContent, "user_id" := UserValue(user)]))
  }

  /** The dictionary returned when the request fails with `message`. */
  function FailureFor(call: ServiceCall, message: string): (v: Value)
    ensures v.Object? && "success" in v.fields && "error" in v.fields
    ensures v.fields["success"] == Bool(false) && v.fields["error"] == Str(message)
    ensures call.AddTask? ==> v.fields == map["success" := Bool(false), "error" := Str(message), "task_id" := Null]
    ensures call.ListTasks? ==> v.fields == map["success" := Bool(false), "error" := Str(message), "tasks" := Array([])]
    ensures !call.AddTask? && !call.ListTasks? ==>
      v.fields == map["success" := Bool(false), "error" := Str(message), "message" := Str(NotFoundMessage)]
  {
    var common := map["success" := Bool(false), "error" := Str(message)];
    match call
    case AddTask(_, _) => Object(common["task_id" := Null])
    case ListTasks(_) => Object(common["tasks" := Array([])])
    case _ => Object(common["message" := Str(NotFoundMessage)])
  }

  /**
   * One client call: send the request through `send`, which threads the state `W` of everything
   * outside the process (the task service, the network), and turn its outcome into the result.
   */
  function Invoke<W>(send: (W, Request) -> (W, Transport), base: string, w: W, call: ServiceCall): (out: (W, Value))
    ensures var (w', t) := send(w, RequestFor(base, call));
      && out.0 == w'
      && (t.Delivered? ==> out.1 == t.json)
      && (t.Failed? ==> out.1 == FailureFor(call, t.message))
  {
    var (w', t) := send(w, RequestFor(base, call));
    match t
    case Delivered(json) => (w', json)
    case Failed(message) => (w', FailureFor(call, message))
  }

  /** `str()` of the `TypeError` that `httpx.AsyncClient.delete(url, json=...)` raises. */
  const DeleteTypeError: string := "AsyncClient.delete() got an unexpected keyword argument 'json'"

  /**
   * The client as written: `delete_task` passes `json=` to `httpx.AsyncClient.delete`, which has no
   * such parameter, so that call raises before any request is built and the failure dictionary is
   * returned. The other four operations behave as `Invoke`.
   */
  function InvokeAsWritten<W>(send: (W, Request) -> (W, Transport), base: string, w: W, call: ServiceCall): (out: (W, Value))
    ensures call.DeleteTask? ==> out == (w, FailureFor(call, DeleteTypeError))
    ensures !call.DeleteTask? ==> out == Invoke(send, base, w, call)
  {
    if call.DeleteTask? then (w, FailureFor(call, DeleteTypeError)) else Invoke(send, base, w, call)
  }

  /**
   * As written, a delete never reaches the service: whatever the service would answer, the state is
   * unchanged and the answer is a failure, while `Invoke` returns what the service delivered.
   */
  lemma DeleteNeverSent<W>(send: (W, Request) -> (W, Transport), base: string, w: W, taskId: Value, user: Option<string>,
                           w': W, answer: Value)
    requires send(w, RequestFor(base, DeleteTask(taskId, user))) == (w', Delivered(answer))
    requires answer != FailureFor(DeleteTask(taskId, user), DeleteTypeError)
    ensures InvokeAsWritten(send, base, w, DeleteTask(taskId, user)) == (w, FailureFor(DeleteTask(taskId, user), DeleteTypeError))
    ensures Invoke(send, base, w, DeleteTask(taskId, user)) == (w', answer)
    ensures InvokeAsWritten(send, base, w, DeleteTask(taskId, user)).1 != Invoke(send, base, w, DeleteTask(taskId, user)).1
  {
  }

  /** The corrected client sends the delete: the service reads the id and the user back from the request. */
  lemma DeleteReachesService(base: string, taskId: Value, user: Option<string>)
    ensures var req := RequestFor(base, DeleteTask(taskId, user));
      && req.verb == HttpDelete
      && CallOf(base, req) == Some(DeleteTask(taskId, user))
  {
    RequestRoundTrip(base, DeleteTask(taskId, user));
  }

  // ---------------------------------------------------------------- reading a request back

  /** The optional user id carried by a JSON value, the inverse of `UserValue` on its range. */
  function UserOf(v: Value): Option<Option<string>> {
    match v
    case Null => Some(None)
    case Str(u) => Some(Some(u))
    case _ => None
  }

  /** The user id of a list URL; `Some(None)` for the bare URL, `None` when the URL is not a list URL. */
  function ListUserOf(base: string, url: string): Option<Option<string>> {
    var bare := Endpoint(base, "list_tasks");
    var prefix := bare + UserQuery;
    if url == bare then Some(None)
    else if |prefix| < |url| && url[..|prefix|] == prefix then Some(Some(url[|prefix|..]))
    else None
  }

  /** What the task service sees: the operation and arguments a request denotes. */
  function CallOf(base: string, req: Request): Option<ServiceCall> {
    match req.body
    case None =>
      if req.verb != HttpGet then None
      else (match ListUserOf(base, req.url)
        case Some(u) => Some(ListTasks(u))
        case None => None)
    case Some(b) =>
      if "user_id" !in b || UserOf(b["user_id"]).None? then None
      else
        var u := UserOf(b["user_id"]).value;
        if req.verb == HttpPost && req.url == Endpoint(base, "add_task") && b.Keys == {"task", "user_id"} then
          Some(AddTask(b["task"], u))
        else if req.verb == HttpPost && req.url == Endpoint(base, "complete_task") && b.Keys == {"task_id", "user_id"} then
          Some(CompleteTask(b["task_id"], u))
        else if req.verb == HttpDelete && req.url == Endpoint(base, "delete_task") && b.Keys == {"task_id", "user_id"} then
          Some(DeleteTask(b["task_id"], u))
        else if req.verb == HttpPut && req.url == Endpoint(base, "update_task")
                && b.Keys == {"task_id", "new_content", "user_id"} then
          Some(UpdateTask(b["task_id"], b["new_content"], u))
        else None
  }

  /** The call with Python's two falsy user ids merged, as the list URL merges them. */
  function Canonical(call: ServiceCall): ServiceCall {
    if call.ListTasks? && call.user == Some("") then ListTasks(None) else call
  }

  lemma UserValueRoundTrip(user: Option<string>)
    ensures UserOf(UserValue(user)) == Some(user)
  {
  }

  /**
   * The request carries everything the call says: the service recovers the operation and every
   * argument, except that a list call with an empty user id is sent as one without a user id.
   */
  lemma RequestRoundTrip(base: string, call: ServiceCall)
    ensures CallOf(base, RequestFor(base, call)) == Some(Canonical(call))
  {
    UserValueRoundTrip(call.user);
    var req := RequestFor(base, call);
    match call {
      case ListTasks(user) =>
        var bare := Endpoint(base, "list_tasks");
        var prefix := bare + UserQuery;
        if user.Some? && user.value != "" {
          assert req.url == prefix + user.value;
          assert req.url[..|prefix|] == prefix;
          assert req.url[|prefix|..] == user.value;
          assert req.url != bare by {
            assert |req.url| > |bare|;
          }
        }
      case AddTask(_, _) =>
        assert req.body.value.Keys == {"task", "user_id"};
      case CompleteTask(_, _) =>
        assert req.body.value.Keys == {"task_id", "user_id"};
        assert Endpoint(base, "complete_task") != Endpoint(base, "add_task") by {
          EndpointsDiffer(base, "complete_task", "add_task");
        }
      case DeleteTask(_, _) =>
        assert req.body.value.Keys == {"task_id", "user_id"};
      case UpdateTask(_, _, _) =>
        assert req.body.value.Keys == {"task_id", "new_content", "user_id"};
    }
  }

  lemma EndpointsDiffer(base: string, a: string, b: string)
    requires a != b
    ensures Endpoint(base, a) != Endpoint(base, b)
  {
    var n := |base + "/api/"|;
    assert Endpoint(base, a)[n..] == a;
    assert Endpoint(base, b)[n..] == b;
  }
}
