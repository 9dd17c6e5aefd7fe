/**
 * The five task tools over the task table (backend/mcp/tool_implementations.py; the typed handlers of
 * backend/mcp/mcp_server_setup.py are the same code). Every tool acts for one user, the value
 * `get_current_user_id_mock` returns, here the parameter `user`.
 *
 * The table is a map from id to row plus the next id the database hands out. A tool that raises
 * commits nothing, so an error leaves the table as it was.
 */
module TaskTools {
  import opened Wrappers
  import opened Text
  import opened ToolErrors

  /** A row of the task table; times are clock readings. */
  datatype Task = Task(
    id: int,
    owner: string,
    title: string,
    description: Option<string>,
    completed: bool,
    createdAt: int,
    updatedAt: Option<int>)

  datatype TaskDb = TaskDb(tasks: map<int, Task>, nextId: int)

  /** Every row is stored under its own id, and the counter is above every id in use. */
  ghost predicate Valid(db: TaskDb) {
    && 0 < db.nextId
    && forall id :: id in db.tasks ==> db.tasks[id].id == id && 0 < id < db.nextId
  }

  const EmptyDb: TaskDb := TaskDb(map[], 1)

  /** The table after a tool call and what the call returned or raised. */
  datatype Step<R> = Step(db: TaskDb, result: Result<R, ToolException>)

  /** The filter of `list_tasks`. */
  datatype TaskStatus = All | Pending | Completed

  datatype AddTaskResponse = AddTaskResponse(taskId: int, title: string, completed: bool, createdAt: int)
  datatype TaskItem = TaskItem(id: int, title: string, completed: bool)
  /** The response of `complete_task` and `update_task`. */
  datatype TaskSummary = TaskSummary(taskId: int, title: string, completed: bool)
  datatype DeleteTaskResponse = DeleteTaskResponse(taskId: int, status: string)

  const MaxDescription: int := 1000

  const TitleRequired: string := "Title is required and cannot be empty"
  const DescriptionTooLong: string := "Description exceeds maximum length of 1000 characters"
  const NothingToUpdate: string := "At least one field (title or description) must be provided for update"
  const TitleEmpty: string := "Title cannot be empty"

  /** The row the ownership query `id == task_id and user_id == user` finds. */
  predicate Owns(db: TaskDb, user: string, id: int) {
    id in db.tasks && db.tasks[id].owner == user
  }

  /** The tables agree on every row of other users, and on which ids those rows use. */
  predicate OthersUnchanged(a: TaskDb, b: TaskDb, user: string) {
    && (forall id :: id in a.tasks && a.tasks[id].owner != user ==> id in b.tasks && b.tasks[id] == a.tasks[id])
    && (forall id :: id in b.tasks && b.tasks[id].owner != user ==> id in a.tasks && a.tasks[id] == b.tasks[id])
  }

  // ---------------------------------------------------------------- add_task

  /** The two input checks of `add_task`, in order. */
  function AddTaskError(title: string, description: Option<string>): (e: Option<ToolException>)
    ensures e.None? <==> !IsBlank(title) && (description.None? || |description.value| <= MaxDescription)
    ensures IsBlank(title) ==> e == Some(ValidationError(TitleRequired, Some("title")))
    ensures !IsBlank(title) && description.Some? && |description.value| > MaxDescription ==>
      e == Some(ValidationError(DescriptionTooLong, Some("description")))
  {
    if title == "" || |Strip(title)| == 0 then
      StripEmptyIffBlank(title);
      Some(ValidationError(TitleRequired, Some("title")))
    else if description.Some? && description.value != "" && |description.value| > MaxDescription then
      Some(ValidationError(DescriptionTooLong, Some("description")))
    else
      StripEmptyIffBlank(title);
      None
  }

  function AddTask(db: TaskDb, user: string, title: string, description: Option<string>, now: int): (s: Step<AddTaskResponse>)
    ensures s.result.Err? <==> AddTaskError(title, description).Some?
    ensures s.result.Err? ==> s.db == db && s.result.error == AddTaskError(title, description).value
    ensures Valid(db) ==> Valid(s.db)
    ensures s.result.Ok? ==>
      && s.db.tasks == db.tasks[db.nextId := Task(db.nextId, user, Strip(title), description, false, now, None)]
      && s.db.nextId == db.nextId + 1
      && s.result.value == AddTaskResponse(db.nextId, Strip(title), false, now)
  {
    match AddTaskError(title, description)
    case Some(e) => Step(db, Err(e))
    case None =>
      var t := Task(db.nextId, user, Strip(title), description, false, now, None);
      var db' := TaskDb(db.tasks[db.nextId := t], db.nextId + 1);
      assert Valid(db) ==> Valid(db') by {
        if Valid(db) {
          forall id | id in db'.tasks ensures db'.tasks[id].id == id && 0 < id < db'.nextId {
            if id != db.nextId {
              assert id in db.tasks;
            }
          }
        }
      }
      Step(db', Ok(AddTaskResponse(t.id, t.title, t.completed, t.createdAt)))
  }

  // ---------------------------------------------------------------- list_tasks

  predicate Selected(status: TaskStatus, t: Task) {
    match status
    case All => true
    case Pending => !t.completed
    case Completed => t.completed
  }

  /** The row under `id` is the caller's and the filter selects it. */
  predicate Listed(db: TaskDb, user: string, status: TaskStatus, id: int) {
    Owns(db, user, id) && Selected(status, db.tasks[id])
  }

  /** The ids of the caller's rows that the filter selects. */
  function ListedIds(db: TaskDb, user: string, status: TaskStatus): set<int> {
    set id | id in db.tasks && Listed(db, user, status, id)
  }

  /** The listed ids from `lo` up to the counter, in ascending order. */
  function ScanIds(db: TaskDb, user: string, status: TaskStatus, lo: int): (ids: seq<int>)
    ensures forall i :: 0 <= i < |ids| ==> lo <= ids[i] < db.nextId && Listed(db, user, status, ids[i])
    decreases db.nextId - lo
  {
    if lo >= db.nextId then []
    else (if Listed(db, user, status, lo) then [lo] else []) + ScanIds(db, user, status, lo + 1)
  }

  /** The scan misses no listed id in its range. */
  lemma {:induction false} ScanComplete(db: TaskDb, user: string, status: TaskStatus, lo: int)
    ensures forall id :: lo <= id < db.nextId && Listed(db, user, status, id) ==> id in ScanIds(db, user, status, lo)
    decreases db.nextId - lo
  {
    if lo < db.nextId {
      ScanComplete(db, user, status, lo + 1);
      var head := if Listed(db, user, status, lo) then [lo] else [];
      var rest := ScanIds(db, user, status, lo + 1);
      assert ScanIds(db, user, status, lo) == head + rest;
      forall id | lo <= id < db.nextId && Listed(db, user, status, id)
        ensures id in ScanIds(db, user, status, lo)
      {
        if id == lo {
          assert (head + rest)[0] == lo;
        } else {
          var k :| 0 <= k < |rest| && rest[k] == id;
          assert (head + rest)[|head| + k] == id;
        }
      }
    }
  }

  predicate Ascending(ids: seq<int>) {
    forall i, j :: 0 <= i < j < |ids| ==> ids[i] < ids[j]
  }

  /** The scan yields its ids in strictly ascending order. */
  lemma {:induction false} ScanAscending(db: TaskDb, user: string, status: TaskStatus, lo: int)
    ensures Ascending(ScanIds(db, user, status, lo))
    decreases db.nextId - lo
  {
    if lo < db.nextId {
      ScanAscending(db, user, status, lo + 1);
      var head := if Listed(db, user, status, lo) then [lo] else [];
      var rest := ScanIds(db, user, status, lo + 1);
      var ids := ScanIds(db, user, status, lo);
      assert ids == head + rest;
      forall i, j | 0 <= i < j < |ids| ensures ids[i] < ids[j] {
        assert ids[j] == rest[j - |head|];
        if i < |head| {
          assert ids[i] == lo;
          assert lo + 1 <= rest[j - |head|];
        } else {
          assert ids[i] == rest[i - |head|];
          assert Ascending(rest);
          assert rest[i - |head|] < rest[j - |head|];
        }
      }
    }
  }

  function Item(t: Task): TaskItem {
    TaskItem(t.id, t.title, t.completed)
  }

  /**
   * `list_tasks`: the caller's rows selected by the filter, in ascending id order. The query has no
   * `ORDER BY`; ascending id is the order the table is scanned in.
   */
  function ListTasks(db: TaskDb, user: string, status: TaskStatus): (items: seq<TaskItem>)
    requires Valid(db)
    ensures forall i :: 0 <= i < |items| ==>
      Listed(db, user, status, items[i].id) && items[i] == Item(db.tasks[items[i].id])
    ensures forall id :: Listed(db, user, status, id) ==> exists i :: 0 <= i < |items| && items[i].id == id
    ensures forall i, j :: 0 <= i < j < |items| ==> items[i].id < items[j].id
  {
    var ids := ScanIds(db, user, status, 1);
    var items := seq(|ids|, i requires 0 <= i < |ids| => Item(db.tasks[ids[i]]));
    ListedItems(db, user, status, ids, items);
    items
  }

  lemma ListedItems(db: TaskDb, user: string, status: TaskStatus, ids: seq<int>, items: seq<TaskItem>)
    requires Valid(db)
    requires ids == ScanIds(db, user, status, 1)
    requires |items| == |ids| && forall i :: 0 <= i < |ids| ==> items[i] == Item(db.tasks[ids[i]])
    ensures forall i :: 0 <= i < |items| ==>
      Listed(db, user, status, items[i].id) && items[i] == Item(db.tasks[items[i].id])
    ensures forall id :: Listed(db, user, status, id) ==> exists i :: 0 <= i < |items| && items[i].id == id
    ensures forall i, j :: 0 <= i < j < |items| ==> items[i].id < items[j].id
  {
    ScanComplete(db, user, status, 1);
    ScanAscending(db, user, status, 1);
    assert forall i :: 0 <= i < |items| ==> items[i].id == ids[i];
    forall id | Listed(db, user, status, id)
      ensures exists i :: 0 <= i < |items| && items[i].id == id
    {
      assert id in ids;
      var i :| 0 <= i < |ids| && ids[i] == id;
      assert items[i].id == id;
    }
  }

  /** The ids a list returns. */
  function IdsOf(items: seq<TaskItem>): set<int> {
    set i | 0 <= i < |items| :: items[i].id
  }

  /** The ids of a list are exactly the selected ids. */
  lemma ListedIdsExact(db: TaskDb, user: string, status: TaskStatus)
    requires Valid(db)
    ensures IdsOf(ListTasks(db, user, status)) == ListedIds(db, user, status)
  {
    var items := ListTasks(db, user, status);
    forall id | id in ListedIds(db, user, status) ensures id in IdsOf(items) {
      var i :| 0 <= i < |items| && items[i].id == id;
    }
    forall id | id in IdsOf(items) ensures id in ListedIds(db, user, status) {
      var i :| 0 <= i < |items| && items[i].id == id;
      assert Listed(db, user, status, items[i].id);
    }
  }

  /** The pending and the completed lists split the full list: disjoint, and together all of it. */
  lemma PendingCompletedPartition(db: TaskDb, user: string)
    requires Valid(db)
    ensures IdsOf(ListTasks(db, user, Pending)) !! IdsOf(ListTasks(db, user, Completed))
    ensures IdsOf(ListTasks(db, user, Pending)) + IdsOf(ListTasks(db, user, Completed)) == IdsOf(ListTasks(db, user, All))
  {
    ListedIdsExact(db, user, Pending);
    ListedIdsExact(db, user, Completed);
    ListedIdsExact(db, user, All);
    var p, q, a := ListedIds(db, user, Pending), ListedIds(db, user, Completed), ListedIds(db, user, All);
    assert p !! q;
    assert p + q == a;
  }

  // ---------------------------------------------------------------- complete_task

  function CompleteTask(db: TaskDb, user: string, taskId: int, now: int): (s: Step<TaskSummary>)
    ensures !Owns(db, user, taskId) ==> s == Step(db, Err(TaskNotFoundError(taskId)))
    ensures Valid(db) ==> Valid(s.db)
    ensures Owns(db, user, taskId) ==>
      var t := db.tasks[taskId];
      && s.db == TaskDb(db.tasks[taskId := t.(completed := true, updatedAt := Some(now))], db.nextId)
      && s.result == Ok(TaskSummary(taskId, t.title, true))
  {
    if !Owns(db, user, taskId) then Step(db, Err(TaskNotFoundError(taskId)))
    else
      var t := db.tasks[taskId].(completed := true, updatedAt := Some(now));
      Step(TaskDb(db.tasks[taskId := t], db.nextId), Ok(TaskSummary(taskId, t.title, t.completed)))
  }

  /** Completing a task twice succeeds both times, and the second call only moves `updated_at`. */
  lemma CompleteTwice(db: TaskDb, user: string, taskId: int, now1: int, now2: int)
    requires Valid(db) && Owns(db, user, taskId)
    ensures var s1 := CompleteTask(db, user, taskId, now1);
      var s2 := CompleteTask(s1.db, user, taskId, now2);
      && s2.result == s1.result
      && s2.db.tasks == s1.db.tasks[taskId := s1.db.tasks[taskId].(updatedAt := Some(now2))]
  {
  }

  // ---------------------------------------------------------------- update_task

  /** The three checks of `update_task`, in order: something to change, the row, a non-blank title. */
  function UpdateTaskError(db: TaskDb, user: string, taskId: int, title: Option<string>, description: Option<string>)
    : (e: Option<ToolException>)
    ensures title.None? && description.None? ==> e == Some(ValidationError(NothingToUpdate, None))
    ensures (title.Some? || description.Some?) && !Owns(db, user, taskId) ==> e == Some(TaskNotFoundError(taskId))
    ensures Owns(db, user, taskId) && title.Some? && IsBlank(title.value) ==> e == Some(ValidationError(TitleEmpty, Some("title")))
    ensures e.None? <==> (title.Some? || description.Some?) && Owns(db, user, taskId) && (title.None? || !IsBlank(title.value))
  {
    if title.None? && description.None? then Some(ValidationError(NothingToUpdate, None))
    else if !Owns(db, user, taskId) then Some(TaskNotFoundError(taskId))
    else if title.Some? && |Strip(title.value)| == 0 then
      StripEmptyIffBlank(title.value);
      Some(ValidationError(TitleEmpty, Some("title")))
    else
      StripEmptyIffBlank(title.GetOr(""));
      None
  }

  function UpdateTask(db: TaskDb, user: string, taskId: int, title: Option<string>, description: Option<string>, now: int)
    : (s: Step<TaskSummary>)
    ensures s.result.Err? <==> UpdateTaskError(db, user, taskId, title, description).Some?
    ensures s.result.Err? ==> s.db == db && s.result.error == UpdateTaskError(db, user, taskId, title, description).value
    ensures Valid(db) ==> Valid(s.db)
    ensures s.result.Ok? ==> Owns(db, user, taskId)
    ensures s.result.Ok? && Owns(db, user, taskId) ==>
      var t := db.tasks[taskId];
      var t' := t.(title := title.GetOr(t.title), description := if description.Some? then description else t.description,
                   updatedAt := Some(now));
      && s.db == TaskDb(db.tasks[taskId := t'], db.nextId)
      && s.result.value == TaskSummary(taskId, t'.title, t.completed)
  {
    match UpdateTaskError(db, user, taskId, title, description)
    case Some(e) => Step(db, Err(e))
    case None =>
      var t := db.tasks[taskId];
      var t' := t.(title := title.GetOr(t.title), description := if description.Some? then description else t.description,
                   updatedAt := Some(now));
      Step(TaskDb(db.tasks[taskId := t'], db.nextId), Ok(TaskSummary(taskId, t'.title, t'.completed)))
  }

  // ---------------------------------------------------------------- delete_task

  function DeleteTask(db: TaskDb, user: string, taskId: int): (s: Step<DeleteTaskResponse>)
    ensures !Owns(db, user, taskId) ==> s == Step(db, Err(TaskNotFoundError(taskId)))
    ensures Valid(db) ==> Valid(s.db)
    ensures Owns(db, user, taskId) ==>
      && s.db == TaskDb(db.tasks - {taskId}, db.nextId)
      && s.result == Ok(DeleteTaskResponse(taskId, "deleted"))
  {
    if !Owns(db, user, taskId) then Step(db, Err(TaskNotFoundError(taskId)))
    else Step(TaskDb(db.tasks - {taskId}, db.nextId), Ok(DeleteTaskResponse(taskId, "deleted")))
  }

  // ---------------------------------------------------------------- properties across the tools

  /** A call to any tool, with its arguments. */
  datatype ToolRequest =
    | Add(title: string, description: Option<string>)
    | List(status: TaskStatus)
    | Complete(taskId: int)
    | Update(taskId: int, newTitle: Option<string>, newDescription: Option<string>)
    | Delete(taskId: int)

  /** The table after running a tool for `user` at time `now`. */
  function Apply(db: TaskDb, user: string, req: ToolRequest, now: int): TaskDb
    requires Valid(db)
  {
    match req
    case Add(title, description) => AddTask(db, user, title, description, now).db
    case List(_) => db
    case Complete(id) => CompleteTask(db, user, id, now).db
    case Update(id, title, description) => UpdateTask(db, user, id, title, description, now).db
    case Delete(id) => DeleteTask(db, user, id).db
  }

  /** Every tool keeps the table well formed. */
  lemma ApplyKeepsValid(db: TaskDb, user: string, req: ToolRequest, now: int)
    requires Valid(db)
    ensures Valid(Apply(db, user, req, now))
  {
  }

  /** No tool touches another user's rows: they stay, unchanged, and no row of theirs appears. */
  lemma ApplyKeepsOthers(db: TaskDb, user: string, req: ToolRequest, now: int)
    requires Valid(db)
    ensures OthersUnchanged(db, Apply(db, user, req, now), user)
  {
    var db' := Apply(db, user, req, now);
    if req.Add? && db' != db {
      assert db.nextId !in db.tasks;
    }
  }

  /** No tool's answer depends on another user's rows. */
  lemma ResultsIgnoreOthers(a: TaskDb, b: TaskDb, user: string, req: ToolRequest, now: int)
    requires Valid(a) && Valid(b) && a.nextId == b.nextId
    requires forall id :: Owns(a, user, id) <==> Owns(b, user, id)
    requires forall id :: Owns(a, user, id) ==> id in b.tasks && a.tasks[id] == b.tasks[id]
    ensures req.Add? ==> AddTask(a, user, req.title, req.description, now).result == AddTask(b, user, req.title, req.description, now).result
    ensures req.List? ==> ListTasks(a, user, req.status) == ListTasks(b, user, req.status)
    ensures req.Complete? ==> CompleteTask(a, user, req.taskId, now).result == CompleteTask(b, user, req.taskId, now).result
    ensures req.Update? ==>
      UpdateTask(a, user, req.taskId, req.newTitle, req.newDescription, now).result
        == UpdateTask(b, user, req.taskId, req.newTitle, req.newDescription, now).result
    ensures req.Delete? ==> DeleteTask(a, user, req.taskId).result == DeleteTask(b, user, req.taskId).result
  {
    if req.List? {
      var s := req.status;
      assert ScanIds(a, user, s, 1) == ScanIds(b, user, s, 1) by {
        ScanAgrees(a, b, user, s, 1);
      }
    }
  }

  /** Two tables that agree on the caller's rows scan to the same ids. */
  lemma {:induction false} ScanAgrees(a: TaskDb, b: TaskDb, user: string, s: TaskStatus, lo: int)
    requires a.nextId == b.nextId
    requires forall id :: Owns(a, user, id) <==> Owns(b, user, id)
    requires forall id :: Owns(a, user, id) ==> id in b.tasks && a.tasks[id] == b.tasks[id]
    ensures ScanIds(a, user, s, lo) == ScanIds(b, user, s, lo)
    decreases a.nextId - lo
  {
    if lo < a.nextId {
      assert Listed(a, user, s, lo) == Listed(b, user, s, lo);
      ScanAgrees(a, b, user, s, lo + 1);
    }
  }

  /** After a successful add the new id is listed; after deleting it, it no longer is. */
  lemma AddThenDelete(db: TaskDb, user: string, title: string, description: Option<string>, now: int)
    requires Valid(db) && !IsBlank(title) && (description.None? || |description.value| <= MaxDescription)
    ensures var s := AddTask(db, user, title, description, now);
      && s.result.Ok?
      && s.result.value.taskId in IdsOf(ListTasks(s.db, user, All))
      && s.result.value.taskId !in IdsOf(ListTasks(DeleteTask(s.db, user, s.result.value.taskId).db, user, All))
  {
    var s := AddTask(db, user, title, description, now);
    var id := s.result.value.taskId;
    ListedIdsExact(s.db, user, All);
    ListedIdsExact(DeleteTask(s.db, user, id).db, user, All);
  }

  /** A description of exactly the limit is accepted; one character more is refused. */
  lemma DescriptionLimit(title: string, d: string)
    requires !IsBlank(title) && |d| == MaxDescription
    ensures AddTaskError(title, Some(d)).None?
    ensures AddTaskError(title, Some(d + "x")) == Some(ValidationError(DescriptionTooLong, Some("description")))
  {
  }

  /** The update path has no length check: a description over the limit is stored as given. */
  lemma UpdateSkipsLengthCheck(db: TaskDb, user: string, taskId: int, d: string, now: int)
    requires Owns(db, user, taskId) && |d| > MaxDescription
    ensures var s := UpdateTask(db, user, taskId, None, Some(d), now);
      s.result.Ok? && s.db.tasks[taskId].description == Some(d)
  {
  }
}
