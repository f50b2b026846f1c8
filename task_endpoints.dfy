/**
 * The task endpoints: query-parameter bounds and defaults of the listing,
 * the page count, the response-model check, the not-found mapping and the
 * status-only update. All changes to the table go through `TaskStore`.
 */
module TaskEndpoints {
  import opened Wrappers
  import opened Http
  import opened Text
  import opened TaskModel
  import opened Requests
  import opened TaskSchemas
  import opened TaskService

  const NotFoundDetail := "Task not found"
  const DefaultPage := 1
  const DefaultSize := 20
  const MaxSize := 100
  const DefaultSortBy := "created_at"
  const DefaultSortOrder := "desc"

  /** Stands for the text of the database driver's NOT NULL violation, which is not modelled. */
  const NotNullViolation := "NOT NULL constraint failed"

  /** Stands for the text of pydantic's validation error, which is not modelled. */
  const ResponseValidationMessage := "validation error for TaskResponse"

  /** A rejected request body or query parameter. */
  function Rejected(e: ValidationError): (r: HttpError)
    ensures r.status == UnprocessableEntity
  {
    HttpError(UnprocessableEntity, e.field + ": " + e.reason)
  }

  // ---------------------------------------------------------------------------
  // The listing
  // ---------------------------------------------------------------------------

  /** `(total + size - 1) // size`: the least page count that holds `total` rows. */
  function Pages(total: nat, size: int): (r: nat)
    requires size >= 1
    ensures r * size >= total
    ensures total > 0 ==> (r - 1) * size < total
    ensures r == 0 <==> total == 0
  {
    (total + size - 1) / size
  }

  /** The query string of `GET /tasks/`; an absent parameter is `None`. */
  datatype ListRequest = ListRequest(
    status: Option<string>,
    priority: Option<string>,
    isArchived: Option<bool>,
    search: Option<string>,
    page: Option<int>,
    size: Option<int>,
    sortBy: Option<string>,
    sortOrder: Option<string>)

  function OrDefault<T>(v: Option<T>, d: T): T {
    if v.Some? then v.value else d
  }

  /** `page >= 1` and `1 <= size <= 100` after the defaults are filled in. */
  predicate ListBoundsHold(req: ListRequest) {
    OrDefault(req.page, DefaultPage) >= 1 && 1 <= OrDefault(req.size, DefaultSize) <= MaxSize
  }

  /** FastAPI's reading of the query string, with the declared defaults. */
  function ParseListRequest(req: ListRequest): (r: Result<TaskQuery, HttpError>)
    ensures r.Success? <==> ListBoundsHold(req) && (req.status.Some? ==> StatusFromValue(req.status.value).Some?)
    ensures r.Failure? ==> r.error.status == UnprocessableEntity
    ensures r.Success? ==> r.value.page >= 1 && 1 <= r.value.size <= MaxSize
    ensures r.Success? ==> r.value.page == OrDefault(req.page, DefaultPage) && r.value.size == OrDefault(req.size, DefaultSize)
    ensures r.Success? ==> r.value.isArchived == Some(OrDefault(req.isArchived, false))
    ensures r.Success? ==> r.value.sortBy == OrDefault(req.sortBy, DefaultSortBy) && r.value.sortOrder == OrDefault(req.sortOrder, DefaultSortOrder)
    ensures r.Success? ==> r.value.priority == req.priority && r.value.search == req.search
    ensures r.Success? ==> (req.status.None? <==> r.value.status.None?)
    ensures r.Success? && req.status.Some? ==> req.status == Some(StatusValue(r.value.status.value))
  {
    var page := OrDefault(req.page, DefaultPage);
    var size := OrDefault(req.size, DefaultSize);
    if page < 1 then Failure(Rejected(ValidationError("page", "must be greater than or equal to 1")))
    else if size < 1 then Failure(Rejected(ValidationError("size", "must be greater than or equal to 1")))
    else if size > MaxSize then Failure(Rejected(ValidationError("size", "must be less than or equal to 100")))
    else
      var status := if req.status.Some? then StatusFromValue(req.status.value) else None;
      if req.status.Some? && status.None? then Failure(Rejected(ValidationError("status", "not a valid enumeration member")))
      else
        Success(TaskQuery(status, req.priority, Some(OrDefault(req.isArchived, false)), req.search,
                          page, size, OrDefault(req.sortBy, DefaultSortBy), OrDefault(req.sortOrder, DefaultSortOrder)))
  }

  /** `TaskResponse.model_validate`: the response model inherits the title bounds and wants a priority and a flag. */
  predicate ValidResponse(t: Task) {
    TitleFits(t.title) && t.priority.Some? && t.isArchived.Some?
  }

  predicate AllValidResponses(s: seq<Task>) {
    forall t :: t in s ==> ValidResponse(t)
  }

  /** The body of a successful `GET /tasks/`. */
  datatype TaskListResponse = TaskListResponse(tasks: seq<Task>, total: nat, page: int, size: int, pages: nat)

  /**
   * `GET /tasks/`: bad parameters give 422; a row the response model
   * rejects gives an unhandled 500 (the handler's own `except` refers to
   * `status`, which the query parameter of that name shadows); otherwise the
   * page with the requested page, size, total and page count.
   */
  function ListTasks(tasks: seq<Task>, owner: int, req: ListRequest): (r: Result<TaskListResponse, HttpError>)
    ensures ParseListRequest(req).Failure? ==> r == Failure(ParseListRequest(req).error)
    ensures ParseListRequest(req).Success? ==>
      var q := ParseListRequest(req).value;
      var result := GetTasks(tasks, owner, q);
      && (r.Success? <==> AllValidResponses(result.items))
      && (r.Failure? ==> r.error == HttpError(InternalServerError, UnhandledDetail))
      && (r.Success? ==> r.value == TaskListResponse(result.items, result.total, q.page, q.size, Pages(result.total, q.size)))
  {
    match ParseListRequest(req)
    case Failure(e) => Failure(e)
    case Success(q) =>
      var result := GetTasks(tasks, owner, q);
      if AllValidResponses(result.items) then
        Success(TaskListResponse(result.items, result.total, q.page, q.size, Pages(result.total, q.size)))
      else
        Failure(HttpError(InternalServerError, UnhandledDetail))
  }

  /** With no parameters the listing hides archived rows and any row with a NULL flag. */
  lemma DefaultListingHidesArchived(tasks: seq<Task>, owner: int)
    ensures var r := ListTasks(tasks, owner, ListRequest(None, None, None, None, None, None, None, None));
      r.Success? ==> forall t :: t in r.value.tasks ==> t.isArchived == Some(false) && t.userId == owner
  {
    var q := ParseListRequest(ListRequest(None, None, None, None, None, None, None, None)).value;
    GetTasksPage(tasks, owner, q);
  }

  /** Pages 1 to `n`, one after another. */
  function FirstPages<T>(s: seq<T>, size: int, n: nat): seq<T>
    requires size >= 1
  {
    if n == 0 then [] else FirstPages(s, size, n - 1) + PageOf(s, size, n)
  }

  /** The first `n` pages are the first `n * size` rows, or all of them. */
  lemma {:induction false} FirstPagesPrefix<T>(s: seq<T>, size: int, n: nat)
    requires size >= 1
    ensures FirstPages(s, size, n) == s[..Min(PageStart(n + 1, size), |s|)]
  {
    if n > 0 {
      FirstPagesPrefix(s, size, n - 1);
      var m := PageStart(n, size);
      assert PageStart(n + 1, size) == m + size;
      SliceStep(s, m, size);
    }
  }

  /** The rows before `offset` followed by the slice from `offset` are the rows before its end. */
  lemma SliceStep<T>(s: seq<T>, offset: nat, limit: nat)
    ensures s[..Min(offset, |s|)] + PageSlice(s, offset, limit) == s[..Min(offset + limit, |s|)]
  {
    var lo, hi := Min(offset, |s|), Min(offset + limit, |s|);
    assert PageSlice(s, offset, limit) == s[lo..hi];
    assert s[..lo] + s[lo..hi] == s[..hi];
  }

  /** Pages 1 to `pages` hold every row exactly once, in order. */
  lemma PagesCoverListing<T>(s: seq<T>, size: int)
    requires size >= 1
    ensures FirstPages(s, size, Pages(|s|, size)) == s
  {
    var n := Pages(|s|, size);
    FirstPagesPrefix(s, size, n);
    PageStartProduct(n + 1, size);
  }

  /** A page past the last is empty. */
  lemma PastLastPageEmpty<T>(s: seq<T>, size: int, p: int)
    requires size >= 1 && p > Pages(|s|, size)
    ensures PageOf(s, size, p) == []
  {
    var n := Pages(|s|, size);
    PageStartProduct(p, size);
    assert (p - 1) * size >= n * size by {
      assert p - 1 >= n;
      MulMonotone(n, p - 1, size);
    }
  }

  lemma MulMonotone(a: int, b: int, c: int)
    requires 0 <= a <= b && c >= 0
    ensures a * c <= b * c
  {
  }

  // ---------------------------------------------------------------------------
  // Single-task endpoints
  // ---------------------------------------------------------------------------

  /** The response-model check on one row; its failure escapes the handler. */
  function Respond(t: Task): (r: Result<Task, HttpError>)
    ensures r.Success? <==> ValidResponse(t)
    ensures r.Success? ==> r.value == t
    ensures r.Failure? ==> r.error == HttpError(InternalServerError, UnhandledDetail)
  {
    if ValidResponse(t) then Success(t) else Failure(HttpError(InternalServerError, UnhandledDetail))
  }

  /** `GET /tasks/{task_id}`: a missing or foreign task is 404. */
  function GetTaskEndpoint(tasks: seq<Task>, owner: int, taskId: int): (r: Result<Task, HttpError>)
    ensures GetTask(tasks, taskId, owner).None? <==> r == Failure(HttpError(NotFound, NotFoundDetail))
    ensures r.Success? ==> GetTask(tasks, taskId, owner) == Some(r.value) && ValidResponse(r.value)
    ensures GetTask(tasks, taskId, owner).Some? ==> r == Respond(GetTask(tasks, taskId, owner).value)
  {
    match GetTask(tasks, taskId, owner)
    case None => Failure(HttpError(NotFound, NotFoundDetail))
    case Some(t) => Respond(t)
  }

  /** `TaskUpdate(status=s)`: a patch whose only sent field is the status. */
  function StatusOnlyUpdate(s: TaskStatus): (u: TaskUpdate)
    ensures ValidTaskUpdate(u) && !NullsRequiredColumn(u)
    ensures UpdateData(u) == [AssignStatus(Some(s))]
  {
    TaskUpdate(Unset, Unset, Set(Some(s)), Unset, Unset, Unset)
  }

  /** A status-only patch changes the status and nothing else. */
  lemma StatusOnlyUpdateChangesOnlyStatus(t: Task, s: TaskStatus)
    ensures PatchedTask(t, StatusOnlyUpdate(s)) == t.(status := s)
  {
  }

  /** `PUT /tasks/{task_id}`. */
  method UpdateTaskEndpoint(store: TaskStore, taskId: int, userId: int, body: TaskUpdateBody, now: int)
    returns (r: Result<Task, HttpError>)
    requires store.Valid()
    modifies store
    ensures store.Valid() && store.nextId == old(store.nextId)
    ensures ParseTaskUpdate(body).Failure? ==>
      r == Failure(Rejected(ParseTaskUpdate(body).error)) && store.tasks == old(store.tasks)
    ensures ParseTaskUpdate(body).Success? && FindIndex(old(store.tasks), taskId, userId).None? ==>
      r == Failure(HttpError(NotFound, NotFoundDetail)) && store.tasks == old(store.tasks)
    ensures ParseTaskUpdate(body).Success? && FindIndex(old(store.tasks), taskId, userId).Some?
            && NullsRequiredColumn(ParseTaskUpdate(body).value) ==>
      r == Failure(HttpError(InternalServerError, UnhandledDetail)) && store.tasks == old(store.tasks)
    ensures ParseTaskUpdate(body).Success? && FindIndex(old(store.tasks), taskId, userId).Some?
            && !NullsRequiredColumn(ParseTaskUpdate(body).value) ==>
      var i := FindIndex(old(store.tasks), taskId, userId).value;
      var t := Touched(old(store.tasks)[i], PatchedTask(old(store.tasks)[i], ParseTaskUpdate(body).value), now);
      store.tasks == old(store.tasks)[i := t] && r == Respond(t)
  {
    var parsed := ParseTaskUpdate(body);
    if parsed.Failure? {
      return Failure(Rejected(parsed.error));
    }
    var out := store.UpdateTask(taskId, userId, parsed.value, now);
    match out
    case NoSuchTask => r := Failure(HttpError(NotFound, NotFoundDetail));
    case CommitFailed => r := Failure(HttpError(InternalServerError, UnhandledDetail));
    case Updated(t) => r := Respond(t);
  }

  /** `PATCH /tasks/{task_id}/status`: the status-only patch through `update_task`. */
  method UpdateTaskStatusEndpoint(store: TaskStore, taskId: int, userId: int, body: TaskStatusBody, now: int)
    returns (r: Result<Task, HttpError>)
    requires store.Valid()
    modifies store
    ensures store.Valid() && store.nextId == old(store.nextId)
    ensures ParseTaskStatusUpdate(body).Failure? ==>
      r == Failure(Rejected(ParseTaskStatusUpdate(body).error)) && store.tasks == old(store.tasks)
    ensures ParseTaskStatusUpdate(body).Success? && FindIndex(old(store.tasks), taskId, userId).None? ==>
      r == Failure(HttpError(NotFound, NotFoundDetail)) && store.tasks == old(store.tasks)
    ensures ParseTaskStatusUpdate(body).Success? && FindIndex(old(store.tasks), taskId, userId).Some? ==>
      var i := FindIndex(old(store.tasks), taskId, userId).value;
      var t := Touched(old(store.tasks)[i], old(store.tasks)[i].(status := ParseTaskStatusUpdate(body).value.status), now);
      store.tasks == old(store.tasks)[i := t] && r == Respond(t)
  {
    var parsed := ParseTaskStatusUpdate(body);
    if parsed.Failure? {
      return Failure(Rejected(parsed.error));
    }
    var u := StatusOnlyUpdate(parsed.value.status);
    ghost var found := FindIndex(store.tasks, taskId, userId);
    if found.Some? {
      StatusOnlyUpdateChangesOnlyStatus(store.tasks[found.value], parsed.value.status);
    }
    var out := store.UpdateTask(taskId, userId, u, now);
    match out
    case NoSuchTask => r := Failure(HttpError(NotFound, NotFoundDetail));
    case CommitFailed => r := Failure(HttpError(InternalServerError, UnhandledDetail));
    case Updated(t) => r := Respond(t);
  }

  /** `DELETE /tasks/{task_id}`: 204 when the caller's task was removed, 404 otherwise. */
  method DeleteTaskEndpoint(store: TaskStore, taskId: int, userId: int) returns (r: Result<int, HttpError>)
    requires store.Valid()
    modifies store
    ensures store.Valid() && store.nextId == old(store.nextId)
    ensures r.Success? <==> FindIndex(old(store.tasks), taskId, userId).Some?
    ensures r.Success? ==> r.value == NoContent
    ensures r.Failure? ==> r.error == HttpError(NotFound, NotFoundDetail) && store.tasks == old(store.tasks)
    ensures r.Success? ==>
      var i := FindIndex(old(store.tasks), taskId, userId).value;
      store.tasks == old(store.tasks)[..i] + old(store.tasks)[i + 1..]
    ensures GetTask(store.tasks, taskId, userId) == None
  {
    var deleted := store.DeleteTask(taskId, userId);
    if deleted {
      r := Success(NoContent);
    } else {
      r := Failure(HttpError(NotFound, NotFoundDetail));
    }
  }

  /** Deleting twice: the second request is 404 and changes nothing. */
  method DeleteTwice(store: TaskStore, taskId: int, userId: int) returns (first: Result<int, HttpError>, second: Result<int, HttpError>)
    requires store.Valid()
    modifies store
    ensures second == Failure(HttpError(NotFound, NotFoundDetail))
  {
    first := DeleteTaskEndpoint(store, taskId, userId);
    second := DeleteTaskEndpoint(store, taskId, userId);
  }

  /** `POST /tasks/`: 422 for a rejected body, otherwise 201 with the new row. */
  method CreateTaskEndpoint(store: TaskStore, body: TaskCreateBody, userId: int, now: int) returns (r: Result<Task, HttpError>)
    requires store.Valid()
    modifies store
    ensures store.Valid()
    ensures ParseTaskCreate(body).Failure? ==>
      r == Failure(Rejected(ParseTaskCreate(body).error)) && store.tasks == old(store.tasks)
    ensures ParseTaskCreate(body).Success? ==>
      var data := ParseTaskCreate(body).value;
      var t := Task(old(store.nextId), data.title, data.description, data.status, data.dueDate,
                    now, None, userId, Some(data.priority), Some(DefaultIsArchived));
      r == Success(t) && store.tasks == old(store.tasks) + [t]
  {
    var parsed := ParseTaskCreate(body);
    if parsed.Failure? {
      return Failure(Rejected(parsed.error));
    }
    var t := store.CreateTask(parsed.value, userId, now);
    r := Respond(t);
  }

  /** `POST /tasks/bulk-update`: the count in a message, or 500 when the commit fails. */
  method BulkUpdateEndpoint(store: TaskStore, body: TaskBulkBody, userId: int, now: int) returns (r: Result<string, HttpError>)
    requires store.Valid()
    modifies store
    ensures store.Valid()
    ensures ParseTaskBulkUpdate(body).Failure? ==>
      r == Failure(Rejected(ParseTaskBulkUpdate(body).error)) && store.tasks == old(store.tasks)
    ensures ParseTaskBulkUpdate(body).Success? ==>
      var b := ParseTaskBulkUpdate(body).value;
      var n := |BulkMatched(old(store.tasks), b, userId)|;
      if !BulkSetsSomething(b) then
        r == Success(BulkMessage(0)) && store.tasks == old(store.tasks)
      else if b.status == Set(None) && n > 0 then
        r == Failure(HttpError(InternalServerError, "Failed to bulk update tasks: " + NotNullViolation))
        && store.tasks == old(store.tasks)
      else
        r == Success(BulkMessage(n)) && store.tasks == BulkApplied(old(store.tasks), b, userId, now)
  {
    var parsed := ParseTaskBulkUpdate(body);
    if parsed.Failure? {
      return Failure(Rejected(parsed.error));
    }
    var out := store.BulkUpdate(parsed.value, userId, now);
    match out
    case BulkCommitFailed =>
      r := Failure(HttpError(InternalServerError, "Failed to bulk update tasks: " + NotNullViolation));
    case BulkUpdated(n) =>
      r := Success(BulkMessage(n));
  }

  /** `f"Successfully updated {updated_count} tasks"`. */
  function BulkMessage(n: nat): (m: string)
    ensures m == "Successfully updated " + IntToString(n) + " tasks"
  {
    "Successfully updated " + IntToString(n) + " tasks"
  }

  /** Different counts give different messages, so the message reports the count. */
  lemma BulkMessageInjective(a: nat, b: nat)
    requires BulkMessage(a) == BulkMessage(b)
    ensures a == b
  {
    var prefix := "Successfully updated ";
    var suffix := " tasks";
    assert BulkMessage(a)[|prefix|..|BulkMessage(a)| - |suffix|] == IntToString(a);
    assert BulkMessage(b)[|prefix|..|BulkMessage(b)| - |suffix|] == IntToString(b);
    IntToStringInjective(a, b);
  }

  // ---------------------------------------------------------------------------
  // Fixed-filter endpoints
  // ---------------------------------------------------------------------------

  /** `GET /tasks/status/{status}`: an unknown status is 422; a rejected row is an unhandled 500. */
  function TasksByStatusEndpoint(tasks: seq<Task>, owner: int, status: string): (r: Result<seq<Task>, HttpError>)
    ensures StatusFromValue(status).None? ==> r.Failure? && r.error.status == UnprocessableEntity
    ensures StatusFromValue(status).Some? ==>
      var s := TasksByStatus(tasks, owner, StatusFromValue(status).value);
      if AllValidResponses(s) then r == Success(s) else r == Failure(HttpError(InternalServerError, UnhandledDetail))
  {
    match StatusFromValue(status)
    case None => Failure(Rejected(ValidationError("status", "not a valid enumeration member")))
    case Some(st) =>
      var s := TasksByStatus(tasks, owner, st);
      if AllValidResponses(s) then Success(s) else Failure(HttpError(InternalServerError, UnhandledDetail))
  }

  /** `GET /tasks/overdue`: a rejected row is caught and reported as 500. */
  function OverdueEndpoint(tasks: seq<Task>, owner: int, now: int): (r: Result<seq<Task>, HttpError>)
    ensures AllValidResponses(OverdueTasks(tasks, owner, now)) ==> r == Success(OverdueTasks(tasks, owner, now))
    ensures !AllValidResponses(OverdueTasks(tasks, owner, now)) ==>
      r == Failure(HttpError(InternalServerError, "Failed to retrieve overdue tasks: " + ResponseValidationMessage))
  {
    var s := OverdueTasks(tasks, owner, now);
    if AllValidResponses(s) then Success(s)
    else Failure(HttpError(InternalServerError, "Failed to retrieve overdue tasks: " + ResponseValidationMessage))
  }

  /** `GET /tasks/due-today` as written: always the caught `AttributeError`, as 500. */
  function DueTodayEndpointAsWritten(tasks: seq<Task>, owner: int, now: int): (r: Result<seq<Task>, HttpError>)
    ensures r == Failure(HttpError(InternalServerError, "Failed to retrieve tasks due today: " + SessionHasNoDate))
  {
    match TasksDueTodayAsWritten(tasks, owner, now)
    case Failure(e) => Failure(HttpError(InternalServerError, "Failed to retrieve tasks due today: " + e))
    case Success(s) => Success(s)
  }

  /** `GET /tasks/due-today` with the date cast the query intends. */
  function DueTodayEndpoint(tasks: seq<Task>, owner: int, now: int): (r: Result<seq<Task>, HttpError>)
    ensures AllValidResponses(TasksDueToday(tasks, owner, now)) ==> r == Success(TasksDueToday(tasks, owner, now))
    ensures !AllValidResponses(TasksDueToday(tasks, owner, now)) ==>
      r == Failure(HttpError(InternalServerError, "Failed to retrieve tasks due today: " + ResponseValidationMessage))
  {
    var s := TasksDueToday(tasks, owner, now);
    if AllValidResponses(s) then Success(s)
    else Failure(HttpError(InternalServerError, "Failed to retrieve tasks due today: " + ResponseValidationMessage))
  }
}
