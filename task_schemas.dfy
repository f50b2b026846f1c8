/**
 * The request schemas for tasks: which fields a request may carry, their
 * bounds and their defaults. A request body is modelled field by field as
 * left out, sent as null, or sent with a value; the validated schema objects
 * keep that distinction where the service later asks which fields were set.
 */
module TaskSchemas {
  import opened Wrappers
  import opened Requests
  import opened TaskModel

  /** A validated `TaskCreate`: every field present, defaults filled in. */
  datatype TaskCreate = TaskCreate(
    title: string,
    description: Option<string>,
    status: TaskStatus,
    dueDate: Option<int>,
    priority: string)

  /** A validated `TaskUpdate`: every field optional and nullable, and whether it was sent is kept. */
  datatype TaskUpdate = TaskUpdate(
    title: Patch<string>,
    description: Patch<string>,
    status: Patch<TaskStatus>,
    dueDate: Patch<int>,
    priority: Patch<string>,
    isArchived: Patch<bool>)

  /** A validated `TaskStatusUpdate`: the status is required. */
  datatype TaskStatusUpdate = TaskStatusUpdate(status: TaskStatus)

  /** A validated `TaskBulkUpdate`: the ids plus the only two fields a bulk update may set. */
  datatype TaskBulkUpdate = TaskBulkUpdate(
    taskIds: seq<int>,
    status: Patch<TaskStatus>,
    isArchived: Patch<bool>)

  /** Raw request bodies; `status` still a string. Unknown fields are ignored and not modelled. */
  datatype TaskCreateBody = TaskCreateBody(
    title: Patch<string>,
    description: Patch<string>,
    status: Patch<string>,
    dueDate: Patch<int>,
    priority: Patch<string>)

  datatype TaskUpdateBody = TaskUpdateBody(
    title: Patch<string>,
    description: Patch<string>,
    status: Patch<string>,
    dueDate: Patch<int>,
    priority: Patch<string>,
    isArchived: Patch<bool>)

  datatype TaskStatusBody = TaskStatusBody(status: Patch<string>)

  datatype TaskBulkBody = TaskBulkBody(
    taskIds: Patch<seq<int>>,
    status: Patch<string>,
    isArchived: Patch<bool>)

  /** What a validated `TaskCreate` guarantees. */
  predicate ValidTaskCreate(c: TaskCreate) {
    TitleFits(c.title)
  }

  /** What a validated `TaskUpdate` guarantees: a title, when one is sent, has 1..200 characters. */
  predicate ValidTaskUpdate(u: TaskUpdate) {
    u.title.Set? && u.title.value.Some? ==> TitleFits(u.title.value.value)
  }

  /** What a validated `TaskBulkUpdate` guarantees: at least one id. */
  predicate ValidBulkUpdate(b: TaskBulkUpdate) {
    |b.taskIds| >= 1
  }

  /** A sent status string names a member of the enumeration. */
  predicate StatusValueAccepted(p: Patch<string>) {
    p.Set? && p.value.Some? ==> StatusFromValue(p.value.value).Some?
  }

  /** Validate an optional, nullable status field; a valid value is kept with its set-ness. */
  function ParseStatusPatch(p: Patch<string>, field: string): (r: Result<Patch<TaskStatus>, ValidationError>)
    ensures r.Success? <==> StatusValueAccepted(p)
    ensures r.Success? ==> (r.value.Unset? <==> p.Unset?) && (r.value == Set(None) <==> p == Set(None))
    ensures r.Success? && r.value.Set? && r.value.value.Some? ==> p == Set(Some(StatusValue(r.value.value.value)))
  {
    match p
    case Unset => Success(Unset)
    case Set(None) => Success(Set(None))
    case Set(Some(v)) =>
      match StatusFromValue(v)
      case Some(s) => Success(Set(Some(s)))
      case None => Failure(ValidationError(field, "not a valid enumeration member"))
  }

  /** Pydantic's reading of a `TaskCreate` body, with the schema defaults. */
  function ParseTaskCreate(b: TaskCreateBody): (r: Result<TaskCreate, ValidationError>)
    ensures r.Success? <==>
      && b.title.Set? && b.title.value.Some? && TitleFits(b.title.value.value)
      && b.status != Set(None) && StatusValueAccepted(b.status)
      && b.priority != Set(None)
    ensures r.Success? ==> ValidTaskCreate(r.value) && Set(Some(r.value.title)) == b.title
    ensures r.Success? ==> (b.status.Unset? ==> r.value.status == DefaultStatus)
    ensures r.Success? ==> (b.status.Set? ==> b.status == Set(Some(StatusValue(r.value.status))))
    ensures r.Success? ==> r.value.priority == (if b.priority.Unset? then DefaultPriority else b.priority.value.value)
    ensures r.Success? ==> r.value.description == (if b.description.Unset? then None else b.description.value)
    ensures r.Success? ==> r.value.dueDate == (if b.dueDate.Unset? then None else b.dueDate.value)
  {
    if b.title.Unset? then Failure(ValidationError("title", "field required"))
    else if b.title.value.None? then Failure(ValidationError("title", "none is not an allowed value"))
    else if |b.title.value.value| < 1 then Failure(ValidationError("title", "at least 1 character"))
    else if |b.title.value.value| > TitleMaxLength then Failure(ValidationError("title", "at most 200 characters"))
    else if b.status == Set(None) then Failure(ValidationError("status", "none is not an allowed value"))
    else if b.priority == Set(None) then Failure(ValidationError("priority", "none is not an allowed value"))
    else
      match ParseStatusPatch(b.status, "status")
      case Failure(e) => Failure(e)
      case Success(st) =>
        Success(TaskCreate(
          b.title.value.value,
          if b.description.Unset? then None else b.description.value,
          if st.Unset? then DefaultStatus else st.value.value,
          if b.dueDate.Unset? then None else b.dueDate.value,
          if b.priority.Unset? then DefaultPriority else b.priority.value.value))
  }

  /** Pydantic's reading of a `TaskUpdate` body: nothing is required and what was sent is remembered. */
  function ParseTaskUpdate(b: TaskUpdateBody): (r: Result<TaskUpdate, ValidationError>)
    ensures r.Success? <==>
      && (b.title.Set? && b.title.value.Some? ==> TitleFits(b.title.value.value))
      && StatusValueAccepted(b.status)
    ensures r.Success? ==> ValidTaskUpdate(r.value)
    ensures r.Success? ==>
      && r.value.title == b.title && r.value.description == b.description
      && r.value.dueDate == b.dueDate && r.value.priority == b.priority
      && r.value.isArchived == b.isArchived
      && (r.value.status.Unset? <==> b.status.Unset?)
      && (r.value.status == Set(None) <==> b.status == Set(None))
    ensures r.Success? ==> r.value.status == ParseStatusPatch(b.status, "status").value
  {
    if b.title.Set? && b.title.value.Some? && !TitleFits(b.title.value.value) then
      Failure(ValidationError("title", "length must be within 1..200"))
    else
      match ParseStatusPatch(b.status, "status")
      case Failure(e) => Failure(e)
      case Success(st) =>
        Success(TaskUpdate(b.title, b.description, st, b.dueDate, b.priority, b.isArchived))
  }

  /** Pydantic's reading of a `TaskStatusUpdate` body: a status value is required. */
  function ParseTaskStatusUpdate(b: TaskStatusBody): (r: Result<TaskStatusUpdate, ValidationError>)
    ensures r.Success? <==> b.status.Set? && b.status.value.Some? && StatusFromValue(b.status.value.value).Some?
    ensures r.Success? ==> b.status == Set(Some(StatusValue(r.value.status)))
  {
    match b.status
    case Unset => Failure(ValidationError("status", "field required"))
    case Set(None) => Failure(ValidationError("status", "none is not an allowed value"))
    case Set(Some(v)) =>
      match StatusFromValue(v)
      case Some(s) => Success(TaskStatusUpdate(s))
      case None => Failure(ValidationError("status", "not a valid enumeration member"))
  }

  /** Pydantic's reading of a `TaskBulkUpdate` body: at least one id is required. */
  function ParseTaskBulkUpdate(b: TaskBulkBody): (r: Result<TaskBulkUpdate, ValidationError>)
    ensures r.Success? <==> b.taskIds.Set? && b.taskIds.value.Some? && |b.taskIds.value.value| >= 1 && StatusValueAccepted(b.status)
    ensures r.Success? ==> ValidBulkUpdate(r.value) && Set(Some(r.value.taskIds)) == b.taskIds
    ensures r.Success? ==> r.value.isArchived == b.isArchived && (r.value.status.Unset? <==> b.status.Unset?)
    ensures r.Success? ==> r.value.status == ParseStatusPatch(b.status, "status").value
  {
    match b.taskIds
    case Unset => Failure(ValidationError("task_ids", "field required"))
    case Set(None) => Failure(ValidationError("task_ids", "none is not an allowed value"))
    case Set(Some(ids)) =>
      if |ids| < 1 then Failure(ValidationError("task_ids", "at least 1 item"))
      else
        match ParseStatusPatch(b.status, "status")
        case Failure(e) => Failure(e)
        case Success(st) => Success(TaskBulkUpdate(ids, st, b.isArchived))
  }
}
