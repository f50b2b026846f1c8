/**
 * The `tasks` table: the task status enumeration, the column constants and
 * the row record with the same nullability as the columns.
 *
 * Timestamps are whole seconds since the epoch (UTC); the store's date-time
 * columns are modelled by them.
 */
module TaskModel {
  import opened Wrappers

  /** The closed set of task states. */
  datatype TaskStatus = Todo | InProgress | Completed | Cancelled

  /** The value of each member, the string the API reads and writes. */
  function StatusValue(s: TaskStatus): string {
    match s
    case Todo => "todo"
    case InProgress => "in_progress"
    case Completed => "completed"
    case Cancelled => "cancelled"
  }

  /** The name of each member, the string SQLAlchemy stores in the `status` column. */
  function StatusName(s: TaskStatus): string {
    match s
    case Todo => "TODO"
    case InProgress => "IN_PROGRESS"
    case Completed => "COMPLETED"
    case Cancelled => "CANCELLED"
  }

  /** Look a member up by its value, as `TaskStatus(v)` does. */
  function StatusFromValue(v: string): (r: Option<TaskStatus>)
    ensures r.Some? <==> v in {"todo", "in_progress", "completed", "cancelled"}
    ensures r.Some? ==> StatusValue(r.value) == v
  {
    if v == "todo" then Some(Todo)
    else if v == "in_progress" then Some(InProgress)
    else if v == "completed" then Some(Completed)
    else if v == "cancelled" then Some(Cancelled)
    else None
  }

  /** Every member is found again from its value, so the values are distinct. */
  lemma StatusValueRoundTrip(s: TaskStatus)
    ensures StatusFromValue(StatusValue(s)) == Some(s)
  {
  }

  const TitleMaxLength := 200
  const PriorityMaxLength := 20
  const DefaultPriority := "medium"
  const DefaultStatus := Todo
  const DefaultIsArchived := false

  /**
   * One row of `tasks`. `title`, `status` and `user_id` are NOT NULL;
   * `description`, `due_date`, `updated_at`, `priority` and `is_archived` are
   * nullable. `created_at` is filled by the store on insert.
   */
  datatype Task = Task(
    id: int,
    title: string,
    description: Option<string>,
    status: TaskStatus,
    dueDate: Option<int>,
    createdAt: int,
    updatedAt: Option<int>,
    userId: int,
    priority: Option<string>,
    isArchived: Option<bool>)

  /** The bounds the `title` column and the request schemas keep on every stored row. */
  predicate TitleFits(title: string) {
    1 <= |title| <= TitleMaxLength
  }
}
