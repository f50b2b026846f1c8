/**
 * The task service: owner-scoped lookup, the filtered, sorted and paged
 * listing, the three fixed-filter projections, and the store of task rows
 * with its create, patch, delete and bulk-update operations.
 *
 * A query over the table is a function of the rows in store order; a
 * change to the table is a method of `TaskStore`.
 */
module TaskService {
  import opened Wrappers
  import opened Text
  import opened Seqs
  import opened TaskModel
  import opened Requests
  import opened TaskSchemas
  import opened TaskOrdering

  // ---------------------------------------------------------------------------
  // Lookup by (id, owner)
  // ---------------------------------------------------------------------------

  /** `Task.id == task_id AND Task.user_id == user_id`. */
  predicate IsTarget(t: Task, id: int, owner: int) {
    t.id == id && t.userId == owner
  }

  /** Ids are a primary key. */
  predicate UniqueIds(s: seq<Task>) {
    forall i, j :: 0 <= i < j < |s| ==> s[i].id != s[j].id
  }

  /** Removing the row at `i` keeps the ids unique and bounded and leaves no row with its id. */
  lemma RemoveAt(s: seq<Task>, i: int, nextId: int)
    requires 0 <= i < |s| && UniqueIds(s)
    requires forall k :: 0 <= k < |s| ==> 1 <= s[k].id < nextId && TitleFits(s[k].title)
    ensures var r := s[..i] + s[i + 1..];
      && UniqueIds(r)
      && (forall k :: 0 <= k < |r| ==> 1 <= r[k].id < nextId && TitleFits(r[k].title))
      && (forall t :: t in r ==> t.id != s[i].id)
  {
    var r := s[..i] + s[i + 1..];
    assert forall k :: 0 <= k < |r| ==> r[k] == (if k < i then s[k] else s[k + 1]);
  }

  /** The position of the first row with that id and owner. */
  function FindIndex(tasks: seq<Task>, id: int, owner: int): (r: Option<nat>)
    ensures r.Some? ==> r.value < |tasks| && IsTarget(tasks[r.value], id, owner)
    ensures r.Some? ==> forall j :: 0 <= j < r.value ==> !IsTarget(tasks[j], id, owner)
    ensures r.None? ==> forall j :: 0 <= j < |tasks| ==> !IsTarget(tasks[j], id, owner)
  {
    if |tasks| == 0 then None
    else if IsTarget(tasks[0], id, owner) then Some(0)
    else
      match FindIndex(tasks[1..], id, owner)
      case None => None
      case Some(k) => Some(k + 1)
  }

  /** With unique ids, the row of a matching id is the one found. */
  lemma FindIndexUnique(tasks: seq<Task>, id: int, owner: int, i: int)
    requires UniqueIds(tasks) && 0 <= i < |tasks| && IsTarget(tasks[i], id, owner)
    ensures FindIndex(tasks, id, owner) == Some(i)
  {
  }

  /** `get_task`: the caller's task with that id, or nothing (a foreign task is not found). */
  function GetTask(tasks: seq<Task>, id: int, owner: int): (r: Option<Task>)
    ensures r.Some? ==> r.value in tasks && r.value.id == id && r.value.userId == owner
    ensures r.None? <==> forall t :: t in tasks ==> !IsTarget(t, id, owner)
  {
    match FindIndex(tasks, id, owner)
    case None => None
    case Some(i) => Some(tasks[i])
  }

  // ---------------------------------------------------------------------------
  // The listing
  // ---------------------------------------------------------------------------

  /** The arguments of `get_tasks` after the caller's id: filters, page and sort. */
  datatype TaskQuery = TaskQuery(
    status: Option<TaskStatus>,
    priority: Option<string>,
    isArchived: Option<bool>,
    search: Option<string>,
    page: int,
    size: int,
    sortBy: string,
    sortOrder: string)

  /** `if search:` holds for a present, non-empty string. */
  predicate Searching(q: TaskQuery) {
    q.search.Some? && |q.search.value| > 0
  }

  /**
   * `title ILIKE '%s%' OR description ILIKE '%s%'`; a NULL description
   * matches nothing.
   */
  predicate SearchMatches(t: Task, s: string) {
    ContainsIgnoringCase(t.title, s) || (t.description.Some? && ContainsIgnoringCase(t.description.value, s))
  }

  /** Every supplied filter, AND-ed with ownership, as one predicate. A NULL column never equals a value. */
  predicate MatchesQuery(t: Task, owner: int, q: TaskQuery) {
    && t.userId == owner
    && (q.status.None? || t.status == q.status.value)
    && (q.priority.None? || t.priority == q.priority)
    && (q.isArchived.None? || t.isArchived == q.isArchived)
    && (!Searching(q) || SearchMatches(t, q.search.value))
  }

  /** The rows that match the query, in store order: the reference selection. */
  function Matching(tasks: seq<Task>, owner: int, q: TaskQuery): seq<Task> {
    Filter(tasks, (t: Task) => MatchesQuery(t, owner, q))
  }

  /** One `filter(...)` clause of the query `get_tasks` builds. */
  datatype Condition =
    | OwnedBy(owner: int)
    | HasStatus(status: TaskStatus)
    | HasPriority(priority: string)
    | HasArchived(isArchived: bool)
    | Mentions(term: string)

  predicate Holds(c: Condition, t: Task) {
    match c
    case OwnedBy(owner) => t.userId == owner
    case HasStatus(status) => t.status == status
    case HasPriority(priority) => t.priority == Some(priority)
    case HasArchived(archived) => t.isArchived == Some(archived)
    case Mentions(term) => SearchMatches(t, term)
  }

  /** The clauses in the order `get_tasks` adds them, each only when its argument is given. */
  function Conditions(owner: int, q: TaskQuery): seq<Condition> {
    [OwnedBy(owner)]
    + (if q.status.Some? then [HasStatus(q.status.value)] else [])
    + (if q.priority.Some? then [HasPriority(q.priority.value)] else [])
    + (if q.isArchived.Some? then [HasArchived(q.isArchived.value)] else [])
    + (if Searching(q) then [Mentions(q.search.value)] else [])
  }

  predicate HoldsAll(cs: seq<Condition>, t: Task) {
    forall i :: 0 <= i < |cs| ==> Holds(cs[i], t)
  }

  /** `query.filter(c)`. */
  function Where(s: seq<Task>, c: Condition): seq<Task> {
    Filter(s, (t: Task) => Holds(c, t))
  }

  /** The rows satisfying every clause at once. */
  function WhereAll(s: seq<Task>, cs: seq<Condition>): seq<Task> {
    Filter(s, (t: Task) => HoldsAll(cs, t))
  }

  /** The query as built: one `filter` after another. */
  function ApplyFilters(s: seq<Task>, cs: seq<Condition>): seq<Task>
    decreases |cs|
  {
    if |cs| == 0 then s else ApplyFilters(Where(s, cs[0]), cs[1..])
  }

  /** Successive filters select the rows that satisfy all of them. */
  lemma {:induction false} ApplyFiltersAll(s: seq<Task>, cs: seq<Condition>)
    ensures ApplyFilters(s, cs) == WhereAll(s, cs)
    decreases |cs|
  {
    if |cs| == 0 {
      FilterAll(s, (t: Task) => HoldsAll(cs, t));
    } else {
      ApplyFiltersAll(Where(s, cs[0]), cs[1..]);
      forall t: Task
        ensures HoldsAll(cs, t) == (Holds(cs[0], t) && HoldsAll(cs[1..], t))
      {
        if HoldsAll(cs, t) {
          assert forall i :: 0 <= i < |cs| - 1 ==> cs[1..][i] == cs[i + 1];
        }
        if Holds(cs[0], t) && HoldsAll(cs[1..], t) {
          forall i | 0 <= i < |cs|
            ensures Holds(cs[i], t)
          {
            if i > 0 {
              assert cs[i] == cs[1..][i - 1];
            }
          }
        }
      }
      FilterNarrow(s, (t: Task) => Holds(cs[0], t), (t: Task) => HoldsAll(cs[1..], t), (t: Task) => HoldsAll(cs, t), true);
    }
  }

  /** The clauses `get_tasks` adds hold together exactly when the task matches the query. */
  lemma ConditionsMeanQuery(owner: int, q: TaskQuery, t: Task)
    ensures HoldsAll(Conditions(owner, q), t) == MatchesQuery(t, owner, q)
  {
    var cs := Conditions(owner, q);
    var k := 1;
    assert cs[0] == OwnedBy(owner);
    if q.status.Some? { assert cs[k] == HasStatus(q.status.value); k := k + 1; }
    if q.priority.Some? { assert cs[k] == HasPriority(q.priority.value); k := k + 1; }
    if q.isArchived.Some? { assert cs[k] == HasArchived(q.isArchived.value); k := k + 1; }
    if Searching(q) { assert cs[k] == Mentions(q.search.value); k := k + 1; }
    assert |cs| == k;
  }

  /** get_tasks's query, one clause after another. */
  function FilteredTasks(tasks: seq<Task>, owner: int, q: TaskQuery): seq<Task> {
    ApplyFilters(tasks, Conditions(owner, q))
  }

  /** The successive filters select exactly the rows that match the query. */
  lemma FilteredTasksMatch(tasks: seq<Task>, owner: int, q: TaskQuery)
    ensures FilteredTasks(tasks, owner, q) == Matching(tasks, owner, q)
  {
    ApplyFiltersAll(tasks, Conditions(owner, q));
    forall t: Task
      ensures HoldsAll(Conditions(owner, q), t) == MatchesQuery(t, owner, q)
    {
      ConditionsMeanQuery(owner, q, t);
    }
    FilterCongruent(tasks, (t: Task) => HoldsAll(Conditions(owner, q), t), (t: Task) => MatchesQuery(t, owner, q));
  }

  /** An empty search term, were it applied, would match every row: `ILIKE '%%'` holds for any text. */
  lemma EmptySearchMatchesEverything(t: Task)
    ensures SearchMatches(t, "")
  {
    ContainsAt(Lower(t.title), Lower(""), 0);
  }

  /** The search ignores the case of its term. */
  lemma SearchIgnoresCase(t: Task, s: string)
    ensures SearchMatches(t, s) == SearchMatches(t, Lower(s))
  {
    assert Lower(Lower(s)) == Lower(s);
  }

  /** `sort_order.lower() == "desc"`; no non-ASCII letter lowers to one of these four. */
  predicate IsDescending(sortOrder: string) {
    Lower(sortOrder) == "desc"
  }

  /** The optional `ORDER BY`: sorted when `sort_by` names a column, store order otherwise. */
  function OrderedTasks(s: seq<Task>, q: TaskQuery): (r: seq<Task>)
    ensures multiset(r) == multiset(s) && |r| == |s|
    ensures forall t :: t in r <==> t in s
    ensures ColumnNamed(q.sortBy).Some? ==> SortedBy(r, ColumnNamed(q.sortBy).value, IsDescending(q.sortOrder))
    ensures ColumnNamed(q.sortBy).None? ==> r == s
  {
    match ColumnNamed(q.sortBy)
    case Some(c) =>
      var r := SortTasks(s, c, IsDescending(q.sortOrder));
      assert |r| == |multiset(r)|;
      assert forall t :: t in r <==> t in multiset(r);
      r
    case None => s
  }

  /** Every matching row, in the order the pages are cut from. */
  function Listing(tasks: seq<Task>, owner: int, q: TaskQuery): seq<Task> {
    OrderedTasks(Matching(tasks, owner, q), q)
  }

  function Min(a: int, b: int): int {
    if a <= b then a else b
  }

  function Max(a: int, b: int): int {
    if a >= b then a else b
  }

  /** `OFFSET offset LIMIT limit`. */
  function PageSlice<T>(s: seq<T>, offset: nat, limit: nat): (r: seq<T>)
    ensures |r| == Min(limit, Max(0, |s| - offset))
    ensures forall i :: 0 <= i < |r| ==> r[i] == s[offset + i]
    ensures forall x :: x in r ==> x in s
  {
    if offset >= |s| then []
    else if offset + limit >= |s| then s[offset..]
    else s[offset..offset + limit]
  }

  /** Where page `p` (from 1) starts, `(p - 1) * size`, written as repeated addition. */
  function PageStart(p: int, size: nat): nat
    requires p >= 1
    decreases p
  {
    if p == 1 then 0 else PageStart(p - 1, size) + size
  }

  lemma {:induction false} PageStartProduct(p: int, size: nat)
    requires p >= 1
    ensures PageStart(p, size) == (p - 1) * size
    decreases p
  {
    if p > 1 {
      PageStartProduct(p - 1, size);
      assert (p - 1) * size == (p - 2) * size + size;
    }
  }

  /** Page `p` (from 1) of a listing cut into pages of `size`. */
  function PageOf<T>(s: seq<T>, size: int, p: int): seq<T>
    requires size >= 1 && p >= 1
  {
    PageSlice(s, PageStart(p, size), size)
  }

  /** The result of `get_tasks`: one page and the count before paging. */
  datatype TaskPage = TaskPage(items: seq<Task>, total: nat)

  function Offset(q: TaskQuery): nat
    requires q.page >= 1 && q.size >= 1
  {
    PageStart(q.page, q.size)
  }

  /** The listing holds the matching rows and nothing else. */
  lemma ListingMatches(tasks: seq<Task>, owner: int, q: TaskQuery)
    ensures |Listing(tasks, owner, q)| == |Matching(tasks, owner, q)|
    ensures forall t :: t in Listing(tasks, owner, q) ==> t in tasks && MatchesQuery(t, owner, q)
  {
    var p := (t: Task) => MatchesQuery(t, owner, q);
    assert forall t :: t in Matching(tasks, owner, q) ==> t in tasks && p(t);
  }

  /** `get_tasks`. Page and size are at least 1, as the endpoint's query validation ensures. */
  function GetTasks(tasks: seq<Task>, owner: int, q: TaskQuery): (r: TaskPage)
    requires q.page >= 1 && q.size >= 1
    ensures r.total == |Matching(tasks, owner, q)|
    ensures r.items == PageOf(Listing(tasks, owner, q), q.size, q.page)
  {
    var matched := FilteredTasks(tasks, owner, q);
    FilteredTasksMatch(tasks, owner, q);
    TaskPage(PageOf(OrderedTasks(matched, q), q.size, q.page), |matched|)
  }

  /**
   * The page holds only the caller's matching rows, at most `size` of them,
   * and is the run of the sorted listing that starts after the earlier pages.
   */
  lemma GetTasksPage(tasks: seq<Task>, owner: int, q: TaskQuery)
    requires q.page >= 1 && q.size >= 1
    ensures var r := GetTasks(tasks, owner, q);
      && (forall t :: t in r.items ==> t in tasks && MatchesQuery(t, owner, q))
      && |r.items| == Min(q.size, Max(0, r.total - Offset(q)))
      && (forall i :: 0 <= i < |r.items| ==> r.items[i] == Listing(tasks, owner, q)[Offset(q) + i])
  {
    var listing := Listing(tasks, owner, q);
    var r := GetTasks(tasks, owner, q);
    ListingMatches(tasks, owner, q);
  }

  /** The total counts the matching rows and depends on neither page, size nor sort. */
  lemma TotalIgnoresPaging(tasks: seq<Task>, owner: int, q1: TaskQuery, q2: TaskQuery)
    requires q1.page >= 1 && q1.size >= 1 && q2.page >= 1 && q2.size >= 1
    requires q1.status == q2.status && q1.priority == q2.priority
    requires q1.isArchived == q2.isArchived && q1.search == q2.search
    ensures GetTasks(tasks, owner, q1).total == GetTasks(tasks, owner, q2).total
  {
    FilterCongruent(tasks, t => MatchesQuery(t, owner, q1), t => MatchesQuery(t, owner, q2));
  }

  /** Another user's row is never selected, wherever it sits. */
  lemma MatchingIgnoresOtherOwners(a: seq<Task>, x: Task, b: seq<Task>, owner: int, q: TaskQuery)
    requires x.userId != owner
    ensures Matching(a + [x] + b, owner, q) == Matching(a + b, owner, q)
  {
    var p := (t: Task) => MatchesQuery(t, owner, q);
    assert Filter([x], p) == [] by {
      assert [x][1..] == [];
    }
    FilterConcat(a, [x], p);
    assert Filter(a + [x], p) == Filter(a, p);
    FilterConcat(a + [x], b, p);
    FilterConcat(a, b, p);
  }

  /** Another user's row changes nothing in the caller's listing. */
  lemma ListingIgnoresOtherOwners(a: seq<Task>, x: Task, b: seq<Task>, owner: int, q: TaskQuery)
    requires q.page >= 1 && q.size >= 1
    requires x.userId != owner
    ensures GetTasks(a + [x] + b, owner, q) == GetTasks(a + b, owner, q)
  {
    MatchingIgnoresOtherOwners(a, x, b, owner, q);
    FilteredTasksMatch(a + [x] + b, owner, q);
    FilteredTasksMatch(a + b, owner, q);
    assert FilteredTasks(a + [x] + b, owner, q) == FilteredTasks(a + b, owner, q);
  }

  // ---------------------------------------------------------------------------
  // Fixed-filter projections
  // ---------------------------------------------------------------------------

  /** `get_tasks_by_status`: owner and status, archived rows included. */
  function TasksByStatus(tasks: seq<Task>, owner: int, status: TaskStatus): (r: seq<Task>)
    ensures forall t :: t in r <==> t in tasks && t.userId == owner && t.status == status
  {
    Filter(tasks, (t: Task) => t.userId == owner && t.status == status)
  }

  /** Part of both date projections: not completed (cancelled rows stay) and not archived (a NULL flag fails). */
  predicate OpenAndUnarchived(t: Task) {
    t.status != Completed && t.isArchived == Some(false)
  }

  /** `get_overdue_tasks` at clock value `now`. */
  function OverdueTasks(tasks: seq<Task>, owner: int, now: int): (r: seq<Task>)
    ensures forall t :: t in r <==>
      && t in tasks && t.userId == owner
      && t.dueDate.Some? && t.dueDate.value < now
      && OpenAndUnarchived(t)
  {
    Filter(tasks, (t: Task) => t.userId == owner && t.dueDate.Some? && t.dueDate.value < now && OpenAndUnarchived(t))
  }

  const SecondsPerDay := 86400

  /** The UTC calendar day of a timestamp (floor division, so before 1970 too). */
  function DayOf(ts: int): int {
    ts / SecondsPerDay
  }

  /** Two timestamps fall on the same day exactly when they lie in the same 86400-second block. */
  lemma DayOfBounds(ts: int)
    ensures DayOf(ts) * SecondsPerDay <= ts < DayOf(ts) * SecondsPerDay + SecondsPerDay
  {
  }

  /** `get_tasks_due_today` as intended: the due date's day is the clock's day. */
  function TasksDueToday(tasks: seq<Task>, owner: int, now: int): (r: seq<Task>)
    ensures forall t :: t in r <==>
      && t in tasks && t.userId == owner
      && t.dueDate.Some? && DayOf(t.dueDate.value) == DayOf(now)
      && OpenAndUnarchived(t)
  {
    Filter(tasks, (t: Task) => t.userId == owner && t.dueDate.Some? && DayOf(t.dueDate.value) == DayOf(now) && OpenAndUnarchived(t))
  }

  /** The message of the exception `get_tasks_due_today` raises as written. */
  const SessionHasNoDate := "'Session' object has no attribute 'Date'"

  /**
   * `get_tasks_due_today` as written: the cast target is looked up on the
   * session (`db.Date`), which has no such attribute, so the call raises
   * before any query runs.
   */
  function TasksDueTodayAsWritten(tasks: seq<Task>, owner: int, now: int): (r: Result<seq<Task>, string>)
    ensures r == Failure(SessionHasNoDate)
  {
    Failure(SessionHasNoDate)
  }

  /** A row due later on the same day is due today yet the as-written query fails. */
  lemma DueTodayAsWrittenFails()
    ensures var t := Task(1, "t", None, Todo, Some(2 * SecondsPerDay + 7200), 0, None, 5, Some("medium"), Some(false));
      && TasksDueToday([t], 5, 2 * SecondsPerDay + 3600) == [t]
      && TasksDueTodayAsWritten([t], 5, 2 * SecondsPerDay + 3600).Failure?
  {
    var t := Task(1, "t", None, Todo, Some(2 * SecondsPerDay + 7200), 0, None, 5, Some("medium"), Some(false));
    var r := TasksDueToday([t], 5, 2 * SecondsPerDay + 3600);
    assert t in r;
  }
  // ---------------------------------------------------------------------------
  // Patch semantics
  // ---------------------------------------------------------------------------

  /** A nullable column after a patch: a sent value (null included) overwrites, an unsent one keeps. */
  function Patched<T>(current: Option<T>, p: Patch<T>): Option<T> {
    if p.Set? then p.value else current
  }

  /** A patch that sends null for a NOT NULL column (`title` or `status`): the commit fails. */
  predicate NullsRequiredColumn(u: TaskUpdate) {
    u.title == Set(None) || u.status == Set(None)
  }

  /**
   * The row a patch leaves behind: exactly the sent fields are assigned,
   * an explicit null included. The NOT NULL columns keep their value only
   * in the case `NullsRequiredColumn`, where the row is never written.
   */
  function PatchedTask(t: Task, u: TaskUpdate): (r: Task)
    ensures r.id == t.id && r.userId == t.userId && r.createdAt == t.createdAt && r.updatedAt == t.updatedAt
    ensures u.title.Set? && u.title.value.Some? ==> r.title == u.title.value.value
    ensures !(u.title.Set? && u.title.value.Some?) ==> r.title == t.title
    ensures u.status.Set? && u.status.value.Some? ==> r.status == u.status.value.value
    ensures !(u.status.Set? && u.status.value.Some?) ==> r.status == t.status
    ensures r.description == (if u.description.Set? then u.description.value else t.description)
    ensures r.dueDate == (if u.dueDate.Set? then u.dueDate.value else t.dueDate)
    ensures r.priority == (if u.priority.Set? then u.priority.value else t.priority)
    ensures r.isArchived == (if u.isArchived.Set? then u.isArchived.value else t.isArchived)
  {
    t.(title := if u.title.Set? && u.title.value.Some? then u.title.value.value else t.title,
       description := Patched(t.description, u.description),
       status := if u.status.Set? && u.status.value.Some? then u.status.value.value else t.status,
       dueDate := Patched(t.dueDate, u.dueDate),
       priority := Patched(t.priority, u.priority),
       isArchived := Patched(t.isArchived, u.isArchived))
  }

  /** An empty patch leaves the row as it is. */
  lemma EmptyPatchKeepsRow(t: Task)
    ensures PatchedTask(t, TaskUpdate(Unset, Unset, Unset, Unset, Unset, Unset)) == t
  {
  }

  /** Applying the same patch twice is applying it once. */
  lemma PatchIdempotent(t: Task, u: TaskUpdate)
    ensures PatchedTask(PatchedTask(t, u), u) == PatchedTask(t, u)
  {
  }

  /** One `setattr(db_task, field, value)`. */
  datatype Assignment =
    | AssignTitle(title: Option<string>)
    | AssignDescription(description: Option<string>)
    | AssignStatus(status: Option<TaskStatus>)
    | AssignDueDate(dueDate: Option<int>)
    | AssignPriority(priority: Option<string>)
    | AssignArchived(isArchived: Option<bool>)

  /** `model_dump(exclude_unset=True)`: the sent fields, in declaration order. */
  function UpdateData(u: TaskUpdate): seq<Assignment> {
    TitleData(u) + DescriptionData(u) + StatusData(u) + DueDateData(u) + PriorityData(u) + ArchivedData(u)
  }

  function TitleData(u: TaskUpdate): seq<Assignment> {
    if u.title.Set? then [AssignTitle(u.title.value)] else []
  }

  function DescriptionData(u: TaskUpdate): seq<Assignment> {
    if u.description.Set? then [AssignDescription(u.description.value)] else []
  }

  function StatusData(u: TaskUpdate): seq<Assignment> {
    if u.status.Set? then [AssignStatus(u.status.value)] else []
  }

  function DueDateData(u: TaskUpdate): seq<Assignment> {
    if u.dueDate.Set? then [AssignDueDate(u.dueDate.value)] else []
  }

  function PriorityData(u: TaskUpdate): seq<Assignment> {
    if u.priority.Set? then [AssignPriority(u.priority.value)] else []
  }

  function ArchivedData(u: TaskUpdate): seq<Assignment> {
    if u.isArchived.Set? then [AssignArchived(u.isArchived.value)] else []
  }

  /** The in-memory row after one assignment; a null for a NOT NULL column is recorded apart. */
  function Assign(t: Task, a: Assignment): Task {
    match a
    case AssignTitle(v) => if v.Some? then t.(title := v.value) else t
    case AssignDescription(v) => t.(description := v)
    case AssignStatus(v) => if v.Some? then t.(status := v.value) else t
    case AssignDueDate(v) => t.(dueDate := v)
    case AssignPriority(v) => t.(priority := v)
    case AssignArchived(v) => t.(isArchived := v)
  }

  predicate NullsRequired(a: Assignment) {
    a == AssignTitle(None) || a == AssignStatus(None)
  }

  function AssignAll(t: Task, data: seq<Assignment>): Task
    decreases |data|
  {
    if |data| == 0 then t else AssignAll(Assign(t, data[0]), data[1..])
  }

  predicate AnyNullsRequired(data: seq<Assignment>) {
    exists i :: 0 <= i < |data| && NullsRequired(data[i])
  }

  /** One step of the loop: the first assignment, then the rest. */
  lemma AssignAllStep(t: Task, data: seq<Assignment>, i: int)
    requires 0 <= i < |data|
    ensures AssignAll(t, data[i..]) == AssignAll(Assign(t, data[i]), data[i + 1..])
  {
    assert data[i..][0] == data[i];
    assert data[i..][1..] == data[i + 1..];
  }

  /** A null for a NOT NULL column is in a longer prefix iff it was before or is the new assignment. */
  lemma AnyNullsRequiredStep(data: seq<Assignment>, i: int)
    requires 0 <= i < |data|
    ensures AnyNullsRequired(data[..i + 1]) <==> AnyNullsRequired(data[..i]) || NullsRequired(data[i])
  {
    var s, s1 := data[..i], data[..i + 1];
    assert s1[i] == data[i];
    if AnyNullsRequired(s1) && !NullsRequired(data[i]) {
      var k :| 0 <= k < |s1| && NullsRequired(s1[k]);
      assert s[k] == s1[k];
    }
    if AnyNullsRequired(s) {
      var k :| 0 <= k < |s| && NullsRequired(s[k]);
      assert s1[k] == s[k];
    }
  }

  lemma {:induction false} AssignAllConcat(t: Task, a: seq<Assignment>, b: seq<Assignment>)
    ensures AssignAll(t, a + b) == AssignAll(AssignAll(t, a), b)
    decreases |a|
  {
    if |a| > 0 {
      assert (a + b)[0] == a[0];
      assert (a + b)[1..] == a[1..] + b;
      AssignAllConcat(Assign(t, a[0]), a[1..], b);
    } else {
      assert a + b == b;
    }
  }

  lemma AssignAllShort(t: Task, d: seq<Assignment>)
    requires |d| <= 1
    ensures AssignAll(t, d) == if |d| == 0 then t else Assign(t, d[0])
  {
    if |d| == 1 {
      assert AssignAll(t, d) == AssignAll(Assign(t, d[0]), d[1..]);
    }
  }

  lemma AssignAllConcat6(t: Task, d1: seq<Assignment>, d2: seq<Assignment>, d3: seq<Assignment>,
                         d4: seq<Assignment>, d5: seq<Assignment>, d6: seq<Assignment>)
    ensures AssignAll(t, d1 + d2 + d3 + d4 + d5 + d6)
         == AssignAll(AssignAll(AssignAll(AssignAll(AssignAll(AssignAll(t, d1), d2), d3), d4), d5), d6)
  {
    AssignAllConcat(t, d1, d2);
    AssignAllConcat(t, d1 + d2, d3);
    AssignAllConcat(t, d1 + d2 + d3, d4);
    AssignAllConcat(t, d1 + d2 + d3 + d4, d5);
    AssignAllConcat(t, d1 + d2 + d3 + d4 + d5, d6);
  }

  /** The first three `setattr` calls patch `title`, `description` and `status`. */
  lemma FirstThreeAssigned(t: Task, u: TaskUpdate)
    ensures var p := PatchedTask(t, u);
      AssignAll(AssignAll(AssignAll(t, TitleData(u)), DescriptionData(u)), StatusData(u))
      == t.(title := p.title, description := p.description, status := p.status)
  {
    var t1 := AssignAll(t, TitleData(u));
    var t2 := AssignAll(t1, DescriptionData(u));
    AssignAllShort(t, TitleData(u));
    AssignAllShort(t1, DescriptionData(u));
    AssignAllShort(t2, StatusData(u));
  }

  /** The last three `setattr` calls patch `due_date`, `priority` and `is_archived`. */
  lemma LastThreeAssigned(t: Task, u: TaskUpdate)
    ensures
      AssignAll(AssignAll(AssignAll(t, DueDateData(u)), PriorityData(u)), ArchivedData(u))
      == t.(dueDate := Patched(t.dueDate, u.dueDate), priority := Patched(t.priority, u.priority),
            isArchived := Patched(t.isArchived, u.isArchived))
  {
    var t4 := AssignAll(t, DueDateData(u));
    var t5 := AssignAll(t4, PriorityData(u));
    AssignAllShort(t, DueDateData(u));
    AssignAllShort(t4, PriorityData(u));
    AssignAllShort(t5, ArchivedData(u));
  }

  /** Assigning the sent fields one after another yields the patched row. */
  lemma AssignAllIsPatch(t: Task, u: TaskUpdate)
    ensures AssignAll(t, UpdateData(u)) == PatchedTask(t, u)
  {
    AssignAllConcat6(t, TitleData(u), DescriptionData(u), StatusData(u), DueDateData(u), PriorityData(u), ArchivedData(u));
    FirstThreeAssigned(t, u);
    var t3 := AssignAll(AssignAll(AssignAll(t, TitleData(u)), DescriptionData(u)), StatusData(u));
    LastThreeAssigned(t3, u);
  }

  lemma AnyNullsRequiredConcat(a: seq<Assignment>, b: seq<Assignment>)
    ensures AnyNullsRequired(a + b) <==> AnyNullsRequired(a) || AnyNullsRequired(b)
  {
    if AnyNullsRequired(a + b) {
      var k :| 0 <= k < |a + b| && NullsRequired((a + b)[k]);
      if k < |a| {
        assert a[k] == (a + b)[k];
      } else {
        assert b[k - |a|] == (a + b)[k];
      }
    }
    if AnyNullsRequired(a) {
      var k :| 0 <= k < |a| && NullsRequired(a[k]);
      assert (a + b)[k] == a[k];
    }
    if AnyNullsRequired(b) {
      var k :| 0 <= k < |b| && NullsRequired(b[k]);
      assert (a + b)[|a| + k] == b[k];
    }
  }

  /** A list of at most one assignment holds a null for a NOT NULL column iff its element is one. */
  lemma AnyNullsRequiredShort(d: seq<Assignment>)
    requires |d| <= 1
    ensures AnyNullsRequired(d) <==> |d| == 1 && NullsRequired(d[0])
  {
  }

  /** A null for a NOT NULL column is among the assignments exactly when the patch sends one. */
  lemma UpdateDataNulls(u: TaskUpdate)
    ensures AnyNullsRequired(UpdateData(u)) <==> NullsRequiredColumn(u)
  {
    var d1, d2, d3 := TitleData(u), DescriptionData(u), StatusData(u);
    var d4, d5, d6 := DueDateData(u), PriorityData(u), ArchivedData(u);
    AnyNullsRequiredConcat(d1, d2);
    AnyNullsRequiredConcat(d1 + d2, d3);
    AnyNullsRequiredConcat(d1 + d2 + d3, d4);
    AnyNullsRequiredConcat(d1 + d2 + d3 + d4, d5);
    AnyNullsRequiredConcat(d1 + d2 + d3 + d4 + d5, d6);
    AnyNullsRequiredShort(d1);
    AnyNullsRequiredShort(d2);
    AnyNullsRequiredShort(d3);
    AnyNullsRequiredShort(d4);
    AnyNullsRequiredShort(d5);
    AnyNullsRequiredShort(d6);
  }

  // ---------------------------------------------------------------------------
  // Bulk update semantics
  // ---------------------------------------------------------------------------

  /** `Task.id.in_(task_ids) AND Task.user_id == user_id`. */
  predicate Selected(t: Task, b: TaskBulkUpdate, owner: int) {
    t.id in b.taskIds && t.userId == owner
  }

  /** `update_data` of a bulk update is non-empty. */
  predicate BulkSetsSomething(b: TaskBulkUpdate) {
    b.status.Set? || b.isArchived.Set?
  }

  /** A selected row after the bulk `UPDATE`; `onupdate` stamps `updated_at`. */
  function BulkPatched(t: Task, b: TaskBulkUpdate, now: int): (r: Task)
    ensures r.id == t.id && r.userId == t.userId && r.title == t.title && r.createdAt == t.createdAt
    ensures r.description == t.description && r.dueDate == t.dueDate && r.priority == t.priority
    ensures r.updatedAt == Some(now)
    ensures b.status.Set? && b.status.value.Some? ==> r.status == b.status.value.value
    ensures !(b.status.Set? && b.status.value.Some?) ==> r.status == t.status
    ensures r.isArchived == (if b.isArchived.Set? then b.isArchived.value else t.isArchived)
  {
    t.(status := if b.status.Set? && b.status.value.Some? then b.status.value.value else t.status,
       isArchived := Patched(t.isArchived, b.isArchived),
       updatedAt := Some(now))
  }

  /** The table after the bulk `UPDATE`: selected rows patched, all others as they were. */
  function BulkApplied(s: seq<Task>, b: TaskBulkUpdate, owner: int, now: int): (r: seq<Task>)
    ensures |r| == |s|
    ensures forall i :: 0 <= i < |s| && Selected(s[i], b, owner) ==> r[i] == BulkPatched(s[i], b, now)
    ensures forall i :: 0 <= i < |s| && !Selected(s[i], b, owner) ==> r[i] == s[i]
  {
    seq(|s|, i requires 0 <= i < |s| => if Selected(s[i], b, owner) then BulkPatched(s[i], b, now) else s[i])
  }

  /** The rows the bulk `UPDATE` matches. */
  function BulkMatched(s: seq<Task>, b: TaskBulkUpdate, owner: int): seq<Task> {
    Filter(s, (t: Task) => Selected(t, b, owner))
  }

  /** Rows with distinct ids drawn from `ids` are no more than `ids` has members. */
  lemma {:induction false} UniqueIdsWithin(s: seq<Task>, ids: set<int>)
    requires UniqueIds(s)
    requires forall t :: t in s ==> t.id in ids
    ensures |s| <= |ids|
    decreases |s|
  {
    if |s| > 0 {
      var rest := s[1..];
      assert UniqueIds(rest);
      forall t | t in rest
        ensures t.id in ids - {s[0].id}
      {
        var j :| 0 <= j < |rest| && rest[j] == t;
        assert s[j + 1] == t;
      }
      UniqueIdsWithin(rest, ids - {s[0].id});
      assert s[0] in s;
    }
  }

  lemma {:induction false} FilterKeepsUniqueIds(s: seq<Task>, p: Task -> bool)
    requires UniqueIds(s)
    ensures UniqueIds(Filter(s, p))
    decreases |s|
  {
    if |s| > 0 {
      var rest := s[1..];
      assert UniqueIds(rest);
      FilterKeepsUniqueIds(rest, p);
      forall t | t in Filter(rest, p)
        ensures t.id != s[0].id
      {
        var j :| 0 <= j < |rest| && rest[j] == t;
        assert s[j + 1] == t;
      }
    }
  }

  /**
   * With ids a primary key, the bulk count never exceeds the number of
   * distinct ids requested: a repeated id counts once and an unknown or
   * foreign id not at all.
   */
  lemma BulkCountBound(s: seq<Task>, b: TaskBulkUpdate, owner: int)
    requires UniqueIds(s)
    ensures |BulkMatched(s, b, owner)| <= |set id | id in b.taskIds|
  {
    var m := BulkMatched(s, b, owner);
    var ids := set id | id in b.taskIds;
    FilterKeepsUniqueIds(s, (t: Task) => Selected(t, b, owner));
    forall t | t in m
      ensures t.id in ids
    {
    }
    UniqueIdsWithin(m, ids);
  }

  // ---------------------------------------------------------------------------
  // The store
  // ---------------------------------------------------------------------------

  /** What `update_task` reports: no such task, a failed commit, or the refreshed row. */
  datatype UpdateOutcome = NoSuchTask | CommitFailed | Updated(task: Task)

  /** What `bulk_update_tasks` reports: the matched-row count or a failed commit. */
  datatype BulkOutcome = BulkUpdated(count: nat) | BulkCommitFailed

  /** `onupdate`: the flush stamps `updated_at` only when some column changed. */
  function Touched(before: Task, after: Task, now: int): Task {
    if after == before then after else after.(updatedAt := Some(now))
  }

  /** The `tasks` table: rows in store order and the next primary key. */
  class TaskStore {
    var tasks: seq<Task>
    var nextId: int

    /** Ids are positive, unique and below `nextId`; every title fits its column. */
    predicate Valid()
      reads this
    {
      && nextId >= 1
      && UniqueIds(tasks)
      && (forall i :: 0 <= i < |tasks| ==> 1 <= tasks[i].id < nextId && TitleFits(tasks[i].title))
    }

    constructor ()
      ensures Valid()
      ensures tasks == [] && nextId == 1
    {
      tasks := [];
      nextId := 1;
    }

    /**
     * `create_task`: the caller's row with the input's fields verbatim and
     * the column defaults; it can be found again by its id.
     */
    method CreateTask(data: TaskCreate, userId: int, now: int) returns (t: Task)
      requires Valid() && ValidTaskCreate(data)
      modifies this
      ensures Valid()
      ensures t == Task(old(nextId), data.title, data.description, data.status, data.dueDate,
                        now, None, userId, Some(data.priority), Some(DefaultIsArchived))
      ensures tasks == old(tasks) + [t] && nextId == old(nextId) + 1
      ensures GetTask(tasks, t.id, userId) == Some(t)
    {
      t := Task(nextId, data.title, data.description, data.status, data.dueDate,
                now, None, userId, Some(data.priority), Some(DefaultIsArchived));
      tasks := tasks + [t];
      nextId := nextId + 1;
      FindIndexUnique(tasks, t.id, userId, |tasks| - 1);
    }

    /**
     * The `setattr` loop of `update_task`, on the in-memory row: the sent
     * fields are assigned one by one, and a null for a NOT NULL column is
     * noted.
     */
    method ApplyUpdate(t: Task, u: TaskUpdate) returns (r: Task, nullViolation: bool)
      ensures nullViolation <==> NullsRequiredColumn(u)
      ensures r == PatchedTask(t, u)
    {
      var data := UpdateData(u);
      r := t;
      nullViolation := false;
      var i := 0;
      while i < |data|
        invariant 0 <= i <= |data|
        invariant AssignAll(r, data[i..]) == AssignAll(t, data)
        invariant nullViolation <==> AnyNullsRequired(data[..i])
      {
        AssignAllStep(r, data, i);
        AnyNullsRequiredStep(data, i);
        r := Assign(r, data[i]);
        nullViolation := nullViolation || NullsRequired(data[i]);
        i := i + 1;
      }
      assert data[..i] == data;
      AssignAllIsPatch(t, u);
      UpdateDataNulls(u);
    }

    /**
     * `update_task`: a missing or foreign task is reported and nothing
     * changes; a null for a NOT NULL column makes the commit fail and
     * nothing changes; otherwise exactly that row is replaced by its patched
     * version, stamped when a column changed.
     */
    method UpdateTask(taskId: int, userId: int, u: TaskUpdate, now: int) returns (out: UpdateOutcome)
      requires Valid() && ValidTaskUpdate(u)
      modifies this
      ensures Valid() && nextId == old(nextId)
      ensures FindIndex(old(tasks), taskId, userId).None? ==> out == NoSuchTask && tasks == old(tasks)
      ensures FindIndex(old(tasks), taskId, userId).Some? && NullsRequiredColumn(u) ==>
        out == CommitFailed && tasks == old(tasks)
      ensures FindIndex(old(tasks), taskId, userId).Some? && !NullsRequiredColumn(u) ==>
        var i := FindIndex(old(tasks), taskId, userId).value;
        var t := Touched(old(tasks)[i], PatchedTask(old(tasks)[i], u), now);
        out == Updated(t) && tasks == old(tasks)[i := t]
    {
      var found := FindIndex(tasks, taskId, userId);
      if found.None? {
        return NoSuchTask;
      }
      var i := found.value;
      var r, nullViolation := ApplyUpdate(tasks[i], u);
      if nullViolation {
        return CommitFailed;
      }
      var t := Touched(tasks[i], r, now);
      tasks := tasks[i := t];
      out := Updated(t);
    }

    /**
     * `delete_task`: a missing or foreign task is reported and nothing
     * changes; otherwise exactly that row is removed, after which no row of
     * the caller has that id.
     */
    method DeleteTask(taskId: int, userId: int) returns (deleted: bool)
      requires Valid()
      modifies this
      ensures Valid() && nextId == old(nextId)
      ensures deleted <==> FindIndex(old(tasks), taskId, userId).Some?
      ensures !deleted ==> tasks == old(tasks)
      ensures deleted ==>
        var i := FindIndex(old(tasks), taskId, userId).value;
        tasks == old(tasks)[..i] + old(tasks)[i + 1..]
      ensures GetTask(tasks, taskId, userId) == None
    {
      var found := FindIndex(tasks, taskId, userId);
      if found.None? {
        return false;
      }
      var i := found.value;
      RemoveAt(tasks, i, nextId);
      tasks := tasks[..i] + tasks[i + 1..];
      deleted := true;
    }

    /**
     * `bulk_update_tasks`: with nothing to set it reports 0 and changes
     * nothing; a null status on a matched row makes the commit fail and
     * nothing changes; otherwise the selected rows, and only those, are
     * patched and their number reported.
     */
    method BulkUpdate(b: TaskBulkUpdate, userId: int, now: int) returns (out: BulkOutcome)
      requires Valid()
      modifies this
      ensures Valid() && nextId == old(nextId)
      ensures !BulkSetsSomething(b) ==> out == BulkUpdated(0) && tasks == old(tasks)
      ensures BulkSetsSomething(b) && b.status == Set(None) && |BulkMatched(old(tasks), b, userId)| > 0 ==>
        out == BulkCommitFailed && tasks == old(tasks)
      ensures BulkSetsSomething(b) && !(b.status == Set(None) && |BulkMatched(old(tasks), b, userId)| > 0) ==>
        && out == BulkUpdated(|BulkMatched(old(tasks), b, userId)|)
        && tasks == BulkApplied(old(tasks), b, userId, now)
    {
      if !BulkSetsSomething(b) {
        return BulkUpdated(0);
      }
      var matched := |BulkMatched(tasks, b, userId)|;
      if b.status == Set(None) && matched > 0 {
        return BulkCommitFailed;
      }
      tasks := BulkApplied(tasks, b, userId, now);
      out := BulkUpdated(matched);
    }
  }
}
