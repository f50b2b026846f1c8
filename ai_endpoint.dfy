/**
 * `POST /summarize-tasks`: the tasks are numbered from 1 in the order
 * given and handed to the summariser; its reply, or the text of whatever
 * it raised, is returned in a body with status 200.
 */
module AiEndpoint {
  import opened Wrappers
  import opened Text
  import opened AiService

  /** A task in the request body. It has no status field. */
  datatype TaskInput = TaskInput(title: string, description: string, dueDate: Option<string>)

  /** `{"summary": text}` or `{"error": message}`. */
  datatype SummaryResponse = Summary(summary: string) | SummaryError(error: string)

  /** `task.model_dump()` with `id` added: the request's fields and nothing else. */
  function WithId(t: TaskInput, id: int): (e: TaskEntry)
    ensures e.id == id && e.title == t.title && e.description == t.description && e.dueDate == t.dueDate
    ensures e.status.None?
  {
    TaskEntry(id, t.title, t.description, None, t.dueDate)
  }

  /** The dicts the summariser receives. */
  function WithIds(tasks: seq<TaskInput>): seq<TaskEntry> {
    seq(|tasks|, i requires 0 <= i < |tasks| => WithId(tasks[i], i + 1))
  }

  /** The `enumerate(tasks, 1)` loop: one dict per task, in order, numbered 1 to n. */
  method NumberTasks(tasks: seq<TaskInput>) returns (numbered: seq<TaskEntry>)
    ensures |numbered| == |tasks|
    ensures forall i :: 0 <= i < |tasks| ==> numbered[i] == WithId(tasks[i], i + 1)
    ensures numbered == WithIds(tasks)
  {
    numbered := [];
    var i := 0;
    while i < |tasks|
      invariant 0 <= i <= |tasks|
      invariant |numbered| == i
      invariant forall k :: 0 <= k < i ==> numbered[k] == WithId(tasks[k], k + 1)
    {
      numbered := numbered + [WithId(tasks[i], i + 1)];
      i := i + 1;
    }
  }

  /** The ids are 1, 2, ..., n: consecutive, so no two tasks share one. */
  lemma IdsConsecutive(tasks: seq<TaskInput>)
    ensures forall i :: 0 <= i < |tasks| ==> WithIds(tasks)[i].id == i + 1
    ensures forall i, j :: 0 <= i < j < |tasks| ==> WithIds(tasks)[i].id < WithIds(tasks)[j].id
  {
  }

  /** `summarize_tasks_endpoint`: the summary unchanged on success, the error text otherwise; it never raises. */
  method SummarizeTasksEndpoint(tasks: seq<TaskInput>, generate: string -> Result<string, string>)
    returns (r: SummaryResponse)
    ensures generate(Prompt(WithIds(tasks))).Success? ==> r == Summary(generate(Prompt(WithIds(tasks))).value)
    ensures generate(Prompt(WithIds(tasks))).Failure? ==> r == SummaryError(generate(Prompt(WithIds(tasks))).error)
  {
    var numbered := NumberTasks(tasks);
    match SummarizeTasks(numbered, generate)
    case Success(summary) => r := Summary(summary);
    case Failure(message) => r := SummaryError(message);
  }

  /** A status sent with a task is not passed on, so every line of the prompt reports the task as to do. */
  lemma StatusNotForwarded(tasks: seq<TaskInput>, i: int)
    requires 0 <= i < |tasks|
    ensures Contains(Prompt(WithIds(tasks)), "[Status: " + DefaultStatusText + "]")
    ensures Contains(Prompt(WithIds(tasks)), Heading(WithId(tasks[i], i + 1)))
  {
    var entries := WithIds(tasks);
    MissingStatusIsTodo(entries[i]);
    InLineInPrompt(entries, i, "[Status: " + DefaultStatusText + "]");
    PromptHasEveryHeading(entries, i);
  }

  /** An empty request reaches the summariser as an empty list, with the header still in the prompt. */
  lemma EmptyRequest()
    ensures WithIds([]) == []
    ensures Contains(Prompt(WithIds([])), HeaderText)
  {
    EmptyListKeepsHeader();
  }
}
