/**
 * The prompt built by `summarize_tasks`: one line per task, joined by
 * newlines, between a fixed header and a fixed set of instructions. The
 * generative model is a parameter that answers a prompt with a text or
 * with the message of the exception it raised.
 */
module AiService {
  import opened Wrappers
  import opened Text

  const ModelName := "gemini-1.5-flash"
  const DefaultStatusText := "TODO"
  const NoDueDateText := " (No due date)"
  const HeaderText := "Summarize the following tasks:"

  /** The indentation of the continuation lines of the prompt literal. */
  const Indent := "                "

  const Greeting := " You are a personal assistant who handles tasks for me.\n" + Indent
  const PromptTail :=
    "\nProvide a concise summary.\n"
    + Indent + "The summary should highlight:\n"
    + Indent + "- the main objectives\n"
    + Indent + "- Deadlines coming up soon\n"
    + Indent + "- Any dependencies between tasks.\n"
    + Indent + "- general progress overview\n"
    + "\n"
    + Indent + "Do not use a list to tell me. Just talk naturally about the tasks.\n"
    + Indent + "and suggest timelines to finish them.\n"
    + Indent

  /**
   * A task dict as `summarize_tasks` reads it. `status` is `None` when the
   * key is absent; `dueDate` is `None` when the key is absent or null.
   */
  datatype TaskEntry = TaskEntry(id: int, title: string, description: string, status: Option<string>, dueDate: Option<string>)

  /** `task.get('status', 'TODO')`. */
  function StatusText(t: TaskEntry): string {
    if t.status.Some? then t.status.value else DefaultStatusText
  }

  /** Python truthiness of `task.get('due_date')`. */
  predicate HasDueDate(t: TaskEntry) {
    t.dueDate.Some? && t.dueDate.value != ""
  }

  function DueText(t: TaskEntry): string {
    if HasDueDate(t) then " (Due: " + t.dueDate.value + ")" else NoDueDateText
  }

  /** The part of a line that names the task: `"{id}. {title}: {description}"`. */
  function Heading(t: TaskEntry): string {
    IntToString(t.id) + ". " + t.title + ": " + t.description
  }

  /** The line of the prompt that describes one task. */
  function TaskLine(t: TaskEntry): (line: string)
    ensures StartsWith(line, Heading(t) + " " + "[Status: ")
    ensures EndsWith(line, DueText(t))
  {
    var p := Heading(t) + " " + "[Status: ";
    StartsWithExtended(p, StatusText(t), p);
    StartsWithExtended(p + StatusText(t), "]", p);
    StartsWithExtended(p + StatusText(t) + "]", DueText(t), p);
    EndsWithConcat(p + StatusText(t) + "]", DueText(t));
    p + StatusText(t) + "]" + DueText(t)
  }

  /** The lines, one per task and in the order of the tasks. */
  function Lines(tasks: seq<TaskEntry>): (lines: seq<string>)
    ensures |lines| == |tasks|
    ensures forall i :: 0 <= i < |tasks| ==> lines[i] == TaskLine(tasks[i])
  {
    seq(|tasks|, i requires 0 <= i < |tasks| => TaskLine(tasks[i]))
  }

  /** `"\n".join(...)` over the lines. */
  function TaskBlock(tasks: seq<TaskEntry>): string {
    Join(Lines(tasks), "\n")
  }

  function BuildPrompt(block: string): string {
    Greeting + (HeaderText + "\n" + block) + PromptTail
  }

  /** The prompt sent to the model for these tasks. */
  function Prompt(tasks: seq<TaskEntry>): string {
    BuildPrompt(TaskBlock(tasks))
  }

  /** `summarize_tasks`: the model's reply to the prompt, or the exception it raised. */
  function SummarizeTasks(tasks: seq<TaskEntry>, generate: string -> Result<string, string>): (r: Result<string, string>)
    ensures r.Success? <==> generate(Prompt(tasks)).Success?
    ensures r.Success? ==> r.value == generate(Prompt(tasks)).value
    ensures r.Failure? ==> r.error == generate(Prompt(tasks)).error
  {
    generate(Prompt(tasks))
  }

  // ---------------------------------------------------------------------------
  // What the prompt holds
  // ---------------------------------------------------------------------------

  /** The header is followed directly by the block of task lines. */
  lemma PromptHasHeaderThenBlock(tasks: seq<TaskEntry>)
    ensures Contains(Prompt(tasks), HeaderText + "\n" + TaskBlock(tasks))
  {
    ContainsInside(Greeting, HeaderText + "\n" + TaskBlock(tasks), PromptTail);
  }

  /** With no tasks the block is empty and the header is still there. */
  lemma EmptyListKeepsHeader()
    ensures TaskBlock([]) == ""
    ensures Contains(Prompt([]), HeaderText)
  {
    var framed := HeaderText + "\n" + TaskBlock([]);
    ContainsInside("", HeaderText, "\n" + TaskBlock([]));
    assert "" + HeaderText + ("\n" + TaskBlock([])) == framed;
    ContainsPrefixed(Greeting, framed, HeaderText);
    ContainsSuffixed(Greeting + framed, PromptTail, HeaderText);
  }

  /** A text found in the block is found in the prompt. */
  lemma InBlockInPrompt(tasks: seq<TaskEntry>, needle: string)
    requires Contains(TaskBlock(tasks), needle)
    ensures Contains(Prompt(tasks), needle)
  {
    ContainsPrefixed(HeaderText + "\n", TaskBlock(tasks), needle);
    ContainsPrefixed(Greeting, HeaderText + "\n" + TaskBlock(tasks), needle);
    ContainsSuffixed(Greeting + (HeaderText + "\n" + TaskBlock(tasks)), PromptTail, needle);
  }

  /** A line holds its heading. */
  lemma HeadingInLine(t: TaskEntry)
    ensures Contains(TaskLine(t), Heading(t))
  {
    var line, h := TaskLine(t), Heading(t);
    var p := h + " " + "[Status: ";
    assert line[..|p|] == p;
    assert line[0..|h|] == p[..|h|] == h;
    ContainsAt(line, h, 0);
  }

  /** Whatever a task's line holds, the prompt holds too. */
  lemma InLineInPrompt(tasks: seq<TaskEntry>, i: int, needle: string)
    requires 0 <= i < |tasks|
    requires Contains(TaskLine(tasks[i]), needle)
    ensures Contains(Prompt(tasks), needle)
  {
    JoinHasPart(Lines(tasks), "\n", i);
    var line := TaskLine(tasks[i]);
    var before, after :| TaskBlock(tasks) == before + line + after;
    ContainsPrefixed(before, line, needle);
    ContainsSuffixed(before + line, after, needle);
    InBlockInPrompt(tasks, needle);
  }

  /** Every task's line, and so its heading with title and description verbatim, is in the prompt. */
  lemma PromptHasEveryHeading(tasks: seq<TaskEntry>, i: int)
    requires 0 <= i < |tasks|
    ensures Contains(Prompt(tasks), TaskLine(tasks[i]))
    ensures Contains(Prompt(tasks), Heading(tasks[i]))
  {
    var line := TaskLine(tasks[i]);
    assert line[0..|line|] == line;
    ContainsAt(line, line, 0);
    InLineInPrompt(tasks, i, line);
    HeadingInLine(tasks[i]);
    InLineInPrompt(tasks, i, Heading(tasks[i]));
  }

  /** A task without a status is reported as to do. */
  lemma MissingStatusIsTodo(t: TaskEntry)
    requires t.status.None?
    ensures Contains(TaskLine(t), "[Status: " + DefaultStatusText + "]")
  {
    var tag := "[Status: " + DefaultStatusText + "]";
    assert TaskLine(t) == (Heading(t) + " ") + tag + DueText(t);
    ContainsInside(Heading(t) + " ", tag, DueText(t));
  }

  /** A line ends with its due date when the task has one, and says there is none otherwise. */
  lemma DueSuffixOfLine(t: TaskEntry)
    ensures HasDueDate(t) ==> EndsWith(TaskLine(t), " (Due: " + t.dueDate.value + ")")
    ensures !HasDueDate(t) ==> EndsWith(TaskLine(t), NoDueDateText)
  {
  }

  /** The text fields of a task have no line break. */
  predicate SingleLine(t: TaskEntry) {
    && Lacks(t.title, '\n') && Lacks(t.description, '\n')
    && (t.status.Some? ==> Lacks(t.status.value, '\n'))
    && (t.dueDate.Some? ==> Lacks(t.dueDate.value, '\n'))
  }

  lemma IntToStringLacksNewline(i: int)
    ensures Lacks(IntToString(i), '\n')
  {
    NatToStringRoundTrip(if i < 0 then -i else i);
  }

  /** A task whose fields have no line break gets exactly one line. */
  lemma SingleLineTask(t: TaskEntry)
    requires SingleLine(t)
    ensures Lacks(TaskLine(t), '\n')
  {
    IntToStringLacksNewline(t.id);
    var nl := '\n';
    LacksConcat(IntToString(t.id), ". ", nl);
    LacksConcat(IntToString(t.id) + ". ", t.title, nl);
    LacksConcat(IntToString(t.id) + ". " + t.title, ": ", nl);
    LacksConcat(IntToString(t.id) + ". " + t.title + ": ", t.description, nl);
    var p := Heading(t) + " " + "[Status: ";
    LacksConcat(Heading(t), " ", nl);
    LacksConcat(Heading(t) + " ", "[Status: ", nl);
    LacksConcat(p, StatusText(t), nl);
    LacksConcat(p + StatusText(t), "]", nl);
    if HasDueDate(t) {
      LacksConcat(" (Due: ", t.dueDate.value, nl);
      LacksConcat(" (Due: " + t.dueDate.value, ")", nl);
    }
    LacksConcat(p + StatusText(t) + "]", DueText(t), nl);
  }

  /** Splitting the block at newlines gives back the lines, one per task and in order. */
  lemma BlockSplitsIntoLines(tasks: seq<TaskEntry>)
    requires |tasks| >= 1
    requires forall i :: 0 <= i < |tasks| ==> SingleLine(tasks[i])
    ensures Split(TaskBlock(tasks), "\n") == Lines(tasks)
  {
    forall k | 0 <= k < |tasks|
      ensures !Contains(Lines(tasks)[k], "\n")
    {
      SingleLineTask(tasks[k]);
      LacksNotContains(TaskLine(tasks[k]), '\n');
    }
    SplitJoin(Lines(tasks), "\n");
  }

  /** The first task of a two-task list shows up in the prompt as "1. Task 1: Description 1". */
  lemma FirstTaskHeadingExample()
    ensures Contains(
      Prompt([TaskEntry(1, "Task 1", "Description 1", None, None), TaskEntry(2, "Task 2", "Description 2", None, None)]),
      "1. Task 1: Description 1")
  {
    var tasks := [TaskEntry(1, "Task 1", "Description 1", None, None), TaskEntry(2, "Task 2", "Description 2", None, None)];
    PromptHasEveryHeading(tasks, 0);
    ExampleHeading();
  }

  lemma ExampleHeading()
    ensures Heading(TaskEntry(1, "Task 1", "Description 1", None, None)) == "1. Task 1: Description 1"
  {
    assert IntToString(1) == "1";
  }
}
