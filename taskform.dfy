/**
 * The task form: its initial state, the validation it runs before submitting, the
 * mutation and variables it sends, and what it hands to its `onTaskCreated` callback.
 */
module TaskForm {
  import opened Wrappers
  import opened Text
  import opened Tasks
  import opened Store

  /** The form state: every field is a string except the status. */
  datatype FormData = FormData(title: string, description: string, status: TaskStatus, dueDate: string)

  const BlankForm := FormData("", "", Todo, "")

  /**
   * The initial form: `task?.field || default` for each field, and the due date cut
   * at its first "T" when it is present and non-empty.
   */
  function InitialForm(task: Option<Task>): (f: FormData)
    ensures task.None? ==> f == BlankForm
    ensures task.Some? ==>
      && f.title == task.value.title
      && f.description == task.value.description.GetOr("")
      && f.status == task.value.status
      && f.dueDate == BeforeFirst(task.value.dueDate.GetOr(""), 'T')
    ensures task.Some? && task.value.dueDate.Some? && 'T' !in task.value.dueDate.value ==>
      f.dueDate == task.value.dueDate.value
  {
    match task
    case None => FormData("", "", Todo, "")
    case Some(t) =>
      var d := t.dueDate.GetOr("");
      FormData(
        if t.title != "" then t.title else "",
        if t.description.Some? && t.description.value != "" then t.description.value else "",
        t.status,
        if t.dueDate.Some? && t.dueDate.value != "" then BeforeFirst(t.dueDate.value, 'T') else "")
  }

  const TitleRequired := "Title is required"
  const DueDateInPast := "Due date cannot be in the past"

  /**
   * `validateForm`: fills an error map field by field and succeeds when it stays
   * empty. Whether a non-empty due date lies before the current instant is the
   * parameter `dueDateBeforeNow`.
   */
  method Validate(form: FormData, dueDateBeforeNow: bool) returns (valid: bool, errors: map<string, string>)
    ensures errors.Keys <= {"title", "dueDate"}
    ensures "title" in errors <==> IsBlank(form.title)
    ensures "title" in errors ==> errors["title"] == TitleRequired
    ensures "dueDate" in errors <==> form.dueDate != "" && dueDateBeforeNow
    ensures "dueDate" in errors ==> errors["dueDate"] == DueDateInPast
    ensures valid <==> |errors| == 0
    ensures valid <==> !IsBlank(form.title) && !(form.dueDate != "" && dueDateBeforeNow)
  {
    errors := map[];
    if IsBlank(form.title) {
      errors := errors["title" := TitleRequired];
    }
    if form.dueDate != "" && dueDateBeforeNow {
      errors := errors["dueDate" := DueDateInPast];
    }
    valid := |errors| == 0;
    if !valid {
      assert "title" in errors || "dueDate" in errors;
    }
  }

  /** The mutation the form sends and its variables. */
  datatype Submission = Submission(mutation: string, variables: Variables)

  /** `input: formData`: every form field is sent, empty strings included. */
  function FormInput(f: FormData): TaskInput {
    TaskInput(Some(f.title), Some(f.description), Some(f.status), Some(f.dueDate))
  }

  /** Editing an existing task updates it by id; otherwise a task is created. */
  function BuildSubmission(form: FormData, task: Option<Task>): (s: Submission)
    ensures task.Some? ==>
      s == Submission("updateTask", Variables(Some(task.value.id), None, Some(FormInput(form))))
    ensures task.None? ==>
      s == Submission("createTask", Variables(None, None, Some(FormInput(form))))
  {
    var mutation := if task.Some? then "updateTask" else "createTask";
    var variables :=
      if task.Some? then Variables(Some(task.value.id), None, Some(FormInput(form)))
      else Variables(None, None, Some(FormInput(form)));
    Submission(mutation, variables)
  }

  /** `handleSubmit` up to the request: nothing is sent unless validation passes. */
  method Submit(form: FormData, task: Option<Task>, dueDateBeforeNow: bool) returns (sent: Option<Submission>)
    ensures sent.Some? <==> !IsBlank(form.title) && !(form.dueDate != "" && dueDateBeforeNow)
    ensures sent.Some? ==> sent.value == BuildSubmission(form, task)
  {
    var valid, _ := Validate(form, dueDateBeforeNow);
    if !valid {
      return None;
    }
    sent := Some(BuildSubmission(form, task));
  }

  /** Whether `onTaskCreated` runs, and with what. */
  datatype Callback = NotCalled | Called(arg: Option<Task>)

  /** The task a payload carries under its key, if it carries one. */
  function PayloadTask(p: Payload): Option<Task> {
    match p
    case CreateTaskData(t) => Some(t)
    case UpdateTaskData(t) => t
    case TaskData(t) => t
    case _ => None
  }

  /**
   * After the response: an `errors` member stops the handler; otherwise the callback
   * receives `data[mutation]`, which is undefined when the data sits under another key.
   */
  function AfterSubmit(mutation: string, resp: Response): (c: Callback)
    requires mutation == "createTask" || mutation == "updateTask"
    ensures c == NotCalled <==> resp.Errors?
    ensures c.Called? && c.arg.Some? ==>
      Key(resp.payload) == mutation && resp.payload.CreateTaskData? == (mutation == "createTask")
    ensures mutation == "createTask" && resp.Data? && resp.payload.CreateTaskData? ==>
      c == Called(Some(resp.payload.created))
    ensures mutation == "updateTask" && resp.Data? && resp.payload.UpdateTaskData? ==>
      c == Called(resp.payload.updated)
  {
    match resp
    case Errors(_) => NotCalled
    case Data(p) => Called(if Key(p) == mutation then PayloadTask(p) else None)
  }

  /** Reopening the form on a task updated from form `f` shows `f`, its due date cut at "T". */
  lemma UpdateThenReopen(t: Task, f: FormData, now: string)
    ensures InitialForm(Some(Merge(t, FormInput(f), now))) == f.(dueDate := BeforeFirst(f.dueDate, 'T'))
  {
  }

  /** Reopening the form on a task created from form `f` shows `f`, its due date cut at "T". */
  lemma CreateThenReopen(id: string, f: FormData, now: string)
    ensures InitialForm(Some(NewTask(id, FormInput(f), now))) == f.(dueDate := BeforeFirst(f.dueDate, 'T'))
  {
  }

  /**
   * Saving an unchanged edit form and opening it again shows the same form: the
   * initial state is a fixed point of save-then-reopen.
   */
  lemma SaveUnchangedIsStable(t: Task, now: string)
    ensures var f := InitialForm(Some(t));
      InitialForm(Some(Merge(t, FormInput(f), now))) == f
  {
    var f := InitialForm(Some(t));
    BeforeFirstIdempotent(t.dueDate.GetOr(""), 'T');
    UpdateThenReopen(t, f, now);
  }
}
