/** The task dialog's form: its fields, its validation and what it submits. */
module TaskForm {
  import opened Common
  import opened Text
  import opened Records
  import TaskStore

  /** The date input's value: "" or a picked day ("yyyy-MM-dd"). */
  datatype DateInput = Blank | Picked(day: Day)

  /** The form's fields. The category select yields a string; an existing
      task's reference is shown as it is stored. */
  datatype FormData = FormData(
    title: string,
    description: string,
    priority: string,
    status: string,
    categoryId: Ref,
    dueDate: DateInput)

  /** The empty form: medium priority, "Not Started", no category, no date. */
  const Defaults := FormData("", "", "medium", "Not Started", Bare(StrId("")), Blank)

  const TitleRequired := "Task title is required"
  const DueDateInPast := "Due date cannot be in the past"

  /** The form filled from a stored task, each missing or falsy field replaced
      by its default (`task.priority || "medium"` and so on). */
  function FromTask(t: Task): (fd: FormData)
    ensures fd.priority != "" && fd.status != ""
    ensures fd.title == t.title
    ensures t.description.None? ==> fd.description == ""
    ensures t.description.Some? ==> fd.description == t.description.value
    ensures t.priority == "" ==> fd.priority == Defaults.priority
    ensures t.priority != "" ==> fd.priority == t.priority
    ensures t.status.None? || t.status == Some("") ==> fd.status == Defaults.status
    ensures t.status.Some? && t.status.value != "" ==> fd.status == t.status.value
    ensures Truthy(t.categoryId) ==> fd.categoryId == t.categoryId
    ensures !Truthy(t.categoryId) ==> fd.categoryId == Defaults.categoryId
    ensures fd.dueDate.Picked? <==> t.dueDate.Some?
    ensures fd.dueDate.Picked? ==> fd.dueDate.day == t.dueDate.value
  {
    FormData(
      t.title,
      t.description.GetOr(""),
      if t.priority == "" then "medium" else t.priority,
      if t.status == None || t.status == Some("") then "Not Started" else t.status.value,
      if Truthy(t.categoryId) then t.categoryId else Bare(StrId("")),
      if t.dueDate.Some? then Picked(t.dueDate.value) else Blank)
  }

  /** A task whose every field is empty or missing opens as the empty form. */
  lemma FalsyTaskShowsDefaults(t: Task)
    requires t.title == "" && t.description.None? && t.priority == ""
    requires t.status.None? && !Truthy(t.categoryId) && t.dueDate.None?
    ensures FromTask(t) == Defaults
  {
  }

  /** `validateForm`'s error object: a title error exactly when the title is
      blank or white space, a date error exactly when a date is picked and it
      lies before today; no other key. */
  function Validate(fd: FormData, today: Day): (errors: map<string, string>)
    ensures "title" in errors <==> AllSpace(fd.title)
    ensures "dueDate" in errors <==> fd.dueDate.Picked? && fd.dueDate.day < today
    ensures errors.Keys <= {"title", "dueDate"}
    ensures forall k :: k in errors ==> errors[k] == (if k == "title" then TitleRequired else DueDateInPast)
  {
    TrimEmptyIff(fd.title);
    var withTitle := if Trim(fd.title) == "" then map["title" := TitleRequired] else map[];
    if fd.dueDate.Picked? && fd.dueDate.day < today then withTitle["dueDate" := DueDateInPast]
    else withTitle
  }

  /** `{ ...formData, dueDate: formData.dueDate ? formData.dueDate : null }`:
      the submitted object is the form itself, except that an empty date
      becomes `null`. */
  function DraftOf(fd: FormData): (d: TaskDraft)
    ensures d.title == fd.title && d.priority == fd.priority && d.status == fd.status
    ensures d.categoryId == fd.categoryId && d.description == Some(fd.description)
    ensures d.dueDate.None? <==> fd.dueDate.Blank?
    ensures fd.dueDate.Picked? ==> d.dueDate == Some(fd.dueDate.day)
  {
    TaskDraft(
      fd.title,
      Some(fd.description),
      fd.priority,
      fd.status,
      fd.categoryId,
      if fd.dueDate.Picked? then Some(fd.dueDate.day) else None)
  }

  /** Creating a task from a submitted form and reopening it for editing shows
      the same form, except that the status is back to "Not Started": `create`
      does not store the status the form sent. */
  lemma CreateThenEditForm(n: nat, fd: FormData, now: Stamp)
    requires fd.priority != ""
    requires fd.categoryId.Bare? && fd.categoryId.id.StrId?
    ensures FromTask(TaskStore.NewTask(n, DraftOf(fd), now)) == fd.(status := "Not Started")
  {
  }

  /** Saving an edit and reopening the task shows exactly what was saved: the
      form the user submitted, whatever the task held before, as long as the
      fields the form defaults are filled. */
  lemma UpdateThenEditForm(stored: Task, fd: FormData)
    requires fd.priority != "" && fd.status != ""
    requires Truthy(fd.categoryId) || fd.categoryId == Bare(StrId(""))
    ensures FromTask(TaskStore.Merged(stored, DraftPatch(DraftOf(fd)))) == fd
  {
  }

  /** Reopening an unchanged task and saving it leaves the stored record
      unchanged, when its fields already hold what the form would show. */
  lemma ResaveKeepsTask(t: Task)
    requires t.description.Some? && t.status.Some? && t.status.value != "" && t.priority != ""
    requires Truthy(t.categoryId)
    ensures TaskStore.Merged(t, DraftPatch(DraftOf(FromTask(t)))) == t
  {
  }

  /** One change event: the field and the value typed or picked. */
  datatype FieldEdit =
    | Title(title: string)
    | Description(description: string)
    | Priority(priority: string)
    | Status(status: string)
    | CategoryChoice(choice: string)
    | DueDate(dueDate: DateInput)
  {
    /** The key `handleChange` is called with. */
    function Field(): string {
      match this
      case Title(_) => "title"
      case Description(_) => "description"
      case Priority(_) => "priority"
      case Status(_) => "status"
      case CategoryChoice(_) => "categoryId"
      case DueDate(_) => "dueDate"
    }
  }

  /** `{ ...prev, [field]: value }`: the named field takes the value (a
      category choice as the bare identifier string); every other field keeps
      its own. */
  function Apply(fd: FormData, e: FieldEdit): (r: FormData)
    ensures e.Title? ==> r.title == e.title
    ensures e.Description? ==> r.description == e.description
    ensures e.Priority? ==> r.priority == e.priority
    ensures e.Status? ==> r.status == e.status
    ensures e.CategoryChoice? ==> r.categoryId == Bare(StrId(e.choice))
    ensures e.DueDate? ==> r.dueDate == e.dueDate
    ensures !e.Title? ==> r.title == fd.title
    ensures !e.Description? ==> r.description == fd.description
    ensures !e.Priority? ==> r.priority == fd.priority
    ensures !e.Status? ==> r.status == fd.status
    ensures !e.CategoryChoice? ==> r.categoryId == fd.categoryId
    ensures !e.DueDate? ==> r.dueDate == fd.dueDate
  {
    match e
    case Title(v) => fd.(title := v)
    case Description(v) => fd.(description := v)
    case Priority(v) => fd.(priority := v)
    case Status(v) => fd.(status := v)
    case CategoryChoice(v) => fd.(categoryId := Bare(StrId(v)))
    case DueDate(v) => fd.(dueDate := v)
  }

  /** An edit decides the check of its own field and leaves the other check
      as it was: typing a title never changes whether the date is accepted. */
  lemma EditTouchesOwnCheck(fd: FormData, e: FieldEdit, today: Day)
    ensures e.Title? ==> ("title" in Validate(Apply(fd, e), today) <==> AllSpace(e.title))
    ensures !e.Title? ==> ("title" in Validate(Apply(fd, e), today) <==> "title" in Validate(fd, today))
    ensures e.DueDate? ==> ("dueDate" in Validate(Apply(fd, e), today) <==> e.dueDate.Picked? && e.dueDate.day < today)
    ensures !e.DueDate? ==> ("dueDate" in Validate(Apply(fd, e), today) <==> "dueDate" in Validate(fd, today))
  {
  }

  /** The error object after a change: an error shown for the edited field is
      replaced by ""; nothing else changes. */
  function ClearedError(errors: map<string, string>, field: string): (r: map<string, string>)
    ensures r.Keys == errors.Keys
    ensures forall k :: k in r && k != field ==> r[k] == errors[k]
    ensures field in r ==> r[field] == ""
  {
    if field in errors && errors[field] != "" then errors[field := ""] else errors
  }

  class TaskFormState {
    /** The task being edited, or none when the form creates one. The dialog
        unmounts the form when it closes, so this is fixed for a form's life. */
    const task: Option<Task>
    var formData: FormData
    var errors: map<string, string>
    var isSubmitting: bool

    /** The initial state and the effect on `task`: a blank form, filled from
        the task when one is given. */
    constructor (task: Option<Task>)
      ensures this.task == task
      ensures task.None? ==> formData == Defaults
      ensures task.Some? ==> formData == FromTask(task.value)
      ensures errors == map[] && !isSubmitting
    {
      this.task := task;
      formData := if task.Some? then FromTask(task.value) else Defaults;
      errors := map[];
      isSubmitting := false;
    }

    /** `handleChange`. */
    method Change(e: FieldEdit)
      modifies this`formData, this`errors
      ensures formData == Apply(old(formData), e)
      ensures errors == ClearedError(old(errors), e.Field())
    {
      formData := Apply(formData, e);
      errors := ClearedError(errors, e.Field());
    }

    /** `handleSubmit`: validates; an invalid form sends nothing. A valid one
        sends its draft to the page; `accepted` says whether the page's handler
        returned rather than threw. Only an accepted creation clears the form;
        an edit, or a failure, keeps what was typed. The busy flag is down
        again when the call returns. */
    method Submit(today: Day, accepted: bool) returns (sent: Option<TaskDraft>)
      modifies this`formData, this`errors, this`isSubmitting
      ensures errors == Validate(old(formData), today)
      ensures sent.Some? <==> !AllSpace(old(formData).title) && !(old(formData).dueDate.Picked? && old(formData).dueDate.day < today)
      ensures sent.Some? ==> sent.value == DraftOf(old(formData)) && !isSubmitting
      ensures sent.None? ==> isSubmitting == old(isSubmitting)
      ensures formData == (if sent.Some? && accepted && task.None? then Defaults else old(formData))
    {
      errors := Validate(formData, today);
      if |errors| != 0 {
        sent := None;
        return;
      }
      isSubmitting := true;
      sent := Some(DraftOf(formData));
      if accepted && task.None? {
        formData := Defaults;
      }
      isSubmitting := false;
    }
  }
}
