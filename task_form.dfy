/** The task editor (TaskForm.jsx): the form state it starts from, its
    validation, the request a submit sends and how typing clears an error. */
module TaskForm {
  import opened Wrappers
  import opened Text
  import TaskService

  /** `formData`: every field is the raw string of its input. */
  datatype FormData = FormData(title: string, category: string, priority: string, dueDate: string)

  datatype FormField = Title | CategoryField | PriorityField | DueDateField

  /** The fields of the `task` prop the form reads, as they come from the
      record: a field the record does not carry is `None`. */
  datatype EditedTask = EditedTask(
    Id: int,
    title: Option<string>,
    category: Option<string>,
    priority: Option<string>,
    dueDate: Option<string>)

  function DefaultForm(): FormData {
    FormData("", "Work", "medium", "")
  }

  /** `task.field || fallback` */
  function OrDefault(s: Option<string>, fallback: string): (r: string)
    ensures TaskService.Truthy(s) ==> r == s.value
    ensures !TaskService.Truthy(s) ==> r == fallback
  {
    TaskService.Or(s, Some(fallback)).value
  }

  /** The form a mount starts from: the defaults, or the edited task's
      fields with the defaults standing in for falsy ones. */
  function InitialForm(task: Option<EditedTask>): (f: FormData)
    ensures task.None? ==> f == DefaultForm()
    ensures f.category != "" && f.priority != ""
  {
    match task
    case None => DefaultForm()
    case Some(t) =>
      FormData(
        OrDefault(t.title, ""),
        OrDefault(t.category, "Work"),
        OrDefault(t.priority, "medium"),
        OrDefault(t.dueDate, ""))
  }

  /** Opening a task whose fields are all set shows exactly those fields;
      one with none of them set shows the defaults. */
  lemma InitialFormOfTask(t: EditedTask)
    ensures TaskService.Truthy(t.title) && TaskService.Truthy(t.category) &&
            TaskService.Truthy(t.priority) && TaskService.Truthy(t.dueDate) ==>
      InitialForm(Some(t)) == FormData(t.title.value, t.category.value, t.priority.value, t.dueDate.value)
    ensures t.title.None? && t.category.None? && t.priority.None? && t.dueDate.None? ==>
      InitialForm(Some(t)) == DefaultForm()
  {
  }

  const TitleRequired: string := "Task title is required"
  const CategoryRequired: string := "Category is required"

  /** The form passes validation. */
  predicate Valid(form: FormData) {
    Trim(form.title) != "" && form.category != ""
  }

  /** A valid form has a title with some non-whitespace character and a
      category. */
  lemma ValidIff(form: FormData)
    ensures Valid(form) <==> !AllWhitespace(form.title) && form.category != ""
    ensures Valid(form) ==> form.title != ""
  {
    TrimEmptyIff(form.title);
  }

  /** Every form the editor starts from fails validation only on its title. */
  lemma InitialFormValidIffTitle(task: Option<EditedTask>)
    ensures Valid(InitialForm(task)) <==> !AllWhitespace(InitialForm(task).title)
    ensures task.None? ==> !Valid(InitialForm(task))
  {
    ValidIff(InitialForm(task));
  }

  /** `validateForm`: collects one message per failing field. */
  method ValidateForm(form: FormData) returns (errors: map<FormField, Option<string>>, ok: bool)
    ensures Title in errors <==> Trim(form.title) == ""
    ensures Title in errors ==> errors[Title] == Some(TitleRequired)
    ensures CategoryField in errors <==> form.category == ""
    ensures CategoryField in errors ==> errors[CategoryField] == Some(CategoryRequired)
    ensures forall f :: f in errors ==> f == Title || f == CategoryField
    ensures ok <==> |errors| == 0
    ensures ok <==> Valid(form)
  {
    errors := map[];
    if Trim(form.title) == "" {
      errors := errors[Title := Some(TitleRequired)];
    }
    if form.category == "" {
      errors := errors[CategoryField := Some(CategoryRequired)];
    }
    ok := |errors| == 0;
  }

  /** `formData.dueDate || null` */
  function NullIfEmpty(s: string): (r: Option<string>)
    ensures r.None? <==> s == ""
    ensures r.Some? ==> r.value == s
  {
    if s == "" then None else Some(s)
  }

  /** The object an edit sends to `update`: the four form fields, the due
      date as `null` when empty. */
  function EditUpdates(form: FormData): (u: TaskService.TaskUpdates)
    ensures u.title == Some(form.title) && u.category == Some(form.category) && u.priority == Some(form.priority)
    ensures u.dueDate == Some(NullIfEmpty(form.dueDate))
    ensures u.completed.None? && u.Name.None? && u.Tags.None? && u.Owner.None? && u.due_date.None?
  {
    TaskService.NoUpdates().(
      title := Some(form.title),
      category := Some(form.category),
      priority := Some(form.priority),
      dueDate := Some(NullIfEmpty(form.dueDate)))
  }

  /** The object a new task sends to `create`. */
  function NewDraft(form: FormData): (d: TaskService.TaskDraft)
    ensures d.title == Some(form.title) && d.category == Some(form.category) && d.priority == Some(form.priority)
    ensures d.dueDate == NullIfEmpty(form.dueDate)
    ensures d.Name.None? && d.Tags.None? && d.Owner.None? && d.due_date.None?
    ensures d.completed.None? && d.created_at.None? && d.completed_at.None?
  {
    TaskService.TaskDraft(
      Name := None, Tags := None, Owner := None,
      title := Some(form.title), category := Some(form.category), priority := Some(form.priority),
      due_date := None, dueDate := NullIfEmpty(form.dueDate),
      completed := None, created_at := None, completed_at := None)
  }

  /** Which service call a submit makes. */
  datatype SubmitRequest =
    | NoCall
    | UpdateCall(id: int, updates: TaskService.TaskUpdates)
    | CreateCall(draft: TaskService.TaskDraft)

  /** `handleSubmit`: validates, then updates the edited task or creates a
      new one. `saved` says whether the service call returned normally; the
      form resets to its defaults only after a successful create. */
  method HandleSubmit(task: Option<EditedTask>, form: FormData, saved: bool)
    returns (errors: map<FormField, Option<string>>, request: SubmitRequest, next: FormData)
    ensures request.NoCall? <==> !Valid(form)
    ensures !Valid(form) ==> next == form && |errors| > 0
    ensures Valid(form) ==> errors == map[]
    ensures Valid(form) && task.Some? ==> request == UpdateCall(task.value.Id, EditUpdates(form)) && next == form
    ensures Valid(form) && task.None? ==> request == CreateCall(NewDraft(form))
    ensures Valid(form) && task.None? && saved ==> next == DefaultForm()
    ensures !(Valid(form) && task.None? && saved) ==> next == form
  {
    var ok;
    errors, ok := ValidateForm(form);
    next := form;
    if !ok {
      request := NoCall;
      return;
    }
    if task.Some? {
      request := UpdateCall(task.value.Id, EditUpdates(form));
    } else {
      request := CreateCall(NewDraft(form));
      if saved {
        next := DefaultForm();
      }
    }
  }

  /** A created task from a valid form carries the form's title (as title
      and as `Name`), category and priority, is not completed, and has the
      entered due date or none. */
  lemma CreateFromForm(form: FormData, now: int)
    requires Valid(form)
    ensures var p := TaskService.CreatePayload(NewDraft(form), now);
      && p.title == form.title && p.Name == form.title
      && p.category == form.category
      && p.priority == (if form.priority == "" then TaskService.DefaultPriority else form.priority)
      && !p.completed && p.completed_at.None? && p.created_at == now
      && p.due_date == NullIfEmpty(form.dueDate)
  {
    ValidIff(form);
  }

  /** The update record an edit produces: the form's fields, the due date
      or `null`, and no change to completion. */
  method EditPayload(id: int, form: FormData, now: int) returns (p: TaskService.UpdateRecord)
    ensures p.Id == id
    ensures p.title == Some(form.title) && p.category == Some(form.category) && p.priority == Some(form.priority)
    ensures p.due_date == Some(NullIfEmpty(form.dueDate))
    ensures p.completed.None? && p.completed_at.None?
    ensures p.Name.None? && p.Tags.None? && p.Owner.None?
  {
    p := TaskService.BuildUpdatePayload(id, EditUpdates(form), now);
  }

  /** The record the service stores keeps its due date under `due_date`,
      while the form reads `dueDate`: such a task opens with an empty due
      date, and saving it unchanged sends `due_date: null`. */
  lemma EditOfStoredTaskClearsDueDate(t: EditedTask)
    requires t.dueDate.None?
    ensures InitialForm(Some(t)).dueDate == ""
    ensures EditUpdates(InitialForm(Some(t))).dueDate == Some(None)
  {
  }

  function FieldOf(form: FormData, f: FormField): string {
    match f
    case Title => form.title
    case CategoryField => form.category
    case PriorityField => form.priority
    case DueDateField => form.dueDate
  }

  function SetField(form: FormData, f: FormField, value: string): (r: FormData)
    ensures FieldOf(r, f) == value
    ensures forall g :: g != f ==> FieldOf(r, g) == FieldOf(form, g)
  {
    match f
    case Title => form.(title := value)
    case CategoryField => form.(category := value)
    case PriorityField => form.(priority := value)
    case DueDateField => form.(dueDate := value)
  }

  /** Whether the field shows an error message (`errors[field]` is truthy). */
  predicate ErrorShown(errors: map<FormField, Option<string>>, f: FormField) {
    f in errors && TaskService.Truthy(errors[f])
  }

  /** `handleChange`: sets one field and clears that field's message, if it
      shows one; other fields and their messages are untouched. */
  function HandleChange(form: FormData, errors: map<FormField, Option<string>>, f: FormField, value: string)
    : (r: (FormData, map<FormField, Option<string>>))
    ensures FieldOf(r.0, f) == value
    ensures forall g :: g != f ==> FieldOf(r.0, g) == FieldOf(form, g)
    ensures !ErrorShown(r.1, f)
    ensures forall g :: g != f ==> ErrorShown(r.1, g) == ErrorShown(errors, g)
    ensures r.1.Keys == errors.Keys
  {
    (SetField(form, f, value), if ErrorShown(errors, f) then errors[f := None] else errors)
  }

  /** Fixing every failing field by typing into it clears every message. */
  lemma TypingClearsErrors(form: FormData, title: string, category: string)
    ensures var errors := map[Title := Some(TitleRequired), CategoryField := Some(CategoryRequired)];
      var (f1, e1) := HandleChange(form, errors, Title, title);
      var (f2, e2) := HandleChange(f1, e1, CategoryField, category);
      (forall g :: !ErrorShown(e2, g)) && f2 == form.(title := title, category := category)
  {
  }
}
