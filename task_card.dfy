/** One task's card (TaskCard.jsx): its priority colour, its due-date label,
    and the two in-flight flags that keep a second click from sending a
    second request while the first is pending. */
module TaskCard {
  import opened Wrappers
  import opened Records
  import TaskService

  /** `getPriorityColor`: a colour per known priority, a neutral grey for
      anything else. */
  function PriorityColor(priority: string): (c: string)
    ensures priority == "high" ==> c == "#FF6B6B"
    ensures priority == "medium" ==> c == "#FFD93D"
    ensures priority == "low" ==> c == "#4ECDC4"
    ensures priority != "high" && priority != "medium" && priority != "low" ==> c == NeutralColor
  {
    if priority == "high" then "#FF6B6B"
    else if priority == "medium" then "#FFD93D"
    else if priority == "low" then "#4ECDC4"
    else NeutralColor
  }

  const NeutralColor: string := "#94a3b8"

  /** The string a task record stores for each priority. */
  function PriorityName(p: Priority): string {
    match p
    case Low => "low"
    case Medium => "medium"
    case High => "high"
  }

  /** Every stored priority gets its own colour, never the neutral one. */
  lemma PriorityColorsDistinct(p: Priority, q: Priority)
    ensures PriorityColor(PriorityName(p)) != NeutralColor
    ensures p != q ==> PriorityColor(PriorityName(p)) != PriorityColor(PriorityName(q))
  {
  }

  /** The label text: "Today", "Overdue", or the date itself (the
      "MMM d" rendering of day `day`). */
  datatype DueText = TodayText | OverdueText | DateText(day: int)

  datatype DueInfo = DueInfo(text: DueText, urgent: bool, overdue: bool)

  /** `formatDueDate` on the day number `dueDate`, `today` being the day
      the card is rendered. A due date's midnight is in the past exactly
      when its day is before today's. */
  function FormatDueDate(dueDate: Option<int>, today: int): (r: Option<DueInfo>)
    ensures r.None? <==> dueDate.None?
    ensures r.Some? ==> (r.value.text == TodayText <==> dueDate.value == today)
    ensures r.Some? ==> (r.value.text == OverdueText <==> dueDate.value < today)
    ensures r.Some? && r.value.text.DateText? ==> r.value.text.day == dueDate.value
    ensures r.Some? ==> (r.value.urgent <==> dueDate.value <= today)
    ensures r.Some? ==> (r.value.overdue <==> dueDate.value < today)
  {
    match dueDate
    case None => None
    case Some(d) =>
      if d == today then Some(DueInfo(TodayText, true, false))
      else if d < today then Some(DueInfo(OverdueText, true, true))
      else Some(DueInfo(DateText(d), false, false))
  }

  /** The card formats `task.dueDate`, so a task as the service returns it,
      which carries only `due_date`, never shows a due label. */
  lemma StoredTaskShowsNoDueLabel(t: Task, today: int)
    ensures FromStore(t) ==> FormatDueDate(t.dueDate, today).None?
  {
  }

  /** An overdue label is always urgent, and a label stops being "Today"
      the day after: on any later day the same due date is overdue. */
  lemma DueLabelAges(d: int, today: int, later: int)
    requires today < later
    ensures var r := FormatDueDate(Some(d), today);
      r.value.overdue ==> r.value.urgent
    ensures FormatDueDate(Some(d), today).value.text == TodayText ==>
      FormatDueDate(Some(d), later).value.text == OverdueText
  {
  }

  /** The update a checkbox click sends: the flipped completion flag only. */
  function ToggleUpdates(task: Task): (u: TaskService.TaskUpdates)
    ensures u.completed == Some(!task.completed)
    ensures u.(completed := None) == TaskService.NoUpdates()
  {
    TaskService.NoUpdates().(completed := Some(!task.completed))
  }

  /** The record a toggle makes the service write: the new flag, and the
      completion time set on completing and cleared on reopening. */
  method ToggleRecord(task: Task, now: int) returns (p: TaskService.UpdateRecord)
    ensures p.Id == task.Id && p.completed == Some(!task.completed)
    ensures !task.completed ==> p.completed_at == Some(Some(now))
    ensures task.completed ==> p.completed_at == Some(None)
    ensures p.(completed := None, completed_at := None)
         == TaskService.UpdateRecord(task.Id, None, None, None, None, None, None, None, None, None)
  {
    p := TaskService.BuildUpdatePayload(task.Id, ToggleUpdates(task), now);
  }

  /** The card's two in-flight flags. */
  class CardState {
    var isCompleting: bool
    var isDeleting: bool

    constructor()
      ensures !isCompleting && !isDeleting
    {
      isCompleting := false;
      isDeleting := false;
    }

    /** The start of `handleToggleComplete`: ignored while a toggle is in
        flight, otherwise marks one in flight and yields its update. */
    method BeginToggle(task: Task) returns (request: Option<TaskService.TaskUpdates>)
      modifies this
      ensures old(isCompleting) ==> request.None?
      ensures !old(isCompleting) ==> request == Some(ToggleUpdates(task))
      ensures isCompleting && isDeleting == old(isDeleting)
    {
      if isCompleting {
        request := None;
        return;
      }
      isCompleting := true;
      request := Some(ToggleUpdates(task));
    }

    /** The `finally` of `handleToggleComplete`, on success or failure alike. */
    method EndToggle()
      modifies this
      ensures !isCompleting && isDeleting == old(isDeleting)
    {
      isCompleting := false;
    }

    /** The start of `handleDelete`: ignored while a delete is in flight,
        otherwise marks one in flight and yields the id to delete. */
    method BeginDelete(task: Task) returns (request: Option<int>)
      modifies this
      ensures old(isDeleting) ==> request.None?
      ensures !old(isDeleting) ==> request == Some(task.Id)
      ensures isDeleting && isCompleting == old(isCompleting)
    {
      if isDeleting {
        request := None;
        return;
      }
      isDeleting := true;
      request := Some(task.Id);
    }

    /** The `finally` of `handleDelete`. */
    method EndDelete()
      modifies this
      ensures !isDeleting && isCompleting == old(isCompleting)
    {
      isDeleting := false;
    }
  }

  /** Two clicks before the first request settles send one request; once
      it settles the next click sends again. */
  method DoubleClick(task: Task) returns (first: Option<TaskService.TaskUpdates>, second: Option<TaskService.TaskUpdates>, third: Option<TaskService.TaskUpdates>)
    ensures first == Some(ToggleUpdates(task)) && second.None? && third == first
  {
    var card := new CardState();
    first := card.BeginToggle(task);
    second := card.BeginToggle(task);
    card.EndToggle();
    third := card.BeginToggle(task);
  }
}
