/** The record rules of the remote task service (taskService.js): the
    payload `create` sends, the payload `update` builds field by field, and
    how each write interprets the response the transport returns. The
    transport itself is a parameter: a response is given, not fetched. */
module TaskService {
  import opened Wrappers
  import opened Seqs

  /** JavaScript truthiness of an optional string: `undefined`, `null` and
      `''` are falsy. */
  predicate Truthy(s: Option<string>) {
    s.Some? && s.value != ""
  }

  /** `a || b` on optional strings. */
  function Or(a: Option<string>, b: Option<string>): (r: Option<string>)
    ensures Truthy(a) ==> r == a
    ensures !Truthy(a) ==> r == b
  {
    if Truthy(a) then a else b
  }

  // ---------------------------------------------------------------------
  // create
  // ---------------------------------------------------------------------

  /** What a caller passes to `create`; `None` stands for `undefined` or
      `null`. Due dates are the date strings the form holds. The completion
      fields are read by nothing and stand for whatever the caller may put
      there. */
  datatype TaskDraft = TaskDraft(
    Name: Option<string>,
    Tags: Option<string>,
    Owner: Option<string>,
    title: Option<string>,
    category: Option<string>,
    priority: Option<string>,
    due_date: Option<string>,
    dueDate: Option<string>,
    completed: Option<bool>,
    created_at: Option<int>,
    completed_at: Option<int>)

  /** The record `create` sends (`updateableData`). */
  datatype NewTaskRecord = NewTaskRecord(
    Name: string,
    Tags: string,
    Owner: Option<string>,
    title: string,
    completed: bool,
    category: string,
    priority: string,
    due_date: Option<string>,
    created_at: int,
    completed_at: Option<int>)

  const DefaultPriority: string := "medium"

  /** The create payload for `draft` at instant `now`. */
  function CreatePayload(draft: TaskDraft, now: int): (p: NewTaskRecord)
    ensures !p.completed && p.completed_at.None? && p.created_at == now
    ensures p.priority == if Truthy(draft.priority) then draft.priority.value else DefaultPriority
    ensures p.category == if Truthy(draft.category) then draft.category.value else ""
    ensures p.title == if Truthy(draft.title) then draft.title.value
                       else if Truthy(draft.Name) then draft.Name.value else ""
    ensures p.Name == if Truthy(draft.Name) then draft.Name.value
                      else if Truthy(draft.title) then draft.title.value else ""
    ensures p.due_date == if Truthy(draft.due_date) then draft.due_date
                          else if Truthy(draft.dueDate) then draft.dueDate else None
    ensures p.Tags == if Truthy(draft.Tags) then draft.Tags.value else ""
    ensures p.Owner == if Truthy(draft.Owner) then draft.Owner else None
  {
    NewTaskRecord(
      Name := Or(Or(draft.Name, draft.title), Some("")).value,
      Tags := Or(draft.Tags, Some("")).value,
      Owner := if Truthy(draft.Owner) then draft.Owner else None,
      title := Or(Or(draft.title, draft.Name), Some("")).value,
      completed := false,
      category := Or(draft.category, Some("")).value,
      priority := Or(draft.priority, Some(DefaultPriority)).value,
      due_date := Or(Or(draft.due_date, draft.dueDate), None),
      created_at := now,
      completed_at := None)
  }

  /** Whatever completion state a draft claims, the payload is the same: a
      new task is never created completed. */
  lemma CreateIgnoresCompletion(d: TaskDraft, now: int, completed: Option<bool>, createdAt: Option<int>, completedAt: Option<int>)
    ensures CreatePayload(d.(completed := completed, created_at := createdAt, completed_at := completedAt), now)
         == CreatePayload(d, now)
  {
  }

  /** `Name` and `title` fall back on each other, so one is empty only when
      both are; a priority is always present. */
  lemma CreateNameAndTitle(d: TaskDraft, now: int)
    ensures var p := CreatePayload(d, now);
      (p.title == "" <==> p.Name == "") &&
      (p.title == "" <==> !Truthy(d.title) && !Truthy(d.Name)) &&
      p.priority != ""
  {
  }

  // ---------------------------------------------------------------------
  // update
  // ---------------------------------------------------------------------

  /** What a caller passes to `update`: `None` for a field that is
      `undefined`; `Some(None)` for a nullable field explicitly set to `null`. */
  datatype TaskUpdates = TaskUpdates(
    Name: Option<string>,
    title: Option<string>,
    Tags: Option<string>,
    Owner: Option<Option<string>>,
    completed: Option<bool>,
    category: Option<string>,
    priority: Option<string>,
    due_date: Option<Option<string>>,
    dueDate: Option<Option<string>>)

  function NoUpdates(): TaskUpdates {
    TaskUpdates(None, None, None, None, None, None, None, None, None)
  }

  /** The record `update` sends: `Id` and the fields it has been given,
      `None` for a field absent from the object. */
  datatype UpdateRecord = UpdateRecord(
    Id: int,
    Name: Option<string>,
    title: Option<string>,
    Tags: Option<string>,
    Owner: Option<Option<string>>,
    completed: Option<bool>,
    completed_at: Option<Option<int>>,
    category: Option<string>,
    priority: Option<string>,
    due_date: Option<Option<string>>)

  /** One `if (updates.f !== undefined) updateableData.f = updates.f`:
      the property takes the supplied value, and keeps `current` otherwise. */
  method AssignIfDefined<T>(current: Option<T>, supplied: Option<T>) returns (r: Option<T>)
    ensures supplied.Some? ==> r == supplied
    ensures supplied.None? ==> r == current
  {
    r := current;
    if supplied.Some? {
      r := supplied;
    }
  }

  /** Builds `updateableData` one conditional assignment at a time; each
      local holds one property of the object, `None` while it is unset. */
  method BuildUpdatePayload(id: int, updates: TaskUpdates, now: int) returns (p: UpdateRecord)
    ensures p.Id == id
    ensures p.Name == updates.Name && p.title == updates.title && p.Tags == updates.Tags
    ensures p.Owner == updates.Owner
    ensures p.category == updates.category && p.priority == updates.priority
    ensures p.completed == updates.completed
    ensures p.completed_at.Some? <==> updates.completed.Some?
    ensures updates.completed == Some(true) ==> p.completed_at == Some(Some(now))
    ensures updates.completed == Some(false) ==> p.completed_at == Some(None)
    ensures updates.dueDate.Some? ==> p.due_date == updates.dueDate
    ensures updates.dueDate.None? ==> p.due_date == updates.due_date
  {
    var name := AssignIfDefined(None, updates.Name);
    var title := AssignIfDefined(None, updates.title);
    var tags := AssignIfDefined(None, updates.Tags);
    var owner := AssignIfDefined(None, updates.Owner);
    var completed, completedAt := None, None;
    if updates.completed.Some? {
      completed := updates.completed;
      completedAt := Some(if updates.completed.value then Some(now) else None);
    }
    var category := AssignIfDefined(None, updates.category);
    var priority := AssignIfDefined(None, updates.priority);
    var dueDate := AssignIfDefined(None, updates.due_date);
    dueDate := AssignIfDefined(dueDate, updates.dueDate);
    p := UpdateRecord(id, name, title, tags, owner, completed, completedAt, category, priority, dueDate);
  }

  /** Whether a built record carries only `Id`. */
  predicate OnlyId(p: UpdateRecord) {
    p == UpdateRecord(p.Id, None, None, None, None, None, None, None, None, None)
  }

  /** An update with nothing supplied sends only the id, and one that
      supplies only `completed` sends only `completed` and `completed_at`. */
  method UpdatePayloadMinimal(id: int, completed: bool, now: int) returns (empty: UpdateRecord, toggle: UpdateRecord)
    ensures OnlyId(empty) && empty.Id == id
    ensures toggle.completed == Some(completed)
    ensures toggle.(completed := None, completed_at := None) == UpdateRecord(id, None, None, None, None, None, None, None, None, None)
  {
    empty := BuildUpdatePayload(id, NoUpdates(), now);
    toggle := BuildUpdatePayload(id, NoUpdates().(completed := Some(completed)), now);
  }

  // ---------------------------------------------------------------------
  // Responses
  // ---------------------------------------------------------------------

  /** One entry of `response.results`. */
  datatype RecordResult<D> = RecordResult(success: bool, message: Option<string>, data: Option<D>)

  /** What the transport returns: `response.success`, `response.message`
      and `response.results`, `None` when it is absent. */
  datatype Response<D> = Response(success: bool, message: string, results: Option<seq<RecordResult<D>>>)

  predicate Succeeded<D>(r: RecordResult<D>) { r.success }

  predicate Failed<D>(r: RecordResult<D>) { !r.success }

  /** The error the `forEach` over the failed records throws first: the
      first failed record with a truthy message. */
  function FirstThrown<D>(rs: seq<RecordResult<D>>): (m: Option<string>)
    ensures m.None? <==> forall i :: 0 <= i < |rs| && !rs[i].success ==> !Truthy(rs[i].message)
    ensures m.Some? ==> exists i :: 0 <= i < |rs| && !rs[i].success && rs[i].message == m && Truthy(m)
    ensures forall i ::
      && 0 <= i < |rs| && !rs[i].success && Truthy(rs[i].message)
      && (forall j :: 0 <= j < i ==> rs[j].success || !Truthy(rs[j].message))
      ==> m == rs[i].message
  {
    if rs == [] then None
    else if !rs[0].success && Truthy(rs[0].message) then rs[0].message
    else
      var rest := FirstThrown(rs[1..]);
      assert forall i :: 1 <= i < |rs| ==> rs[i] == rs[1..][i - 1];
      rest
  }

  /** The data of the first successful record, if there is one and it has data. */
  function FirstData<D>(rs: seq<RecordResult<D>>): (d: Option<D>)
    ensures d.Some? ==> exists i :: 0 <= i < |rs| && rs[i].success && rs[i].data == d
    ensures (forall i :: 0 <= i < |rs| ==> !rs[i].success) ==> d.None?
    ensures forall i ::
      && 0 <= i < |rs| && rs[i].success
      && (forall j :: 0 <= j < i ==> !rs[j].success)
      ==> d == rs[i].data
  {
    if rs == [] then None
    else if rs[0].success then rs[0].data
    else
      var rest := FirstData(rs[1..]);
      assert forall i :: 1 <= i < |rs| ==> rs[i] == rs[1..][i - 1];
      rest
  }

  /** What `create` and `update` return for a response: the thrown message,
      or the first successful record's data (`None` for `null`). */
  function WriteOutcome<D>(response: Response<D>): (r: Result<Option<D>, string>)
    ensures !response.success ==> r == Err(response.message)
    ensures response.success && response.results.None? ==> r == Ok(None)
    ensures response.success && response.results.Some? &&
      (forall x :: x in response.results.value && !x.success ==> !Truthy(x.message))
      ==> r == Ok(FirstData(response.results.value))
    ensures r.Err? && response.success ==>
      response.results.Some? && FirstThrown(response.results.value) == Some(r.error)
    ensures response.success && response.results.Some? ==>
      (r.Err? <==> FirstThrown(response.results.value).Some?)
  {
    if !response.success then Err(response.message)
    else if response.results.None? then Ok(None)
    else match FirstThrown(response.results.value)
      case Some(m) => Err(m)
      case None => Ok(FirstData(response.results.value))
  }

  /** A write fails exactly when the response fails or a failed record
      carries a message; a failed record without one is passed over. */
  lemma WriteOutcomeErrors<D>(response: Response<D>)
    ensures WriteOutcome(response).Err? <==>
      !response.success ||
      (response.results.Some? &&
       exists i :: 0 <= i < |response.results.value| &&
         !response.results.value[i].success && Truthy(response.results.value[i].message))
    ensures WriteOutcome(response).Ok? && WriteOutcome(response).value.Some? ==>
      response.results.Some? &&
      exists i :: 0 <= i < |response.results.value| &&
        response.results.value[i].success && response.results.value[i].data == WriteOutcome(response).value
  {
  }

  /** What `delete` returns: whether any record was deleted. */
  function DeleteOutcome<D(!new)>(response: Response<D>): (r: Result<bool, string>)
    ensures !response.success ==> r == Err(response.message)
    ensures response.success && response.results.None? ==> r == Ok(false)
    ensures r.Err? && response.success ==> response.results.Some? && FirstThrown(response.results.value) == Some(r.error)
    ensures response.success && response.results.Some? ==>
      (r.Err? <==> FirstThrown(response.results.value).Some?)
    ensures r.Ok? ==>
      (r.value <==> response.results.Some? && exists i :: 0 <= i < |response.results.value| && response.results.value[i].success)
  {
    if !response.success then Err(response.message)
    else if response.results.None? then Ok(false)
    else match FirstThrown(response.results.value)
      case Some(m) => Err(m)
      case None =>
        var rs := response.results.value;
        var ok := Filter(rs, Succeeded);
        assert |ok| > 0 ==> ok[0] in rs && ok[0].success;
        assert forall i :: 0 <= i < |rs| && rs[i].success ==> rs[i] in ok;
        Ok(|ok| > 0)
  }

  /** What `bulkDelete` returns: failed records are not thrown, only the
      response's own failure is. */
  function BulkDeleteOutcome<D(!new)>(response: Response<D>): (r: Result<seq<RecordResult<D>>, string>)
    ensures !response.success ==> r == Err(response.message)
    ensures response.success ==> r.Ok?
    ensures response.success && response.results.None? ==> r == Ok([])
    ensures response.success && response.results.Some? ==>
      forall x :: x in r.value <==> x in response.results.value && x.success
  {
    if !response.success then Err(response.message)
    else if response.results.None? then Ok([])
    else Ok(Filter(response.results.value, Succeeded))
  }

  /** The successful results come back in the transport's order, each as
      many times as it was reported. */
  lemma BulkDeleteKeepsOrder<D(!new)>(response: Response<D>, more: seq<RecordResult<D>>)
    requires response.success && response.results.Some?
    ensures var rs := response.results.value;
      BulkDeleteOutcome(response.(results := Some(rs + more))).value
        == BulkDeleteOutcome(response).value + Filter(more, Succeeded)
  {
    FilterConcat(response.results.value, more, Succeeded);
  }
}
