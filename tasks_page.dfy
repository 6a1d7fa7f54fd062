/** The main tasks screen (TasksPage.jsx): its list updaters, the form
    state around them, the per-category counter handed to the filter and
    the two totals. */
module TasksPage {
  import opened Wrappers
  import opened Records
  import opened JsObject

  /** The page's own state that the handlers change. */
  datatype PageState = PageState(tasks: seq<Task>, showTaskForm: bool, editingTask: Option<Task>)

  /** `handleTaskUpdate` */
  function HandleTaskUpdate(s: PageState, updated: Task): (r: PageState)
    ensures |r.tasks| == |s.tasks| && IdsOf(r.tasks) == IdsOf(s.tasks)
    ensures forall i :: 0 <= i < |s.tasks| ==>
      r.tasks[i] == (if s.tasks[i].Id == updated.Id then updated else s.tasks[i])
    ensures r.showTaskForm == s.showTaskForm && r.editingTask == s.editingTask
  {
    s.(tasks := ReplaceById(s.tasks, updated))
  }

  /** `handleTaskDelete` */
  function HandleTaskDelete(s: PageState, id: int): (r: PageState)
    ensures forall t :: t in r.tasks <==> t in s.tasks && t.Id != id
    ensures r.tasks == RemoveById(s.tasks, id)
    ensures r.showTaskForm == s.showTaskForm && r.editingTask == s.editingTask
  {
    s.(tasks := RemoveById(s.tasks, id))
  }

  /** `handleTaskCreate`: the new task goes first and the form closes. */
  function HandleTaskCreate(s: PageState, created: Task): (r: PageState)
    ensures |r.tasks| == |s.tasks| + 1 && r.tasks[0] == created && r.tasks[1..] == s.tasks
    ensures !r.showTaskForm && r.editingTask.None?
  {
    PageState([created] + s.tasks, false, None)
  }

  /** `handleTaskEdit` */
  function HandleTaskEdit(s: PageState, task: Task): (r: PageState)
    ensures r.tasks == s.tasks && r.showTaskForm && r.editingTask == Some(task)
  {
    s.(showTaskForm := true, editingTask := Some(task))
  }

  /** `handleFormCancel` */
  function HandleFormCancel(s: PageState): (r: PageState)
    ensures r.tasks == s.tasks && !r.showTaskForm && r.editingTask.None?
  {
    s.(showTaskForm := false, editingTask := None)
  }

  /** `handleFormSubmit`: the saved task replaces its old entry when the
      form was editing, and is prepended otherwise; the form then closes. */
  function HandleFormSubmit(s: PageState, saved: Task): (r: PageState)
    ensures s.editingTask.Some? ==> r.tasks == ReplaceById(s.tasks, saved)
    ensures s.editingTask.None? ==> r.tasks == [saved] + s.tasks
    ensures !r.showTaskForm && r.editingTask.None?
  {
    var next := if s.editingTask.Some? then HandleTaskUpdate(s, saved) else HandleTaskCreate(s, saved);
    next.(showTaskForm := false, editingTask := None)
  }

  /** Editing a task and submitting it back keeps the ids in place; opening
      the form to create and submitting adds one task at the front. */
  lemma EditThenSubmit(s: PageState, task: Task, saved: Task)
    ensures var r := HandleFormSubmit(HandleTaskEdit(s, task), saved);
      IdsOf(r.tasks) == IdsOf(s.tasks) && |r.tasks| == |s.tasks|
    ensures var r := HandleFormSubmit(HandleFormCancel(s), saved);
      |r.tasks| == |s.tasks| + 1 && r.tasks[0] == saved
  {
  }

  function NamesOf(cs: seq<Category>): seq<string> {
    seq(|cs|, i requires 0 <= i < |cs| => cs[i].name)
  }

  /** `counts` holds, for each name among `names`, that category's number
      of tasks, and no other key. */
  ghost predicate CountsFor(counts: Entries, names: seq<string>, tasks: seq<Task>) {
    && DistinctKeys(counts)
    && forall k :: Lookup(counts, k) == if k in names then Some(CountInCategory(tasks, k)) else None
  }

  lemma PutCount(counts: Entries, names: seq<string>, tasks: seq<Task>, name: string)
    requires CountsFor(counts, names, tasks)
    ensures CountsFor(Put(counts, name, CountInCategory(tasks, name)), names + [name], tasks)
    ensures |Put(counts, name, CountInCategory(tasks, name))| <= |counts| + 1
  {
    var r := Put(counts, name, CountInCategory(tasks, name));
    forall k ensures Lookup(r, k) == if k in names + [name] then Some(CountInCategory(tasks, k)) else None {
      assert k in names + [name] <==> k in names || k == name;
    }
  }

  lemma NamesOfStep(cs: seq<Category>, i: int)
    requires 0 <= i < |cs|
    ensures NamesOf(cs[..i + 1]) == NamesOf(cs[..i]) + [cs[i].name]
  {
  }

  /** `getTaskCounts` */
  method GetTaskCounts(categories: seq<Category>, tasks: seq<Task>) returns (counts: Entries)
    ensures CountsFor(counts, NamesOf(categories), tasks)
    ensures |counts| <= |categories|
  {
    counts := [];
    var i := 0;
    while i < |categories|
      invariant 0 <= i <= |categories|
      invariant CountsFor(counts, NamesOf(categories[..i]), tasks)
      invariant |counts| <= i
    {
      var name := categories[i].name;
      NamesOfStep(categories, i);
      PutCount(counts, NamesOf(categories[..i]), tasks, name);
      counts := Put(counts, name, CountInCategory(tasks, name));
      i := i + 1;
    }
    assert categories[..i] == categories;
    assert NamesOf(categories[..i]) == NamesOf(categories);
  }

  /** Every category listed gets a key, a category without tasks reports 0,
      and a name that is no category's has no key. */
  lemma TaskCountsPerCategory(counts: Entries, categories: seq<Category>, tasks: seq<Task>, c: Category, k: string)
    requires CountsFor(counts, NamesOf(categories), tasks)
    requires c in categories
    ensures Lookup(counts, c.name) == Some(CountInCategory(tasks, c.name))
    ensures (forall t :: t in tasks ==> t.category != c.name) ==> Lookup(counts, c.name) == Some(0)
    ensures (forall x :: x in categories ==> x.name != k) ==> Lookup(counts, k).None?
  {
    var i :| 0 <= i < |categories| && categories[i] == c;
    assert NamesOf(categories)[i] == c.name;
    if forall t :: t in tasks ==> t.category != c.name {
      assert c.name !in multiset(CategoriesOf(tasks));
    }
    if k in NamesOf(categories) {
      var j :| 0 <= j < |categories| && NamesOf(categories)[j] == k;
      assert categories[j] in categories;
    }
  }

  /** `totalTasks`: the tasks still to do. */
  function ActiveCount(tasks: seq<Task>): nat {
    |Incomplete(tasks)|
  }

  /** `completedTasks`: the tasks done. */
  function DoneCount(tasks: seq<Task>): nat {
    |Completed(tasks)|
  }

  /** The two totals shown in the sidebar add up to the number of tasks. */
  lemma TotalsAddUp(tasks: seq<Task>)
    ensures ActiveCount(tasks) + DoneCount(tasks) == |tasks|
  {
    ActiveDoneSplit(tasks);
  }
}
