# Task manager core, modelled in Dafny

This project models the core of a single-page task manager. Its tasks live
in a remote record store. Its categories live in an in-memory service.
The modelled parts, module by module:

- **ViewEngine**: the task list's derived view (`TaskList.jsx`). It applies
  a case-insensitive search on title and category, then the category
  filter. It then runs a stable sort: by priority, by due date (undated
  tasks last), or newest first. Last, it puts active tasks before completed
  ones. `Seqs` holds the order-preserving filter and the stable insertion
  sort it is built from. `Text` holds `trim`, `toLowerCase` and `includes`.
- **CompletedPage**: the completed-tasks screen (`CompletedPage.jsx`).
  - The list is kept to completed tasks.
  - Tasks are filtered by completion time (this week, this month).
  - `GroupByDate` groups them by local completion day. It is a method with
    a loop over a map, as in the source, and is proved against the
    predicate `GroupedByDay`. Groups run from the latest day first; within
    a group, the newest task comes first.
  - `StatsForFilter` counts the tasks per category and keeps the three
    largest counts, breaking ties by first appearance.
- **CategoryService**: the module-level category array, as a class with
  `create`, `update`, `delete`, `getAll` and `getById`. Ids stay unique.
- **TaskService**: the payloads sent to the record store and the
  interpretation of its responses. That covers the `||` defaults of
  `create`, the field-by-field `update` payload (with `completed_at`
  stamped on completion), and the error and result handling of `create`,
  `update`, `delete` and `bulkDelete`.
- **TasksPage**, **CategoriesPage**, **CategoryFilter**, **TaskForm**,
  **TaskCard**, **Layout**: the screens. Each has its state updates, its
  guards (a category with tasks cannot be deleted; an invalid form sends
  nothing; a card ignores a second click while busy) and its derived
  figures. Those figures are the per-category counts and their total, the
  due-date label, and today's progress percentage.

Three supporting modules: `Records` holds the task and category records and
the list updates several screens share. `JsObject` models a JavaScript
object used as a string-keyed counter (insertion-ordered entries).
`Wrappers` holds `Option` and `Result`.

**Field names.** The task service writes snake_case fields (`due_date`,
`created_at`, `completed_at`). The task list, card and form read camelCase
ones (`dueDate`, `createdAt`, `completedAt`). The layout reads `due_date`.
The model keeps this mismatch, not a reconciled record:

- `Records.Task` carries both spellings of all three fields, each optional.
  `Records.FromStore` says a task is as the service returns it, with none of
  the camelCase fields.
- The form reads `dueDate`, so a stored task opens with an empty due date.
  Submitting it then sends `due_date: null`. `TaskForm.EditOfStoredTaskClearsDueDate`
  states this.
- The card formats `dueDate`, so a stored task shows no due label
  (`TaskCard.StoredTaskShowsNoDueLabel`).
- The task list sorts stored tasks by due date and by creation in input
  order, because every comparison is a tie (`ViewEngine.ViewOfStoredTasks`).
- The completed page shows no day group for stored tasks
  (`CompletedPage.StoredTasksFormNoGroups`). Its week and month filters keep
  none of them (`CompletedPage.StoredTasksInNoPeriod`).

**Dates.** Dates are whole numbers. An instant is a count of local-time
seconds, and `Records.DayOf` gives its calendar day. Due dates are day
numbers. "Today", "now" and the bounds of this week and this month are
parameters (`CompletedPage.Calendar`).

## Model

| member | source | states |
|---|---|---|
| ViewEngine.ParseSortKey | src/components/organisms/TaskList.jsx:40-56 | "priority" and "dueDate" select their orders; any other key selects the creation order |
| ViewEngine.RankAgreesWithCompare | src/components/organisms/TaskList.jsx:40-56 | a rank order is never against the comparator; when both or neither task has a creation time, `a` may precede `b` iff the comparator is not positive, and ties are equal ranks; the comparator is antisymmetric |
| ViewEngine.CreatedCompareInconsistent | src/components/organisms/TaskList.jsx:52-54 | a task without a creation time ties with two tasks that do not tie with each other, so the creation comparator is not a consistent order |
| ViewEngine.SearchFilter | src/components/organisms/TaskList.jsx:26-32 | an empty query keeps every task; otherwise a task is kept iff the lower-cased query occurs in its lower-cased title or category |
| ViewEngine.CategoryFilter | src/components/organisms/TaskList.jsx:35-37 | with no (or an empty) active category every task is kept; otherwise exactly the tasks of that category |
| ViewEngine.SearchIgnoresCase | src/components/organisms/TaskList.jsx:27-31 | two queries with the same lower-case form select the same tasks |
| ViewEngine.ViewIsPermutation | src/components/organisms/TaskList.jsx:22-63 | the view is a permutation of the filtered tasks: nothing lost, duplicated or added |
| ViewEngine.ViewActiveFirst | src/components/organisms/TaskList.jsx:58-62 | every active task precedes every completed one |
| ViewEngine.ViewSortedWithinPartition | src/components/organisms/TaskList.jsx:40-62 | within each partition, any two tasks are in the comparator's order |
| ViewEngine.ViewPriorityOrder | src/components/organisms/TaskList.jsx:42-44 | by priority: high before medium before low, within each partition |
| ViewEngine.ViewDueDateOrder | src/components/organisms/TaskList.jsx:46-50 | by due date: dated tasks ascending, undated tasks after all dated ones |
| ViewEngine.ViewCreatedOrder | src/components/organisms/TaskList.jsx:52-54 | by creation (the default): newest first, among tasks with a creation time in one partition |
| ViewEngine.ViewOfStoredTasks | src/components/organisms/TaskList.jsx:22-62 | tasks as the service returns them, sorted by due date or by creation, keep their filtered input order, active first |
| ViewEngine.ViewStable | src/components/organisms/TaskList.jsx:40-62 | ties keep input order: the tasks of one rank appear in the view as in the filtered input, active first |
| ViewEngine.RenderPartition | src/components/organisms/TaskList.jsx:157-158 | splitting the view again at render time gives back the two sorted partitions |
| Seqs.Filter | src/components/organisms/TaskList.jsx:28-36 | the filter keeps exactly the elements satisfying the predicate, and is no longer than its input |
| Seqs.FilterCounts | src/components/organisms/TaskList.jsx:28-36 | the filter keeps every occurrence of a kept element and none of a dropped one |
| Seqs.FilterConcat | src/components/organisms/TaskList.jsx:58-62 | filtering distributes over concatenation |
| Seqs.InsertCounts | src/components/organisms/TaskList.jsx:40-56 | one insertion step adds exactly one occurrence of the element |
| Seqs.SortByKey | src/components/organisms/TaskList.jsx:40-56 | the sort returns a permutation of its input |
| Seqs.SortByKeySorted | src/components/organisms/TaskList.jsx:40-56 | the sort's output is ordered by the key |
| Seqs.SortByKeyStable | src/components/organisms/TaskList.jsx:40-56 | equal keys keep their input order (`Array.prototype.sort` is stable) |
| Seqs.SortByKeyConstant | src/components/organisms/TaskList.jsx:40-56 | when every element has the same key the sort returns its input unchanged |
| Seqs.FilterSorted | src/components/organisms/TaskList.jsx:58-62 | filtering a sorted sequence keeps it sorted |
| Seqs.WithRankFilter | src/components/organisms/TaskList.jsx:58-62 | selecting one rank commutes with filtering |
| Text.TrimEmptyIff | src/components/molecules/TaskForm.jsx:44 | `trim()` is empty iff the string is whitespace only |
| Text.ContainsIff | src/components/organisms/TaskList.jsx:29-30 | `includes` holds iff the query occurs at some position |
| Text.LowerLength | src/components/organisms/TaskList.jsx:27-31 | lower-casing keeps the length |
| Records.ActiveDoneSplit | src/components/organisms/TaskList.jsx:58-62 | the active and the completed tasks together are all the tasks, counted with multiplicity |
| Records.CountInCategory | src/components/pages/CategoriesPage.jsx:60-62 | the number of tasks of a category is the number of times its name occurs among the tasks' categories |
| Records.ReplaceById | src/components/pages/TasksPage.jsx:47-51 | the mapped list keeps length and ids; each task with the updated id becomes the update, the others stay |
| Records.RemoveById | src/components/pages/TasksPage.jsx:53-55 | removes every task with the id and keeps every other occurrence |
| Records.RemoveByIdConcat | src/components/pages/TasksPage.jsx:53-55 | removal by id distributes over concatenation, so order is kept |
| JsObject.IndexOfKey | src/components/pages/CompletedPage.jsx:116 | finds the first entry with the key, and none exactly when the key is absent |
| JsObject.Lookup | src/components/molecules/CategoryFilter.jsx:62 | a property read gives a value iff the key is present |
| JsObject.Put | src/components/pages/TasksPage.jsx:86 | a property write sets that key and no other; a new key is appended; keys stay distinct |
| TasksPage.HandleTaskUpdate | src/components/pages/TasksPage.jsx:47-51 | each task with the updated id is replaced by the update; the other tasks and the form state stay |
| TasksPage.HandleTaskDelete | src/components/pages/TasksPage.jsx:53-55 | exactly the tasks without the id remain, as `Records.RemoveById` leaves them (in their order, by `Records.RemoveByIdConcat`); the form state stays |
| TasksPage.HandleTaskCreate | src/components/pages/TasksPage.jsx:57-61 | the created task goes first, ahead of the old list; the form closes |
| TasksPage.HandleTaskEdit | src/components/pages/TasksPage.jsx:63-66 | opens the form on that task |
| TasksPage.HandleFormSubmit | src/components/pages/TasksPage.jsx:68-76 | when editing, the saved task replaces its entry; otherwise it is prepended; the form closes |
| TasksPage.HandleFormCancel | src/components/pages/TasksPage.jsx:78-81 | closes the form and clears the edited task |
| TasksPage.EditThenSubmit | src/components/pages/TasksPage.jsx:63-76 | edit then submit keeps ids and length; cancel then submit adds the saved task in front |
| TasksPage.GetTaskCounts | src/components/pages/TasksPage.jsx:83-89 | the counter holds, for each category name, that category's number of tasks, and no other key |
| TasksPage.TaskCountsPerCategory | src/components/pages/TasksPage.jsx:83-89 | every listed category has its count, a category without tasks has 0, and a name with no category has no key |
| TasksPage.TotalsAddUp | src/components/pages/TasksPage.jsx:92-93 | the active and completed totals add up to the number of tasks |
| CategoryFilter.AllTasksCountOfPageCounts | src/components/molecules/CategoryFilter.jsx:12 | "All" shows the number of tasks whose category is listed, which is every task when every category is listed |
| CategoryFilter.SumOfCounts | src/components/molecules/CategoryFilter.jsx:12 | summing a counter with distinct keys counts each task of a listed category once |
| CategoryFilter.Toggle | src/components/molecules/CategoryFilter.jsx:14-18 | clicking the active category clears the filter; any other click selects it |
| CategoryFilter.ToggleProperties | src/components/molecules/CategoryFilter.jsx:14-18 | "All" always clears; a click makes a category active iff it was not; clicking twice clears |
| CategoryFilter.DisplayedCount | src/components/molecules/CategoryFilter.jsx:62 | a missing key shows 0; a present key shows its value |
| CategoryFilter.DisplayedCountOfPageCounts | src/components/molecules/CategoryFilter.jsx:62 | with the page's counter, a listed category shows its number of tasks, and any other name shows 0 |
| CompletedPage.LoadedAreCompleted | src/components/pages/CompletedPage.jsx:32 | the loaded list is exactly the completed tasks, with their multiplicity, and loading more appends |
| CompletedPage.AfterTaskUpdate | src/components/pages/CompletedPage.jsx:42-51 | a still-completed update replaces in place; an un-completed one is removed as `Records.RemoveById` removes it; the list stays all completed |
| CompletedPage.AfterTaskDelete | src/components/pages/CompletedPage.jsx:53-55 | exactly the tasks without the id remain, as `Records.RemoveById` leaves them, all still completed |
| CompletedPage.FilterByTime | src/components/pages/CompletedPage.jsx:57-74 | "all" keeps every task; otherwise exactly the tasks with a completion time within the period |
| CompletedPage.GroupByDate | src/components/pages/CompletedPage.jsx:86-107 | the groups run from the latest day first; each holds exactly the tasks completed that day, newest first; every task with a completion time is in a group |
| CompletedPage.CollectByDay | src/components/pages/CompletedPage.jsx:89-97 | the map holds, per day, the tasks completed that day in list order; the first-seen key order lists each day once |
| CompletedPage.DaysLatestFirst | src/components/pages/CompletedPage.jsx:100 | the sorted day keys are the collected keys, strictly descending |
| CompletedPage.StoredTasksFormNoGroups | src/components/pages/CompletedPage.jsx:86-91 | tasks without a completion time, as the service returns them, form no day group |
| CompletedPage.GroupMembership | src/components/pages/CompletedPage.jsx:86-107 | a task is in a group iff it was completed on that group's day; every completed task is in exactly one group |
| CompletedPage.GroupNewestFirst | src/components/pages/CompletedPage.jsx:105 | within a group completion times descend, and equal times keep list order |
| CompletedPage.VisibleGroups | src/components/pages/CompletedPage.jsx:76-86 | the shown groups are the grouping of the search-then-time-filtered tasks |
| CompletedPage.StatsForFilter | src/components/pages/CompletedPage.jsx:111-125 | the total is the number of tasks in the period; the top categories are the three largest of the per-category tally |
| CompletedPage.TallyCounts | src/components/pages/CompletedPage.jsx:115-117 | the tally holds every category of the tasks once, with its number of tasks, and nothing else |
| CompletedPage.TallyFirstSeenOrder | src/components/pages/CompletedPage.jsx:115-117 | the tally lists categories in order of first appearance |
| CompletedPage.TopCategoriesOrder | src/components/pages/CompletedPage.jsx:121-123 | at most three entries, exactly three when there are three categories, counts descending |
| CompletedPage.TopCategoriesCounts | src/components/pages/CompletedPage.jsx:121-123 | each top entry's count is that category's positive number of tasks |
| CompletedPage.TopCategoriesDominate | src/components/pages/CompletedPage.jsx:121-123 | no category left out has a larger count than one kept |
| CompletedPage.TopCategoriesTies | src/components/pages/CompletedPage.jsx:121-123 | among equal counts the kept ones are the first seen |
| CategoryService.MaxId | src/services/api/categoryService.js:23 | the maximum id, or 0: at least every id, and one of them unless 0 |
| CategoryService.FindById | src/services/api/categoryService.js:13-17 | a found category has the id; none is found iff no category has it |
| CategoryService.NewCategory | src/services/api/categoryService.js:19-27 | the new id is one more than the largest existing id (1 for none), so above every existing id; the fields are the given ones |
| CategoryService.MergeFields | src/services/api/categoryService.js:36-42 | a supplied field wins, an absent one stays, the id is kept; merging is idempotent |
| CategoryService.CreateKeepsIdsUnique | src/services/api/categoryService.js:19-27 | after a create ids stay unique and the new category is found by its id |
| CategoryService.DeleteRemovesOnlyThatId | src/services/api/categoryService.js:46-56 | after a delete the id is gone and every other category remains |
| CategoryService.CategoryStore.constructor | src/services/api/categoryService.js:5 | the store starts with the seed data |
| CategoryService.CategoryStore.GetAll | src/services/api/categoryService.js:8-11 | returns the current array |
| CategoryService.CategoryStore.GetById | src/services/api/categoryService.js:13-17 | returns the first category with the id, or nothing |
| CategoryService.CategoryStore.Create | src/services/api/categoryService.js:19-27 | appends the new category and returns it; unique ids are kept |
| CategoryService.CategoryStore.Update | src/services/api/categoryService.js:29-44 | an unknown id raises "not found" and changes nothing; otherwise the first match is merged in place and returned |
| CategoryService.CategoryStore.Delete | src/services/api/categoryService.js:46-56 | an unknown id raises "not found" and changes nothing; otherwise the first match is spliced out and returned |
| CategoriesPage.TaskCountIsCount | src/components/pages/CategoriesPage.jsx:60-62 | the count is the category's number of tasks, positive iff some task has that category |
| CategoriesPage.NameAcceptedIff | src/components/pages/CategoriesPage.jsx:67-70 | a name is refused iff it is whitespace only |
| CategoriesPage.ReplaceCategory | src/components/pages/CategoriesPage.jsx:77-79 | each category with the saved id becomes the saved one; the others stay |
| CategoriesPage.RemoveCategory | src/components/pages/CategoriesPage.jsx:120 | exactly the categories without the id remain, each with its multiplicity |
| CategoriesPage.DeleteGuard | src/components/pages/CategoriesPage.jsx:105-116 | the guard fails on a missing category iff no category has the id; a found category with tasks is always blocked, with its positive count; an unconfirmed delete never proceeds; it proceeds only when confirmed for a category without tasks |
| CategoriesPage.DeleteDisabledIffBlocked | src/components/pages/CategoriesPage.jsx:105-112 | the disabled button and the handler's guard agree: both block iff some task uses the category (line 237) |
| CategoriesPage.Page.constructor | src/components/pages/CategoriesPage.jsx:18-24 | the form is closed, nothing is being edited, the form holds the defaults |
| CategoriesPage.Page.HandleEdit | src/components/pages/CategoriesPage.jsx:95-103 | opens the form on the category's fields |
| CategoriesPage.Page.HandleCancel | src/components/pages/CategoriesPage.jsx:127-131 | closes and resets the form |
| CategoriesPage.Page.HandleSubmit | src/components/pages/CategoriesPage.jsx:64-93 | a blank name changes nothing; an edit merges into the store and replaces the entry; a create appends to the store and prepends to the page; a failed update changes nothing, and the form stays open on the same category; success resets the form |
| CategoriesPage.Page.HandleDelete | src/components/pages/CategoriesPage.jsx:105-125 | missing, in use or unconfirmed changes nothing; otherwise the store splices the category and the page drops it; the form is never touched |
| TaskService.Or | src/services/api/taskService.js:89-96 | `a \|\| b`: a truthy `a` wins, otherwise `b` |
| TaskService.CreatePayload | src/services/api/taskService.js:88-99 | not completed, stamped now; priority defaults to "medium"; title and Name fall back to each other; due_date falls back to dueDate; Tags defaults to the empty string and Owner to null |
| TaskService.CreateIgnoresCompletion | src/services/api/taskService.js:93-98 | the caller's completion and timestamps never reach the payload |
| TaskService.CreateNameAndTitle | src/services/api/taskService.js:89-95 | title and Name are empty together, and only when neither is given; priority is never empty |
| TaskService.AssignIfDefined | src/services/api/taskService.js:146-157 | a property is set to the supplied value when one is given, and keeps its value otherwise |
| TaskService.BuildUpdatePayload | src/services/api/taskService.js:142-157 | copies exactly the supplied fields; completed_at is stamped now or cleared iff completed is supplied; dueDate overrides due_date |
| TaskService.UpdatePayloadMinimal | src/services/api/taskService.js:142-157 | no updates send only the id; a toggle sends only the id, completed and completed_at |
| TaskService.FirstThrown | src/services/api/taskService.js:113-119 | the error thrown is the truthy message of the first failed record that has one; none iff no failed record has one |
| TaskService.WriteOutcome | src/services/api/taskService.js:107-126 | a failed response raises its message; no results give null; otherwise it raises iff a failed record has a message, the first such message, and else returns the first successful record's data |
| TaskService.WriteOutcomeErrors | src/services/api/taskService.js:165-184 | raises iff the response failed or some failed record has a message; returned data comes from a successful record |
| TaskService.DeleteOutcome | src/services/api/taskService.js:203-223 | a failed response raises; no results give false; otherwise it raises iff a failed record has a message, the first such message, and else returns whether some record succeeded |
| TaskService.BulkDeleteOutcome | src/services/api/taskService.js:242-259 | a failed response raises; otherwise exactly the successful records, none without results |
| TaskService.BulkDeleteKeepsOrder | src/services/api/taskService.js:256 | the successful records are returned in the response's order |
| TaskForm.InitialForm | src/components/molecules/TaskForm.jsx:9-38 | without a task the defaults; category and priority are never empty |
| TaskForm.InitialFormOfTask | src/components/molecules/TaskForm.jsx:31-38 | a task with all four fields opens with them, one with none opens with the defaults |
| TaskForm.ValidIff | src/components/molecules/TaskForm.jsx:41-54 | valid iff the title is not whitespace only and a category is set |
| TaskForm.InitialFormValidIffTitle | src/components/molecules/TaskForm.jsx:9-54 | an opened form is valid iff its title is not blank; a new form is not valid |
| TaskForm.ValidateForm | src/components/molecules/TaskForm.jsx:41-54 | each error key is present iff its field fails, with its message; no other keys; ok iff no errors iff valid |
| TaskForm.HandleSubmit | src/components/molecules/TaskForm.jsx:56-101 | invalid sends nothing; editing sends an update; otherwise a create; the form resets only after a saved create |
| TaskForm.CreateFromForm | src/components/molecules/TaskForm.jsx:74-79 | a valid form's create payload carries its title, category, priority and due date |
| TaskForm.EditPayload | src/components/molecules/TaskForm.jsx:67-72 | an edit sends title, category, priority and a due_date (null when empty), and never touches completion |
| TaskForm.EditOfStoredTaskClearsDueDate | src/components/molecules/TaskForm.jsx:36 | a stored task without `dueDate` opens with an empty due date, and submitting it sends `due_date: null` |
| TaskForm.HandleChange | src/components/molecules/TaskForm.jsx:103-108 | sets only that field and clears only that field's shown error |
| TaskForm.TypingClearsErrors | src/components/molecules/TaskForm.jsx:103-108 | typing into both failing fields clears every shown error |
| TaskCard.PriorityColor | src/components/molecules/TaskCard.jsx:60-67 | "high", "medium" and "low" get their three colours; an unknown priority gets the neutral colour |
| TaskCard.PriorityColorsDistinct | src/components/molecules/TaskCard.jsx:60-67 | the three priorities get three distinct, non-neutral colours |
| TaskCard.StoredTaskShowsNoDueLabel | src/components/molecules/TaskCard.jsx:85 | the card formats `dueDate`, so a task as the service returns it never shows a due label |
| TaskCard.FormatDueDate | src/components/molecules/TaskCard.jsx:69-83 | no date gives no label; today gives "Today" (urgent); a past day gives "Overdue" (urgent, overdue); a later day gives its date (not urgent) |
| TaskCard.DueLabelAges | src/components/molecules/TaskCard.jsx:69-83 | overdue implies urgent; a "Today" label becomes "Overdue" on any later day |
| TaskCard.ToggleUpdates | src/components/molecules/TaskCard.jsx:21-23 | the toggle sends only the negated completion |
| TaskCard.ToggleRecord | src/components/molecules/TaskCard.jsx:21-23 | the toggle record carries the id and the negated completion, stamped now when completing and cleared otherwise |
| TaskCard.CardState.constructor | src/components/molecules/TaskCard.jsx:16-58 | the card starts idle |
| TaskCard.CardState.BeginToggle | src/components/molecules/TaskCard.jsx:16-24 | a toggle while one is in flight sends nothing; otherwise it sends the toggle and marks the card busy |
| TaskCard.CardState.EndToggle | src/components/molecules/TaskCard.jsx:36-38 | the `finally` clears the busy flag |
| TaskCard.CardState.BeginDelete | src/components/molecules/TaskCard.jsx:41-46 | a delete while one is in flight sends nothing; otherwise it sends the id |
| TaskCard.CardState.EndDelete | src/components/molecules/TaskCard.jsx:55-57 | the `finally` clears the deleting flag |
| TaskCard.DoubleClick | src/components/molecules/TaskCard.jsx:16-39 | a second click during a toggle sends nothing; a click after it ends sends again |
| Layout.TodayProgressBounds | src/Layout.jsx:27-38 | the percentage lies in [0, 100]; it is 100 iff some task is due today and all of them are done; it is 0 iff none due today is done |
| CompletedPage.StoredTasksInNoPeriod | src/components/pages/CompletedPage.jsx:57-62 | the week and month filters keep none of the tasks the service returns, so their tally and top categories are empty |
| Layout.CompletingRaisesProgress | src/Layout.jsx:27-38 | completing an open task due today raises the percentage |

## Left out

- The record store's transport (the SDK client, its project keys, `createRecord`/`updateRecord`/`deleteRecord`): a response is an input to `TaskService.WriteOutcome` and its siblings. A call that fails outright is `saved == false` or a `SaveFailed` outcome.
- `taskService.getAll`, `getById`, `getByCategory`, `search` and `reorder`, and the screens' loading effects: their results are inputs (the lists the pages hold).
- The service's `delay` and the 300 ms timeouts: timing does not change any state modelled here.
- React rendering, animation, toasts, `console` output, the loading and error flags, and TaskForm's own category loading: presentation only.
- `window.confirm`: a boolean parameter of `CategoriesPage.Page.HandleDelete`.
- Date parsing and formatting (date-fns `parseISO`, `format`, `isToday`, `isPast`, `isThisWeek`, `isThisMonth`, Layout's `new Date(...).toDateString()`):
  - instants are local-time seconds and days are day numbers;
  - src/Layout.jsx:30 reads a date-only `due_date` as UTC midnight and compares its local day, while TaskCard's `parseISO` (src/components/molecules/TaskCard.jsx:72) reads local midnight; west of UTC the layout counts a task as due the day before the card does, and the model gives both the same day;
  - the week and month bounds are a `Calendar` parameter;
  - the "MMM d" and "EEEE, MMMM d" texts are `DateText(day)` and the day number.
- `new Date().toISOString()`: this is the `now` parameter, as an integer instant.
- `parseInt(id, 10)` on ids: ids are integers already.
- Floating point: today's progress is a `real` ratio, with no rounding.
- `toLowerCase` outside ASCII: `Text.LowerChar` maps only `A`–`Z`.
- The `category.Name || category.name` fallbacks in CategoriesPage and in `TasksPage.GetTaskCounts` (src/components/pages/TasksPage.jsx:86): categories carry only `name`.
- Category records' extra fields: only `Id`, `name`, `color` and `icon` are carried.
- TaskForm's reaction to `task` becoming `null`: the effect only copies a present task. `TaskForm.InitialForm` models the mount.
- A service result of `null` handed to a page updater (for example `onUpdate(null)`): the updaters take a task.
- A `TypeError` thrown by CategoriesPage `handleDelete` when the id is not on the page: it is modelled as the `Missing` outcome.
- JsObject.Lookup and JsObject.Put, and so TasksPage.GetTaskCounts, CompletedPage.Tally and CategoryFilter.DisplayedCount, do not model category names that are properties of `Object.prototype` (`__proto__`, `toString`, `constructor`, `valueOf` and the rest). For those names the source's `{}` counter differs: `counts['__proto__'] = n` creates no entry, and `categories[k] || 0` reads the inherited value. The model treats every name as an ordinary key, so its counting lemmas hold only for names that are not inherited properties.
- JavaScript's property order for array-index-like keys: `Object.entries` lists such category names first. `JsObject` keeps plain insertion order.
- TaskCard's due-date input: `TaskCard.FormatDueDate` takes a day number, with an empty string read as no date.
- TaskCard's colours and styling beyond the priority colour: presentation only.
- ProgressRing and the other atoms and molecules: presentation only.
- The order of a list that mixes tasks with and without `createdAt` under the creation sort: the comparator gives NaN, which the sort reads as a tie, so it is not a consistent order and the result is implementation-defined. The model ranks a missing creation time as 0.
- Spreads of `undefined`-valued properties into the update payload: an absent field is `None`.
