/** The task list's derived view (`filteredAndSortedTasks` in TaskList.jsx):
    search filter, category filter, stable sort by the chosen key, then the
    active tasks followed by the completed ones. */
module ViewEngine {
  import opened Wrappers
  import opened Seqs
  import opened Text
  import opened Records

  datatype SortKey = ByPriority | ByDueDate | ByCreated

  /** The `switch (sortBy)`: any key other than "priority" and "dueDate"
      falls through to the `created` order. */
  function ParseSortKey(sortBy: string): (k: SortKey)
    ensures k == ByPriority <==> sortBy == "priority"
    ensures k == ByDueDate <==> sortBy == "dueDate"
  {
    if sortBy == "priority" then ByPriority
    else if sortBy == "dueDate" then ByDueDate
    else ByCreated
  }

  /** `{ high: 3, medium: 2, low: 1 }` */
  function PriorityOrder(p: Priority): int {
    match p
    case High => 3
    case Medium => 2
    case Low => 1
  }

  /** The sort comparator as written: a negative value puts `a` first. A
      missing `createdAt` makes `new Date(..)` invalid and the difference
      NaN, which `sort` reads as 0. */
  function Compare(key: SortKey, a: Task, b: Task): int {
    match key
    case ByPriority => PriorityOrder(b.priority) - PriorityOrder(a.priority)
    case ByDueDate =>
      if a.dueDate.None? && b.dueDate.None? then 0
      else if a.dueDate.None? then 1
      else if b.dueDate.None? then -1
      else a.dueDate.value - b.dueDate.value
    case ByCreated =>
      if a.createdAt.Some? && b.createdAt.Some? then b.createdAt.value - a.createdAt.value else 0
  }

  /** The position a task sorts to under `key`: tier 1 holds the undated
      tasks; a task without `createdAt` ranks as if created at instant 0. */
  function TaskRank(key: SortKey, t: Task): Rank {
    match key
    case ByPriority => Rank(0, -PriorityOrder(t.priority))
    case ByDueDate => if t.dueDate.Some? then Rank(0, t.dueDate.value) else Rank(1, 0)
    case ByCreated => Rank(0, -t.createdAt.GetOr(0))
  }

  function RankFor(key: SortKey): Task -> Rank {
    (t: Task) => TaskRank(key, t)
  }

  /** The comparator is consistent on a pair unless it compares a task
      with `createdAt` to one without. */
  predicate Comparable(key: SortKey, a: Task, b: Task) {
    key == ByCreated ==> (a.createdAt.Some? <==> b.createdAt.Some?)
  }

  /** Sorting by rank is sorting by the comparator: a pair in rank order is
      never reversed by the comparator, and on a comparable pair `a` may
      precede `b` exactly when the comparator does not put `b` first, with
      ties exactly at equal ranks. */
  lemma RankAgreesWithCompare(key: SortKey, a: Task, b: Task)
    ensures RankLe(TaskRank(key, a), TaskRank(key, b)) ==> Compare(key, a, b) <= 0
    ensures Comparable(key, a, b) ==>
      (Compare(key, a, b) <= 0 <==> RankLe(TaskRank(key, a), TaskRank(key, b)))
    ensures Comparable(key, a, b) ==>
      (Compare(key, a, b) == 0 <==> TaskRank(key, a) == TaskRank(key, b))
    ensures Compare(key, a, b) == -Compare(key, b, a)
  {
  }

  /** On a list mixing tasks with and without `createdAt` the comparator's
      ties are not transitive, so it is not a consistent comparator and the
      order `sort` produces is left to the implementation. */
  lemma CreatedCompareInconsistent(a: Task)
    requires a.createdAt.None?
    ensures var b, c := a.(createdAt := Some(1)), a.(createdAt := Some(2));
      Compare(ByCreated, a, b) == 0 && Compare(ByCreated, a, c) == 0 && Compare(ByCreated, b, c) != 0
  {
  }

  /** Case-insensitive substring match on title or category. */
  predicate MatchesQuery(query: string, t: Task) {
    var q := Lower(query);
    Contains(Lower(t.title), q) || Contains(Lower(t.category), q)
  }

  function QueryMatcher(query: string): Task -> bool {
    (t: Task) => MatchesQuery(query, t)
  }

  /** `if (searchQuery) filtered = filtered.filter(...)`: an empty query filters nothing. */
  function SearchFilter(ts: seq<Task>, query: string): (r: seq<Task>)
    ensures query == "" ==> r == ts
    ensures forall t :: t in r <==> t in ts && (query == "" || MatchesQuery(query, t))
  {
    if query == "" then ts else Filter(ts, QueryMatcher(query))
  }

  /** JavaScript truthiness of the active category: `null` and "" select nothing. */
  predicate CategorySelected(active: Option<string>) {
    active.Some? && active.value != ""
  }

  function InCategory(name: string): Task -> bool {
    (t: Task) => t.category == name
  }

  /** `if (activeCategory) filtered = filtered.filter(task => task.category === activeCategory)` */
  function CategoryFilter(ts: seq<Task>, active: Option<string>): (r: seq<Task>)
    ensures !CategorySelected(active) ==> r == ts
    ensures forall t :: t in r <==> t in ts && (!CategorySelected(active) || t.category == active.value)
  {
    if CategorySelected(active) then Filter(ts, InCategory(active.value)) else ts
  }

  function FilteredTasks(ts: seq<Task>, query: string, active: Option<string>): seq<Task> {
    CategoryFilter(SearchFilter(ts, query), active)
  }

  function SortTasks(ts: seq<Task>, key: SortKey): seq<Task> {
    SortByKey(ts, RankFor(key))
  }

  /** `filteredAndSortedTasks` */
  function ComputeView(ts: seq<Task>, query: string, active: Option<string>, sortBy: string): seq<Task> {
    var sorted := SortTasks(FilteredTasks(ts, query, active), ParseSortKey(sortBy));
    Incomplete(sorted) + Completed(sorted)
  }

  // ---------------------------------------------------------------------
  // Properties of the view
  // ---------------------------------------------------------------------

  /** The search is case-insensitive: two queries with the same lower-case form select the same tasks. */
  lemma SearchIgnoresCase(ts: seq<Task>, q1: string, q2: string)
    requires Lower(q1) == Lower(q2)
    ensures SearchFilter(ts, q1) == SearchFilter(ts, q2)
  {
    LowerLength(q1);
    LowerLength(q2);
    if q1 != "" {
      FilterAgree(ts, QueryMatcher(q1), QueryMatcher(q2));
    }
  }

  /** No task is added, duplicated or lost: the view is a permutation of the filtered tasks. */
  lemma ViewIsPermutation(ts: seq<Task>, query: string, active: Option<string>, sortBy: string)
    ensures multiset(ComputeView(ts, query, active, sortBy)) == multiset(FilteredTasks(ts, query, active))
  {
    var sorted := SortTasks(FilteredTasks(ts, query, active), ParseSortKey(sortBy));
    ActiveDoneSplit(sorted);
  }

  /** Every active task comes before every completed one. */
  lemma ViewActiveFirst(ts: seq<Task>, query: string, active: Option<string>, sortBy: string)
    ensures var v := ComputeView(ts, query, active, sortBy);
      forall i, j :: 0 <= i < j < |v| && v[i].completed ==> v[j].completed
  {
    var sorted := SortTasks(FilteredTasks(ts, query, active), ParseSortKey(sortBy));
    ActiveThenDone(Incomplete(sorted), Completed(sorted));
  }

  lemma ActiveThenDone(a: seq<Task>, c: seq<Task>)
    requires forall t :: t in a ==> !t.completed
    requires forall t :: t in c ==> t.completed
    ensures forall i, j :: 0 <= i < j < |a + c| && (a + c)[i].completed ==> (a + c)[j].completed
  {
    var v := a + c;
    forall i, j | 0 <= i < j < |v| && v[i].completed ensures v[j].completed {
      assert v[j] == c[j - |a|];
      assert v[j] in c;
    }
  }

  /** Within each partition the comparator's order holds between any two tasks. */
  lemma ViewSortedWithinPartition(ts: seq<Task>, query: string, active: Option<string>, sortBy: string)
    ensures var v := ComputeView(ts, query, active, sortBy);
      forall i, j :: 0 <= i < j < |v| && v[i].completed == v[j].completed ==>
        Compare(ParseSortKey(sortBy), v[i], v[j]) <= 0
  {
    var key := ParseSortKey(sortBy);
    var f := FilteredTasks(ts, query, active);
    var sorted := SortTasks(f, key);
    SortByKeySorted(f, RankFor(key));
    FilterSorted(sorted, IsIncomplete, RankFor(key));
    FilterSorted(sorted, IsDone, RankFor(key));
    var v := Incomplete(sorted) + Completed(sorted);
    PartitionsSorted(Incomplete(sorted), Completed(sorted), RankFor(key));
    forall i, j | 0 <= i < j < |v| && v[i].completed == v[j].completed
      ensures Compare(key, v[i], v[j]) <= 0
    {
      RankAgreesWithCompare(key, v[i], v[j]);
    }
  }

  lemma PartitionsSorted(a: seq<Task>, c: seq<Task>, key: Task -> Rank)
    requires SortedBy(a, key) && SortedBy(c, key)
    requires forall t :: t in a ==> !t.completed
    requires forall t :: t in c ==> t.completed
    ensures forall i, j :: 0 <= i < j < |a + c| && (a + c)[i].completed == (a + c)[j].completed ==>
      RankLe(key((a + c)[i]), key((a + c)[j]))
  {
    var v := a + c;
    forall i, j | 0 <= i < j < |v| && v[i].completed == v[j].completed
      ensures RankLe(key(v[i]), key(v[j]))
    {
      if j < |a| {
        assert v[i] == a[i] && v[j] == a[j];
      } else if i >= |a| {
        assert v[i] == c[i - |a|] && v[j] == c[j - |a|];
      }
    }
  }

  /** Sorting by priority: high before medium before low within each partition. */
  lemma ViewPriorityOrder(ts: seq<Task>, query: string, active: Option<string>)
    ensures var v := ComputeView(ts, query, active, "priority");
      forall i, j :: 0 <= i < j < |v| && v[i].completed == v[j].completed ==>
        PriorityOrder(v[i].priority) >= PriorityOrder(v[j].priority)
  {
    ViewSortedWithinPartition(ts, query, active, "priority");
  }

  /** Sorting by due date: dated tasks ascending, undated ones after every dated one. */
  lemma ViewDueDateOrder(ts: seq<Task>, query: string, active: Option<string>)
    ensures var v := ComputeView(ts, query, active, "dueDate");
      forall i, j :: 0 <= i < j < |v| && v[i].completed == v[j].completed ==>
        (v[i].dueDate.None? ==> v[j].dueDate.None?) &&
        (v[i].dueDate.Some? && v[j].dueDate.Some? ==> v[i].dueDate.value <= v[j].dueDate.value)
  {
    ViewSortedWithinPartition(ts, query, active, "dueDate");
  }

  /** Sorting by creation (the default for any other key): among the tasks
      that carry `createdAt`, newest first. */
  lemma ViewCreatedOrder(ts: seq<Task>, query: string, active: Option<string>, sortBy: string)
    requires sortBy != "priority" && sortBy != "dueDate"
    ensures var v := ComputeView(ts, query, active, sortBy);
      forall i, j ::
        && 0 <= i < j < |v| && v[i].completed == v[j].completed
        && v[i].createdAt.Some? && v[j].createdAt.Some?
        ==> v[i].createdAt.value >= v[j].createdAt.value
  {
    ViewSortedWithinPartition(ts, query, active, sortBy);
  }

  /** Tasks as the store returns them carry neither `dueDate` nor
      `createdAt`, so sorting by due date or by creation ties every pair:
      the view is the filtered list in its own order, active tasks first. */
  lemma ViewOfStoredTasks(ts: seq<Task>, query: string, active: Option<string>, sortBy: string)
    requires sortBy != "priority"
    requires forall t :: t in ts ==> FromStore(t)
    ensures var f := FilteredTasks(ts, query, active);
      ComputeView(ts, query, active, sortBy) == Incomplete(f) + Completed(f)
  {
    var f := FilteredTasks(ts, query, active);
    var key := ParseSortKey(sortBy);
    var r := if key == ByDueDate then Rank(1, 0) else Rank(0, 0);
    forall t | t in f ensures TaskRank(key, t) == r {
      assert t in ts;
    }
    SortByKeyConstant(f, RankFor(key), r);
  }

  /** Ties keep input order: the tasks of one rank appear in the view as they
      appear in the filtered input, active ones first. */
  lemma ViewStable(ts: seq<Task>, query: string, active: Option<string>, sortBy: string, k: Rank)
    ensures var key := RankFor(ParseSortKey(sortBy));
      var f := FilteredTasks(ts, query, active);
      WithRank(ComputeView(ts, query, active, sortBy), key, k)
        == Incomplete(WithRank(f, key, k)) + Completed(WithRank(f, key, k))
  {
    var key := RankFor(ParseSortKey(sortBy));
    var f := FilteredTasks(ts, query, active);
    var sorted := SortByKey(f, key);
    WithRankConcat(Incomplete(sorted), Completed(sorted), key, k);
    WithRankFilter(sorted, IsIncomplete, key, k);
    WithRankFilter(sorted, IsDone, key, k);
    SortByKeyStable(f, key, k);
  }

  /** The render-time split of the view (`incompleteTasks`, `completedTasks`)
      gives back the two sorted partitions the view was built from. */
  lemma RenderPartition(ts: seq<Task>, query: string, active: Option<string>, sortBy: string)
    ensures var sorted := SortTasks(FilteredTasks(ts, query, active), ParseSortKey(sortBy));
      var v := ComputeView(ts, query, active, sortBy);
      Incomplete(v) == Incomplete(sorted) && Completed(v) == Completed(sorted)
  {
    var sorted := SortTasks(FilteredTasks(ts, query, active), ParseSortKey(sortBy));
    var a, c := Incomplete(sorted), Completed(sorted);
    FilterConcat(a, c, IsIncomplete);
    FilterConcat(a, c, IsDone);
    FilterKeepsAll(a, IsIncomplete);
    FilterDropsAll(a, IsDone);
    FilterKeepsAll(c, IsDone);
    FilterDropsAll(c, IsIncomplete);
  }
}
