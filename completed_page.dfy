/** The completed-tasks screen (CompletedPage.jsx): the loaded list of
    completed tasks, its local updaters, the time-window filter, the grouping
    by completion day and the summary statistics. */
module CompletedPage {
  import opened Wrappers
  import opened Seqs
  import opened Records
  import opened JsObject
  import ViewEngine

  // ---------------------------------------------------------------------
  // The loaded list and its updaters
  // ---------------------------------------------------------------------

  /** `allTasks.filter(task => task.completed)` keeps exactly the completed
      tasks, each as often as it occurs, and keeps their order. */
  lemma {:induction false} LoadedAreCompleted(all: seq<Task>, more: seq<Task>)
    ensures forall t :: t in Completed(all) <==> t in all && t.completed
    ensures forall t :: multiset(Completed(all))[t] == if t.completed then multiset(all)[t] else 0
    ensures Completed(all + more) == Completed(all) + Completed(more)
  {
    FilterCounts(all, IsDone);
    FilterConcat(all, more, IsDone);
  }

  /** `handleTaskUpdate`: a task still completed replaces its entry; a task
      marked incomplete leaves the list. */
  function AfterTaskUpdate(prev: seq<Task>, updated: Task): (r: seq<Task>)
    ensures updated.completed ==> |r| == |prev| && IdsOf(r) == IdsOf(prev)
    ensures updated.completed ==> forall i :: 0 <= i < |prev| ==>
      r[i] == (if prev[i].Id == updated.Id then updated else prev[i])
    ensures !updated.completed ==> forall t :: t in r <==> t in prev && t.Id != updated.Id
    ensures !updated.completed ==> r == RemoveById(prev, updated.Id)
    ensures (forall t :: t in prev ==> t.completed) ==> forall t :: t in r ==> t.completed
  {
    if updated.completed then ReplaceById(prev, updated) else RemoveById(prev, updated.Id)
  }

  /** `handleTaskDelete` */
  function AfterTaskDelete(prev: seq<Task>, id: int): (r: seq<Task>)
    ensures forall t :: t in r <==> t in prev && t.Id != id
    ensures r == RemoveById(prev, id)
    ensures (forall t :: t in prev ==> t.completed) ==> forall t :: t in r ==> t.completed
  {
    RemoveById(prev, id)
  }

  // ---------------------------------------------------------------------
  // Time window
  // ---------------------------------------------------------------------

  datatype TimeFilter = AllTime | ThisWeek | ThisMonth | OtherFilter

  function ParseTimeFilter(s: string): TimeFilter {
    if s == "all" then AllTime
    else if s == "week" then ThisWeek
    else if s == "month" then ThisMonth
    else OtherFilter
  }

  /** The bounds, as instants, of the current week and the current month
      (what `isThisWeek` and `isThisMonth` compare against): `[start, end)`. */
  datatype Calendar = Calendar(weekStart: int, weekEnd: int, monthStart: int, monthEnd: int)

  predicate InPeriod(filter: TimeFilter, cal: Calendar, instant: int) {
    match filter
    case ThisWeek => cal.weekStart <= instant < cal.weekEnd
    case ThisMonth => cal.monthStart <= instant < cal.monthEnd
    case _ => true
  }

  function TimeMatcher(filter: TimeFilter, cal: Calendar): Task -> bool {
    (t: Task) => t.completedAt.Some? && InPeriod(filter, cal, t.completedAt.value)
  }

  /** `filterTasksByTime` */
  function FilterByTime(ts: seq<Task>, filter: TimeFilter, cal: Calendar): (r: seq<Task>)
    ensures filter == AllTime ==> r == ts
    ensures filter != AllTime ==> forall t :: t in r <==>
      t in ts && t.completedAt.Some? && InPeriod(filter, cal, t.completedAt.value)
    ensures filter == ThisWeek ==> forall t :: t in r ==>
      cal.weekStart <= t.completedAt.value < cal.weekEnd
    ensures filter == ThisMonth ==> forall t :: t in r ==>
      cal.monthStart <= t.completedAt.value < cal.monthEnd
  {
    if filter == AllTime then ts else Filter(ts, TimeMatcher(filter, cal))
  }

  // ---------------------------------------------------------------------
  // Grouping by completion day
  // ---------------------------------------------------------------------

  datatype Group = Group(date: int, tasks: seq<Task>)

  predicate CompletedOn(t: Task, d: int) {
    t.completedAt.Some? && DayOf(t.completedAt.value) == d
  }

  /** The tasks completed on day `d`, in input order. */
  function TasksOnDay(ts: seq<Task>, d: int): seq<Task> {
    if ts == [] then []
    else TasksOnDay(ts[..|ts| - 1], d) + (if CompletedOn(ts[|ts| - 1], d) then [ts[|ts| - 1]] else [])
  }

  lemma TasksOnDaySnoc(ts: seq<Task>, t: Task, d: int)
    ensures TasksOnDay(ts + [t], d) == TasksOnDay(ts, d) + (if CompletedOn(t, d) then [t] else [])
  {
    assert (ts + [t])[..|ts|] == ts;
  }

  lemma {:induction false} TasksOnDayMembers(ts: seq<Task>, d: int)
    ensures forall t :: t in TasksOnDay(ts, d) <==> t in ts && CompletedOn(t, d)
  {
    if ts != [] {
      var init := ts[..|ts| - 1];
      assert ts == init + [ts[|ts| - 1]];
      TasksOnDayMembers(init, d);
    }
  }

  /** `(a, b) => new Date(b.completedAt) - new Date(a.completedAt)` */
  function NewestFirst(t: Task): Rank {
    Rank(0, -t.completedAt.GetOr(0))
  }

  /** `(a, b) => new Date(b) - new Date(a)` on the day keys */
  function LatestDayFirst(d: int): Rank {
    Rank(0, -d)
  }

  /** What `groupTasksByDate` returns: one group per completion day, latest
      day first, each holding that day's tasks newest first. */
  ghost predicate GroupedByDay(ts: seq<Task>, groups: seq<Group>) {
    LatestDayFirstOrder(groups) && GroupsHoldTheirDays(ts, groups) && GroupsCoverDays(ts, groups)
  }

  ghost predicate LatestDayFirstOrder(groups: seq<Group>) {
    forall i, j :: 0 <= i < j < |groups| ==> groups[i].date > groups[j].date
  }

  ghost predicate GroupsHoldTheirDays(ts: seq<Task>, groups: seq<Group>) {
    forall i :: 0 <= i < |groups| ==> groups[i].tasks == SortByKey(TasksOnDay(ts, groups[i].date), NewestFirst)
  }

  ghost predicate GroupsCoverDays(ts: seq<Task>, groups: seq<Group>) {
    forall d :: TasksOnDay(ts, d) != [] <==> exists i :: 0 <= i < |groups| && groups[i].date == d
  }

  /** The map `groupTasksByDate` has built after visiting `prefix`: each day
      with tasks maps to that day's tasks. */
  ghost predicate DayGroups(prefix: seq<Task>, grouped: map<int, seq<Task>>) {
    && (forall d :: d in grouped ==> grouped[d] == TasksOnDay(prefix, d) && grouped[d] != [])
    && (forall d :: d !in grouped ==> TasksOnDay(prefix, d) == [])
  }

  /** The days of `grouped` in first-seen order, each once. */
  ghost predicate OnceEach(order: seq<int>, grouped: map<int, seq<Task>>) {
    Distinct(order) && forall x :: x in order <==> x in grouped
  }

  /** The state of the `forEach` after visiting `prefix`. */
  ghost predicate Collected(prefix: seq<Task>, grouped: map<int, seq<Task>>, order: seq<int>) {
    DayGroups(prefix, grouped) && OnceEach(order, grouped)
  }

  /** A task without a completion time joins no group. */
  lemma SkipStep(ts: seq<Task>, i: int, grouped: map<int, seq<Task>>, order: seq<int>)
    requires 0 <= i < |ts| && Collected(ts[..i], grouped, order) && ts[i].completedAt.None?
    ensures Collected(ts[..i + 1], grouped, order)
  {
    assert ts[..i + 1] == ts[..i] + [ts[i]];
    DayGroupsStep(ts[..i], ts[i], grouped, grouped);
  }

  /** One step of the `forEach`: `t` joins the group of its completion day,
      `after`, which is `before` with that group created if needed. */
  lemma DayGroupsStep(prefix: seq<Task>, t: Task, before: map<int, seq<Task>>, after: map<int, seq<Task>>)
    requires DayGroups(prefix, before)
    requires forall d :: d in after <==> d in before || CompletedOn(t, d)
    requires forall d :: d in after ==>
      after[d] == (if d in before then before[d] else []) + (if CompletedOn(t, d) then [t] else [])
    ensures DayGroups(prefix + [t], after)
  {
    forall d | d in after ensures after[d] == TasksOnDay(prefix + [t], d) && after[d] != [] {
      TasksOnDaySnoc(prefix, t, d);
    }
    forall d | d !in after ensures TasksOnDay(prefix + [t], d) == [] {
      TasksOnDaySnoc(prefix, t, d);
    }
  }

  /** The map half of a visit: `t` is pushed onto the group of its day `d`,
      which starts empty when the day was not seen before. */
  lemma PushStep(prefix: seq<Task>, t: Task, d: int, before: map<int, seq<Task>>, after: map<int, seq<Task>>)
    requires DayGroups(prefix, before)
    requires t.completedAt.Some? && d == DayOf(t.completedAt.value)
    requires after == before[d := (if d in before then before[d] else []) + [t]]
    ensures DayGroups(prefix + [t], after)
  {
    assert forall x :: CompletedOn(t, x) <==> x == d;
    DayGroupsStep(prefix, t, before, after);
  }

  /** The order half of a visit: a day not seen before is appended once. */
  lemma OrderStep(before: map<int, seq<Task>>, after: map<int, seq<Task>>, d: int, orderBefore: seq<int>, order: seq<int>)
    requires OnceEach(orderBefore, before)
    requires after.Keys == before.Keys + {d}
    requires order == (if d in before then orderBefore else orderBefore + [d])
    ensures OnceEach(order, after)
  {
    if d !in before {
      assert d !in orderBefore;
      forall a, b | 0 <= a < b < |order| ensures order[a] != order[b] {
        if b == |orderBefore| {
          assert order[a] == orderBefore[a];
        } else {
          assert order[a] == orderBefore[a] && order[b] == orderBefore[b];
        }
      }
    }
  }

  /** One visit of a task with a completion time: `mid` is `before` with
      the day's group created if it was missing (and the day appended to
      `order`), `after` is `mid` with the task pushed onto that group. */
  lemma GroupStep(ts: seq<Task>, i: int, d: int,
                  before: map<int, seq<Task>>, mid: map<int, seq<Task>>, after: map<int, seq<Task>>,
                  orderBefore: seq<int>, order: seq<int>)
    requires 0 <= i < |ts| && Collected(ts[..i], before, orderBefore)
    requires ts[i].completedAt.Some? && d == DayOf(ts[i].completedAt.value)
    requires mid == (if d in before then before else before[d := []])
    requires order == (if d in before then orderBefore else orderBefore + [d])
    requires after == mid[d := mid[d] + [ts[i]]]
    ensures Collected(ts[..i + 1], after, order)
  {
    assert ts[..i + 1] == ts[..i] + [ts[i]];
    assert after == before[d := (if d in before then before[d] else []) + [ts[i]]];
    PushStep(ts[..i], ts[i], d, before, after);
    OrderStep(before, after, d, orderBefore, order);
  }

  /** The groups listed in the order of `dates`, each sorted newest first. */
  function GroupsOf(grouped: map<int, seq<Task>>, dates: seq<int>): (groups: seq<Group>)
    requires forall k :: 0 <= k < |dates| ==> dates[k] in grouped
    ensures |groups| == |dates|
    ensures forall k :: 0 <= k < |dates| ==>
      groups[k] == Group(dates[k], SortByKey(grouped[dates[k]], NewestFirst))
  {
    seq(|dates|, k requires 0 <= k < |dates| => Group(dates[k], SortByKey(grouped[dates[k]], NewestFirst)))
  }

  /** The `forEach` callback of `groupTasksByDate` on `ts[i]`: a task with
      a completion time is pushed onto its day's group, created first if
      missing; any other task is skipped. */
  method FileTask(ts: seq<Task>, i: int, grouped: map<int, seq<Task>>, order: seq<int>)
    returns (grouped': map<int, seq<Task>>, order': seq<int>)
    requires 0 <= i < |ts| && Collected(ts[..i], grouped, order)
    ensures Collected(ts[..i + 1], grouped', order')
  {
    grouped', order' := grouped, order;
    var t := ts[i];
    if t.completedAt.Some? {
      var d := DayOf(t.completedAt.value);
      if d !in grouped' {
        grouped' := grouped'[d := []];
        order' := order' + [d];
      }
      ghost var mid := grouped';
      grouped' := grouped'[d := grouped'[d] + [t]];
      GroupStep(ts, i, d, grouped, mid, grouped', order, order');
    } else {
      SkipStep(ts, i, grouped, order);
    }
  }

  /** The `forEach` of `groupTasksByDate`: the map from each completion day
      to its tasks, and the days in the order they were first seen. */
  method CollectByDay(ts: seq<Task>) returns (grouped: map<int, seq<Task>>, order: seq<int>)
    ensures Collected(ts, grouped, order)
  {
    grouped := map[];
    order := [];
    var i := 0;
    while i < |ts|
      invariant 0 <= i <= |ts|
      invariant Collected(ts[..i], grouped, order)
    {
      grouped, order := FileTask(ts, i, grouped, order);
      i := i + 1;
    }
    assert ts[..i] == ts;
  }

  /** `groupTasksByDate` */
  method GroupByDate(ts: seq<Task>) returns (groups: seq<Group>)
    ensures GroupedByDay(ts, groups)
  {
    var grouped, order := CollectByDay(ts);
    var dates := SortByKey(order, LatestDayFirst);
    GroupsInDateOrder(ts, grouped, order, dates);
    groups := GroupsOf(grouped, dates);
  }

  lemma GroupsInDateOrder(ts: seq<Task>, grouped: map<int, seq<Task>>, order: seq<int>, dates: seq<int>)
    requires DayGroups(ts, grouped) && OnceEach(order, grouped)
    requires dates == SortByKey(order, LatestDayFirst)
    ensures forall k :: 0 <= k < |dates| ==> dates[k] in grouped
    ensures GroupedByDay(ts, GroupsOf(grouped, dates))
  {
    DaysLatestFirst(order, dates);
    forall k | 0 <= k < |dates| ensures dates[k] in grouped {
      assert dates[k] in multiset(order);
    }
    GroupsCoverTheirDays(ts, grouped, order, dates);
  }

  lemma GroupsCoverTheirDays(ts: seq<Task>, grouped: map<int, seq<Task>>, order: seq<int>, dates: seq<int>)
    requires DayGroups(ts, grouped) && OnceEach(order, grouped)
    requires dates == SortByKey(order, LatestDayFirst)
    requires forall k :: 0 <= k < |dates| ==> dates[k] in grouped
    ensures GroupsHoldTheirDays(ts, GroupsOf(grouped, dates))
    ensures GroupsCoverDays(ts, GroupsOf(grouped, dates))
  {
    var groups := GroupsOf(grouped, dates);
    forall d ensures TasksOnDay(ts, d) != [] <==> exists k :: 0 <= k < |groups| && groups[k].date == d {
      if TasksOnDay(ts, d) != [] {
        assert d in multiset(dates);
        var k :| 0 <= k < |dates| && dates[k] == d;
        assert groups[k].date == d;
      }
    }
  }

  /** Sorting days that occur once each, latest first, gives a strictly
      decreasing list of them. */
  lemma DaysLatestFirst(order: seq<int>, dates: seq<int>)
    requires Distinct(order)
    requires dates == SortByKey(order, LatestDayFirst)
    ensures multiset(dates) == multiset(order)
    ensures forall a, b :: 0 <= a < b < |dates| ==> dates[a] > dates[b]
  {
    SortByKeySorted(order, LatestDayFirst);
    forall a, b | 0 <= a < b < |dates| ensures dates[a] > dates[b] {
      assert RankLe(LatestDayFirst(dates[a]), LatestDayFirst(dates[b]));
      if dates[a] == dates[b] {
        TwoPositions(dates, a, b);
        DistinctOnce(order, dates[a]);
      }
    }
  }

  /** Every task with a completion time is in exactly one group, the one of
      its day; a task without one is in none. */
  lemma GroupMembership(ts: seq<Task>, groups: seq<Group>, t: Task)
    requires GroupedByDay(ts, groups)
    ensures forall i :: 0 <= i < |groups| ==>
      (t in groups[i].tasks <==> t in ts && t.completedAt.Some? && DayOf(t.completedAt.value) == groups[i].date)
    ensures t in ts && t.completedAt.Some? ==>
      exists i :: 0 <= i < |groups| && t in groups[i].tasks
    ensures forall i, j ::
      0 <= i < |groups| && 0 <= j < |groups| && t in groups[i].tasks && t in groups[j].tasks ==> i == j
  {
    forall i | 0 <= i < |groups|
      ensures t in groups[i].tasks <==> t in ts && t.completedAt.Some? && DayOf(t.completedAt.value) == groups[i].date
    {
      var day := TasksOnDay(ts, groups[i].date);
      TasksOnDayMembers(ts, groups[i].date);
      assert multiset(groups[i].tasks) == multiset(day);
      assert t in groups[i].tasks <==> t in multiset(day);
    }
    if t in ts && t.completedAt.Some? {
      var d := DayOf(t.completedAt.value);
      TasksOnDayMembers(ts, d);
      assert t in TasksOnDay(ts, d);
      var i :| 0 <= i < |groups| && groups[i].date == d;
      assert t in groups[i].tasks;
    }
  }

  /** Within a group, tasks are ordered newest completion first, and tasks
      completed at the same instant keep their input order. */
  lemma GroupNewestFirst(ts: seq<Task>, groups: seq<Group>, i: int, k: Rank)
    requires GroupedByDay(ts, groups) && 0 <= i < |groups|
    ensures var g := groups[i].tasks;
      forall a, b :: 0 <= a < b < |g| ==>
        g[a].completedAt.Some? && g[b].completedAt.Some? &&
        g[a].completedAt.value >= g[b].completedAt.value
    ensures WithRank(groups[i].tasks, NewestFirst, k) == WithRank(TasksOnDay(ts, groups[i].date), NewestFirst, k)
  {
    var day := TasksOnDay(ts, groups[i].date);
    var g := groups[i].tasks;
    assert g == SortByKey(day, NewestFirst);
    SortByKeySorted(day, NewestFirst);
    SortByKeyStable(day, NewestFirst, k);
    TasksOnDayMembers(ts, groups[i].date);
    forall a | 0 <= a < |g| ensures g[a].completedAt.Some? {
      assert multiset(g) == multiset(day);
      assert g[a] in multiset(day);
      assert g[a] in day;
      assert CompletedOn(g[a], groups[i].date);
    }
    forall a, b | 0 <= a < b < |g| ensures g[a].completedAt.value >= g[b].completedAt.value {
      assert RankLe(NewestFirst(g[a]), NewestFirst(g[b]));
    }
  }

  /** The rendered list: the search applies first, then the time window,
      then the grouping (`groupTasksByDate(filterTasksByTime(filteredTasks))`). */
  method VisibleGroups(completed: seq<Task>, query: string, filter: TimeFilter, cal: Calendar)
    returns (groups: seq<Group>)
    ensures GroupedByDay(FilterByTime(ViewEngine.SearchFilter(completed, query), filter, cal), groups)
  {
    var searched := ViewEngine.SearchFilter(completed, query);
    groups := GroupByDate(FilterByTime(searched, filter, cal));
  }

  /** A list of tasks none of which has a completion time has no tasks on
      any day. */
  lemma {:induction false} TasksOnDayNone(ts: seq<Task>, d: int)
    requires forall t :: t in ts ==> t.completedAt.None?
    ensures TasksOnDay(ts, d) == []
  {
    if ts != [] {
      assert ts[|ts| - 1] in ts;
      TasksOnDayNone(ts[..|ts| - 1], d);
    }
  }

  /** Tasks as the store returns them carry no `completedAt`, so the
      grouping skips every one of them: the page shows no day group. */
  lemma StoredTasksFormNoGroups(ts: seq<Task>, groups: seq<Group>)
    requires GroupedByDay(ts, groups)
    requires forall t :: t in ts ==> FromStore(t)
    ensures groups == []
  {
    if groups != [] {
      TasksOnDayNone(ts, groups[0].date);
    }
  }

  // ---------------------------------------------------------------------
  // Statistics
  // ---------------------------------------------------------------------

  datatype Stats = Stats(total: nat, categories: seq<(string, int)>)

  /** `categories[k] = (categories[k] || 0) + 1` */
  function Bump(e: Entries, k: string): Entries {
    Put(e, k, Lookup(e, k).GetOr(0) + 1)
  }

  /** The per-category counter built by the `forEach` of `getStatsForFilter`. */
  function Tally(ts: seq<Task>): Entries {
    if ts == [] then [] else Bump(Tally(ts[..|ts| - 1]), ts[|ts| - 1].category)
  }

  /** `(a, b) => b - a` on the counts */
  function MostFirst(e: (string, int)): Rank {
    Rank(0, -e.1)
  }

  /** `Object.entries(categories).sort(...).slice(0, 3)` */
  function TopCategories(e: Entries): seq<(string, int)> {
    var s := SortByKey(e, MostFirst);
    s[..if |s| < 3 then |s| else 3]
  }

  lemma TallyStep(ts: seq<Task>, i: int)
    requires 0 <= i < |ts|
    ensures Tally(ts[..i + 1]) == Bump(Tally(ts[..i]), ts[i].category)
  {
    assert ts[..i + 1][..i] == ts[..i];
    assert ts[..i + 1][i] == ts[i];
  }

  /** `getStatsForFilter`: the search query plays no part. */
  method StatsForFilter(completed: seq<Task>, filter: TimeFilter, cal: Calendar) returns (stats: Stats)
    ensures stats.total == |FilterByTime(completed, filter, cal)|
    ensures stats.categories == TopCategories(Tally(FilterByTime(completed, filter, cal)))
  {
    var filtered := FilterByTime(completed, filter, cal);
    var categories: Entries := [];
    var i := 0;
    while i < |filtered|
      invariant 0 <= i <= |filtered|
      invariant categories == Tally(filtered[..i])
    {
      TallyStep(filtered, i);
      categories := Bump(categories, filtered[i].category);
      i := i + 1;
    }
    assert filtered[..i] == filtered;
    stats := Stats(|filtered|, TopCategories(categories));
  }

  /** `e` is the counter after the tasks `ts`: distinct keys, one per
      category present, each holding its number of tasks. */
  ghost predicate CountsMatch(e: Entries, ts: seq<Task>) {
    && DistinctKeys(e)
    && forall k :: Lookup(e, k) == if CountInCategory(ts, k) > 0 then Some(CountInCategory(ts, k)) else None
  }

  /** `e` lists the categories of `ts` in the order their first task appears. */
  ghost predicate FirstSeenOrder(e: Entries, ts: seq<Task>) {
    && (forall i :: 0 <= i < |e| ==> FirstIndexOf(ts, e[i].0) < |ts|)
    && (forall i, j :: 0 <= i < j < |e| ==> FirstIndexOf(ts, e[i].0) < FirstIndexOf(ts, e[j].0))
  }

  lemma BumpCounts(e: Entries, ts: seq<Task>, t: Task)
    requires CountsMatch(e, ts)
    ensures CountsMatch(Bump(e, t.category), ts + [t])
  {
    var r := Bump(e, t.category);
    forall k ensures Lookup(r, k) == if CountInCategory(ts + [t], k) > 0 then Some(CountInCategory(ts + [t], k)) else None {
      CountAppend(ts, t, k);
      if k != t.category {
        assert Lookup(r, k) == Lookup(e, k);
      }
    }
  }

  /** The counter has one entry per category present, holding its number of tasks. */
  lemma {:induction false} TallyCounts(ts: seq<Task>)
    ensures CountsMatch(Tally(ts), ts)
  {
    if ts != [] {
      var init := ts[..|ts| - 1];
      assert ts == init + [ts[|ts| - 1]];
      TallyCounts(init);
      BumpCounts(Tally(init), init, ts[|ts| - 1]);
    }
  }

  /** The position of the first task of category `k`, or `|ts|` if there is none. */
  function FirstIndexOf(ts: seq<Task>, k: string): (n: nat)
    ensures n <= |ts|
    ensures n < |ts| ==> ts[n].category == k
    ensures forall j :: 0 <= j < n ==> ts[j].category != k
  {
    if ts == [] then 0
    else if ts[0].category == k then 0
    else 1 + FirstIndexOf(ts[1..], k)
  }

  lemma {:induction false} CountedIsSeen(ts: seq<Task>, k: string)
    requires CountInCategory(ts, k) > 0
    ensures FirstIndexOf(ts, k) < |ts|
  {
    if ts[0].category != k {
      CountedIsSeen(ts[1..], k);
    }
  }

  lemma SeenIsCounted(ts: seq<Task>, k: string)
    ensures FirstIndexOf(ts, k) < |ts| ==> CountInCategory(ts, k) > 0
  {
    var n := FirstIndexOf(ts, k);
    if n < |ts| {
      assert CategoriesOf(ts)[n] == k;
    }
  }

  lemma FirstIndexExtend(ts: seq<Task>, t: Task, k: string)
    ensures FirstIndexOf(ts + [t], k) == if FirstIndexOf(ts, k) < |ts| then FirstIndexOf(ts, k)
                                          else if t.category == k then |ts| else |ts| + 1
  {
    var n, m := FirstIndexOf(ts, k), FirstIndexOf(ts + [t], k);
    var u := ts + [t];
    assert u[|ts|] == t;
    assert forall j :: 0 <= j < |ts| ==> u[j] == ts[j];
  }

  lemma BumpFirstSeen(e: Entries, ts: seq<Task>, t: Task)
    requires CountsMatch(e, ts) && FirstSeenOrder(e, ts)
    ensures FirstSeenOrder(Bump(e, t.category), ts + [t])
  {
    var r := Bump(e, t.category);
    forall i | 0 <= i < |e| ensures FirstIndexOf(ts + [t], e[i].0) == FirstIndexOf(ts, e[i].0) {
      FirstIndexExtend(ts, t, e[i].0);
    }
    if !HasKey(e, t.category) {
      SeenIsCounted(ts, t.category);
      FirstIndexExtend(ts, t, t.category);
      assert r == e + [(t.category, 1)];
      forall i | 0 <= i < |e|
        ensures FirstIndexOf(ts + [t], r[i].0) < FirstIndexOf(ts + [t], r[|e|].0)
      {
        assert r[i] == e[i];
      }
    }
  }

  /** The counter lists categories in the order their first task appears. */
  lemma {:induction false} TallyFirstSeenOrder(ts: seq<Task>)
    ensures FirstSeenOrder(Tally(ts), ts)
  {
    if ts != [] {
      var init := ts[..|ts| - 1];
      assert ts == init + [ts[|ts| - 1]];
      TallyFirstSeenOrder(init);
      TallyCounts(init);
      BumpFirstSeen(Tally(init), init, ts[|ts| - 1]);
    }
  }

  /** The statistics show at most three categories, most tasks first. */
  lemma TopCategoriesOrder(ts: seq<Task>)
    ensures var top := TopCategories(Tally(ts));
      && |top| <= 3
      && (|Tally(ts)| >= 3 ==> |top| == 3)
      && (forall i, j :: 0 <= i < j < |top| ==> top[i].1 >= top[j].1)
  {
    var e := Tally(ts);
    var s := SortByKey(e, MostFirst);
    SortByKeySorted(e, MostFirst);
    var top := TopCategories(e);
    forall i, j | 0 <= i < j < |top| ensures top[i].1 >= top[j].1 {
      assert RankLe(MostFirst(s[i]), MostFirst(s[j]));
    }
  }

  /** Each category shown carries its true, positive count. */
  lemma TopCategoriesCounts(ts: seq<Task>)
    ensures forall x :: x in TopCategories(Tally(ts)) ==> x.1 == CountInCategory(ts, x.0) && x.1 > 0
  {
    var e := Tally(ts);
    TallyCounts(ts);
    var s := SortByKey(e, MostFirst);
    forall x | x in TopCategories(e) ensures x.1 == CountInCategory(ts, x.0) && x.1 > 0 {
      assert x in multiset(s);
      var i :| 0 <= i < |e| && e[i] == x;
      LookupDistinct(e, i);
    }
  }

  /** A category left out of the statistics has no more tasks than any shown. */
  lemma TopCategoriesDominate(ts: seq<Task>)
    ensures var top := TopCategories(Tally(ts));
      forall x, y :: x in Tally(ts) && x !in top && y in top ==> y.1 >= x.1
  {
    var e := Tally(ts);
    var s := SortByKey(e, MostFirst);
    SortByKeySorted(e, MostFirst);
    var top := TopCategories(e);
    var m := |top|;
    assert top == s[..m];
    forall x, y | x in e && x !in top && y in top ensures y.1 >= x.1 {
      assert x in multiset(s);
      var a :| 0 <= a < |s| && s[a] == x;
      var b :| 0 <= b < m && top[b] == y;
      assert RankLe(MostFirst(s[b]), MostFirst(s[a]));
    }
  }

  /** Categories with equal counts keep their first-encountered order in the statistics. */
  lemma TopCategoriesTies(ts: seq<Task>, k: Rank)
    ensures var w := WithRank(Tally(ts), MostFirst, k);
      var wt := WithRank(TopCategories(Tally(ts)), MostFirst, k);
      |wt| <= |w| && wt == w[..|wt|]
  {
    var e := Tally(ts);
    var s := SortByKey(e, MostFirst);
    var m := if |s| < 3 then |s| else 3;
    assert s == s[..m] + s[m..];
    WithRankConcat(s[..m], s[m..], MostFirst, k);
    SortByKeyStable(e, MostFirst, k);
  }

  /** Tasks as the store returns them carry no `completedAt`, so "this
      week", "this month" and any other filter but "all" keep none of them,
      and the statistics for such a filter are empty. */
  lemma StoredTasksInNoPeriod(ts: seq<Task>, filter: TimeFilter, cal: Calendar)
    requires filter != AllTime
    requires forall t :: t in ts ==> FromStore(t)
    ensures FilterByTime(ts, filter, cal) == []
    ensures Tally(FilterByTime(ts, filter, cal)) == []
    ensures TopCategories(Tally(FilterByTime(ts, filter, cal))) == []
  {
    FilterDropsAll(ts, TimeMatcher(filter, cal));
  }
}
