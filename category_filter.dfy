/** The category sidebar (CategoryFilter.jsx): the "All Tasks" total, the
    click toggle, the active highlight and the per-category badge. */
module CategoryFilter {
  import opened Wrappers
  import opened Records
  import opened JsObject
  import TasksPage

  /** `allTasksCount`: the sum of the counter's values. */
  function AllTasksCount(counts: Entries): int {
    SumValues(counts)
  }

  /** The number of tasks whose category is one of `names`. */
  function CountInAny(tasks: seq<Task>, names: seq<string>): (n: nat)
    ensures n <= |tasks|
  {
    if tasks == [] then 0
    else (if tasks[0].category in names then 1 else 0) + CountInAny(tasks[1..], names)
  }

  lemma {:induction false} CountInAnySplit(tasks: seq<Task>, k: string, rest: seq<string>)
    requires k !in rest
    ensures CountInAny(tasks, [k] + rest) == CountInCategory(tasks, k) + CountInAny(tasks, rest)
  {
    if tasks != [] {
      CountInAnySplit(tasks[1..], k, rest);
    }
  }

  lemma {:induction false} CountInAnyNone(tasks: seq<Task>)
    ensures CountInAny(tasks, []) == 0
  {
    if tasks != [] {
      CountInAnyNone(tasks[1..]);
    }
  }

  lemma {:induction false} CountInAnySameNames(tasks: seq<Task>, a: seq<string>, b: seq<string>)
    requires forall k :: k in a <==> k in b
    ensures CountInAny(tasks, a) == CountInAny(tasks, b)
  {
    if tasks != [] {
      CountInAnySameNames(tasks[1..], a, b);
    }
  }

  lemma {:induction false} CountInAnyAll(tasks: seq<Task>, names: seq<string>)
    requires forall t :: t in tasks ==> t.category in names
    ensures CountInAny(tasks, names) == |tasks|
  {
    if tasks != [] {
      CountInAnyAll(tasks[1..], names);
    }
  }

  function KeysOf(e: Entries): seq<string> {
    seq(|e|, i requires 0 <= i < |e| => e[i].0)
  }

  lemma KeysOfHasKey(e: Entries, k: string)
    ensures k in KeysOf(e) <==> HasKey(e, k)
  {
    if HasKey(e, k) {
      var i :| 0 <= i < |e| && e[i].0 == k;
      assert KeysOf(e)[i] == k;
    }
  }

  /** A counter with distinct keys, each holding its category's number of
      tasks, sums to the number of tasks in any of those categories. */
  lemma {:induction false} SumOfCounts(e: Entries, tasks: seq<Task>)
    requires DistinctKeys(e)
    requires forall i :: 0 <= i < |e| ==> e[i].1 == CountInCategory(tasks, e[i].0)
    ensures SumValues(e) == CountInAny(tasks, KeysOf(e))
  {
    if e == [] {
      CountInAnyNone(tasks);
    } else {
      var rest := e[1..];
      assert KeysOf(e) == [e[0].0] + KeysOf(rest);
      assert forall i :: 0 <= i < |rest| ==> rest[i] == e[i + 1];
      assert DistinctKeys(rest) by {
        forall i, j | 0 <= i < j < |rest| ensures rest[i].0 != rest[j].0 {
          assert rest[i] == e[i + 1] && rest[j] == e[j + 1];
        }
      }
      SumOfCounts(rest, tasks);
      KeysOfHasKey(rest, e[0].0);
      CountInAnySplit(tasks, e[0].0, KeysOf(rest));
      assert SumValues(e) == e[0].1 + SumValues(rest);
      assert e[0].1 == CountInCategory(tasks, e[0].0);
    }
  }

  /** With the counter the tasks page builds, "All Tasks" shows the number of
      tasks in the listed categories, every task when each has a listed category. */
  lemma AllTasksCountOfPageCounts(counts: Entries, categories: seq<Category>, tasks: seq<Task>)
    requires TasksPage.CountsFor(counts, TasksPage.NamesOf(categories), tasks)
    ensures AllTasksCount(counts) == CountInAny(tasks, TasksPage.NamesOf(categories))
    ensures (forall t :: t in tasks ==> exists c :: c in categories && c.name == t.category) ==>
      AllTasksCount(counts) == |tasks|
  {
    var names := TasksPage.NamesOf(categories);
    forall i | 0 <= i < |counts| ensures counts[i].1 == CountInCategory(tasks, counts[i].0) {
      LookupDistinct(counts, i);
    }
    SumOfCounts(counts, tasks);
    forall k ensures k in KeysOf(counts) <==> k in names {
      KeysOfHasKey(counts, k);
    }
    CountInAnySameNames(tasks, KeysOf(counts), names);
    if forall t :: t in tasks ==> exists c :: c in categories && c.name == t.category {
      forall t | t in tasks ensures t.category in names {
        var c :| c in categories && c.name == t.category;
        var i :| 0 <= i < |categories| && categories[i] == c;
        assert names[i] == c.name;
      }
      CountInAnyAll(tasks, names);
    }
  }

  /** `handleCategoryClick`: clicking the active category clears the
      selection; clicking anything else selects it. */
  function Toggle(active: Option<string>, clicked: Option<string>): (r: Option<string>)
    ensures clicked == active ==> r.None?
    ensures clicked != active ==> r == clicked
  {
    if clicked == active then None else clicked
  }

  /** `isActive` */
  predicate IsActive(active: Option<string>, c: Category) {
    active == Some(c.name)
  }

  /** "All Tasks" always clears the selection; clicking a category makes it
      active exactly when it was not; a second click undoes the first. */
  lemma ToggleProperties(active: Option<string>, c: Category)
    ensures Toggle(active, None).None?
    ensures IsActive(Toggle(active, Some(c.name)), c) <==> !IsActive(active, c)
    ensures Toggle(Toggle(None, Some(c.name)), Some(c.name)).None?
  {
  }

  /** `taskCounts[category.name] || 0` */
  function DisplayedCount(counts: Entries, name: string): (n: int)
    ensures !HasKey(counts, name) ==> n == 0
    ensures HasKey(counts, name) ==> n == Lookup(counts, name).value
  {
    Lookup(counts, name).GetOr(0)
  }

  /** With the page's counter, every listed category's badge shows its
      number of tasks; a category missing from the counter shows 0. */
  lemma DisplayedCountOfPageCounts(counts: Entries, categories: seq<Category>, tasks: seq<Task>, name: string)
    requires TasksPage.CountsFor(counts, TasksPage.NamesOf(categories), tasks)
    ensures DisplayedCount(counts, name) == if name in TasksPage.NamesOf(categories) then CountInCategory(tasks, name) else 0
  {
  }
}
