/** The task and category records the screens and services pass around, and
    the list operations on them that several screens share. */
module Records {
  import opened Wrappers
  import opened Seqs

  datatype Priority = Low | Medium | High

  /** A task with the fields the screens and the service read. The record
      store keeps the snake_case fields `due_date`, `created_at` and
      `completed_at`; the task list, card, form and completed page read the
      camelCase `dueDate`, `createdAt` and `completedAt`, which no stored
      record carries (see `FromStore`). Due dates are day numbers; the
      other two are instants in local-time seconds. */
  datatype Task = Task(
    Id: int,
    title: string,
    category: string,
    priority: Priority,
    completed: bool,
    dueDate: Option<int>,
    createdAt: Option<int>,
    completedAt: Option<int>,
    due_date: Option<int>,
    created_at: Option<int>,
    completed_at: Option<int>)

  /** A task as `getAll` returns it: only the fields it fetches are set, so
      none of the camelCase fields the views read. */
  predicate FromStore(t: Task) {
    t.dueDate.None? && t.createdAt.None? && t.completedAt.None?
  }

  datatype Category = Category(Id: int, name: string, color: string, icon: string)

  const SecondsPerDay: int := 86400

  /** The local calendar day of an instant (`format(..., 'yyyy-MM-dd')`). */
  function DayOf(instant: int): int {
    instant / SecondsPerDay
  }

  predicate IsIncomplete(t: Task) { !t.completed }

  predicate IsDone(t: Task) { t.completed }

  /** `tasks.filter(task => !task.completed)` */
  function Incomplete(ts: seq<Task>): seq<Task> {
    Filter(ts, IsIncomplete)
  }

  /** `tasks.filter(task => task.completed)` */
  function Completed(ts: seq<Task>): seq<Task> {
    Filter(ts, IsDone)
  }

  /** Every task is either active or done, so the two counts add up. */
  lemma {:induction false} ActiveDoneSplit(ts: seq<Task>)
    ensures |Incomplete(ts)| + |Completed(ts)| == |ts|
    ensures multiset(Incomplete(ts)) + multiset(Completed(ts)) == multiset(ts)
  {
    if ts != [] {
      assert ts == [ts[0]] + ts[1..];
      ActiveDoneSplit(ts[1..]);
    }
  }

  function CategoriesOf(ts: seq<Task>): seq<string> {
    seq(|ts|, i requires 0 <= i < |ts| => ts[i].category)
  }

  /** `tasks.filter(task => task.category === name).length`: the number of
      tasks whose category is exactly `name`. */
  function CountInCategory(ts: seq<Task>, name: string): (n: nat)
    ensures n == multiset(CategoriesOf(ts))[name]
    ensures n <= |ts|
  {
    if ts == [] then 0
    else
      assert CategoriesOf(ts) == [ts[0].category] + CategoriesOf(ts[1..]);
      (if ts[0].category == name then 1 else 0) + CountInCategory(ts[1..], name)
  }

  lemma CountAppend(ts: seq<Task>, t: Task, name: string)
    ensures CountInCategory(ts + [t], name)
         == CountInCategory(ts, name) + (if t.category == name then 1 else 0)
  {
    assert CategoriesOf(ts + [t]) == CategoriesOf(ts) + [t.category];
  }

  function IdsOf(ts: seq<Task>): seq<int> {
    seq(|ts|, i requires 0 <= i < |ts| => ts[i].Id)
  }

  /** `prev.map(task => task.Id === updated.Id ? updated : task)` */
  function ReplaceById(ts: seq<Task>, updated: Task): (r: seq<Task>)
    ensures |r| == |ts| && IdsOf(r) == IdsOf(ts)
    ensures forall i :: 0 <= i < |ts| && ts[i].Id != updated.Id ==> r[i] == ts[i]
    ensures forall i :: 0 <= i < |ts| && ts[i].Id == updated.Id ==> r[i] == updated
  {
    seq(|ts|, i requires 0 <= i < |ts| => if ts[i].Id == updated.Id then updated else ts[i])
  }

  function NotId(id: int): Task -> bool {
    (t: Task) => t.Id != id
  }

  /** `prev.filter(task => task.Id !== id)` */
  function RemoveById(ts: seq<Task>, id: int): (r: seq<Task>)
    ensures forall t :: t in r <==> t in ts && t.Id != id
    ensures forall t :: multiset(r)[t] == if t.Id == id then 0 else multiset(ts)[t]
  {
    FilterCounts(ts, NotId(id));
    Filter(ts, NotId(id))
  }

  lemma {:induction false} RemoveByIdConcat(a: seq<Task>, b: seq<Task>, id: int)
    ensures RemoveById(a + b, id) == RemoveById(a, id) + RemoveById(b, id)
  {
    FilterConcat(a, b, NotId(id));
  }
}
