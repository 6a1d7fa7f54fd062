/** The shell's progress ring (Layout.jsx): the share of the tasks due
    today that are completed. */
module Layout {
  import opened Seqs
  import opened Wrappers
  import opened Records

  /** Due today, read from the stored `due_date` field as a day number. */
  predicate DueOn(today: int, t: Task) {
    t.due_date == Some(today)
  }

  function DueOnDay(today: int): Task -> bool {
    (t: Task) => DueOn(today, t)
  }

  function TodayTasks(tasks: seq<Task>, today: int): seq<Task> {
    Filter(tasks, DueOnDay(today))
  }

  /** `(n / m) * 100` in floating point, here exact. */
  function Percent(n: int, m: int): real
    requires m > 0
  {
    (n as real / m as real) * 100.0
  }

  /** `todayProgress`: a percentage, 0 when nothing is due today. */
  function TodayProgress(tasks: seq<Task>, today: int): real {
    var due := TodayTasks(tasks, today);
    if |due| > 0 then Percent(|Completed(due)|, |due|) else 0.0
  }

  /** A filter keeps every element exactly when all of them satisfy it. */
  lemma {:induction false} FilterKeepsLength<T(!new)>(s: seq<T>, p: T -> bool)
    ensures |Filter(s, p)| == |s| <==> forall x :: x in s ==> p(x)
  {
    if s != [] {
      assert s == [s[0]] + s[1..];
      FilterKeepsLength(s[1..], p);
      if !p(s[0]) {
        assert |Filter(s[1..], p)| <= |s[1..]|;
      }
    }
  }

  lemma PercentFacts(n: int, m: int)
    requires 0 <= n <= m && m > 0
    ensures 0.0 <= Percent(n, m) <= 100.0
    ensures Percent(n, m) == 100.0 <==> n == m
    ensures Percent(n, m) == 0.0 <==> n == 0
  {
    var q := n as real / m as real;
    assert q * m as real == n as real;
    assert 0.0 <= q <= 1.0;
  }

  lemma PercentGrows(n: int, m: int)
    requires m > 0
    ensures Percent(n, m) < Percent(n + 1, m)
  {
    var q, q' := n as real / m as real, (n + 1) as real / m as real;
    assert q * m as real == n as real;
    assert q' * m as real == n as real + 1.0;
    assert q < q';
  }

  /** The progress is a percentage; it is 100 exactly when some task is due
      today and all of those are done, and 0 exactly when none of those is
      done (or none is due). */
  lemma TodayProgressBounds(tasks: seq<Task>, today: int)
    ensures 0.0 <= TodayProgress(tasks, today) <= 100.0
    ensures TodayProgress(tasks, today) == 100.0 <==>
      (exists t :: t in tasks && DueOn(today, t)) &&
      (forall t :: t in tasks && DueOn(today, t) ==> t.completed)
    ensures TodayProgress(tasks, today) == 0.0 <==>
      forall t :: t in tasks && DueOn(today, t) ==> !t.completed
  {
    var due := TodayTasks(tasks, today);
    var done := Completed(due);
    FilterKeepsLength(due, IsDone);
    assert forall t :: t in due <==> t in tasks && DueOn(today, t);
    assert forall t :: t in done <==> t in due && t.completed;
    if |due| > 0 {
      PercentFacts(|done|, |due|);
      assert due[0] in due;
      if done != [] {
        assert done[0] in done;
      }
    } else {
      assert forall t :: t !in due;
    }
  }

  /** Completing one more of today's tasks raises the progress. */
  lemma CompletingRaisesProgress(before: seq<Task>, i: int, today: int)
    requires 0 <= i < |before| && !before[i].completed && DueOn(today, before[i])
    ensures TodayProgress(before, today) < TodayProgress(before[i := before[i].(completed := true)], today)
  {
    var after := before[i := before[i].(completed := true)];
    var x, y := before[i], after[i];
    var pre, post := before[..i], before[i + 1..];
    assert before == pre + [x] + post;
    assert after == pre + [y] + post;
    var p := DueOnDay(today);
    var a, b := Filter(pre, p), Filter(post, p);
    SplitAround(pre, x, post, p);
    SplitAround(pre, y, post, p);
    SplitAround(a, x, b, IsDone);
    SplitAround(a, y, b, IsDone);
    var due := a + [x] + b;
    assert TodayTasks(before, today) == due;
    assert |TodayTasks(after, today)| == |due|;
    assert |Completed(TodayTasks(after, today))| == |Completed(due)| + 1;
    PercentGrows(|Completed(due)|, |due|);
  }

  lemma SplitAround<T(!new)>(a: seq<T>, x: T, b: seq<T>, p: T -> bool)
    ensures Filter(a + [x] + b, p) == Filter(a, p) + (if p(x) then [x] else []) + Filter(b, p)
  {
    FilterConcat(a + [x], b, p);
    FilterSnoc(a, x, p);
  }
}
