/**
 * The logged task shared by the task logger, the report text, the CSV
 * export and the report store.
 *
 * A time is a whole number of quarter-hours. Every quarter-hour multiple is
 * exactly representable as a JavaScript number, so sums, `toString`,
 * `Math.floor` and `Math.round` of such times are exact and the model can
 * state them with integer arithmetic.
 */
module Tasks {
  import opened Text

  /** A duration in quarter-hours: `q` stands for `q / 4` hours. */
  type Quarters = nat

  datatype Task = Task(name: string, time: Quarters, status: string)

  /** `tasks.reduce((sum, task) => sum + task.time, 0)` */
  function TotalTime(tasks: seq<Task>): nat
  {
    if tasks == [] then 0 else TotalTime(tasks[..|tasks| - 1]) + tasks[|tasks| - 1].time
  }

  lemma {:induction false} TotalTimeAppend(a: seq<Task>, b: seq<Task>)
    ensures TotalTime(a + b) == TotalTime(a) + TotalTime(b)
    decreases |b|
  {
    if b == [] {
      assert a + b == a;
    } else {
      assert (a + b)[..|a + b| - 1] == a + b[..|b| - 1];
      TotalTimeAppend(a, b[..|b| - 1]);
    }
  }

  lemma TotalTimeAround(pre: seq<Task>, x: Task, post: seq<Task>)
    ensures TotalTime(pre + [x] + post) == TotalTime(pre) + x.time + TotalTime(post)
  {
    TotalTimeAppend(pre + [x], post);
    TotalTimeAppend(pre, [x]);
    assert [x][..0] == [];
  }

  /** Removing the task at `i` takes exactly its time off the total. */
  lemma TotalTimeRemoveAt(s: seq<Task>, i: nat)
    requires i < |s|
    ensures TotalTime(s[..i] + s[i + 1..]) == TotalTime(s) - s[i].time
  {
    SplitSeqAt(s, i);
    TotalTimeAround(s[..i], s[i], s[i + 1..]);
    TotalTimeAppend(s[..i], s[i + 1..]);
  }

  /** The text JavaScript gives the number `q / 4` (`String(n)`, `n.toString()`). */
  function HoursText(q: Quarters): (s: string)
    ensures |s| >= 1
  {
    NatToString(q / 4) + ["", ".25", ".5", ".75"][q % 4]
  }

  /** The rendering of a time is digits and at most one decimal point. */
  lemma HoursTextPlain(q: Quarters, c: char)
    requires !IsDigit(c) && c != '.'
    ensures c !in HoursText(q)
  {
    var whole := NatToString(q / 4);
    assert forall i :: 0 <= i < |whole| ==> whole[i] != c;
  }
}
