/**
 * The task list shown under the status buttons (`filteredTasks`) and the
 * per-status task counts behind the summary cards.
 */
module TaskFilter {
  import opened DashboardTypes
  import opened JsArrays

  /** The callback `t => t.status === s`. */
  function HasStatus(s: TaskStatus): Task -> bool
  {
    (t: Task) => t.status == s
  }

  /** Whether a task is shown under a filter selection. */
  predicate Selects(sel: StatusFilter, t: Task)
  {
    sel.All? || t.status == sel.status
  }

  /** `selectedStatus === 'all' ? tasks : tasks.filter(t => t.status === selectedStatus)` */
  function FilteredTasks(tasks: seq<Task>, sel: StatusFilter): (r: seq<Task>)
    ensures sel.All? ==> r == tasks
    ensures |r| <= |tasks|
    ensures forall i :: 0 <= i < |r| ==> Selects(sel, r[i])
    ensures forall t :: t in tasks && Selects(sel, t) ==> t in r
    ensures IsSubsequence(r, tasks)
  {
    match sel
    case All =>
      SelfSubsequence(tasks);
      tasks
    case Only(s) =>
      FilterIsSubsequence(tasks, HasStatus(s));
      Filter(tasks, HasStatus(s))
  }

  lemma {:induction false} SelfSubsequence(xs: seq<Task>)
    ensures IsSubsequence(xs, xs)
    decreases |xs|
  {
    if xs != [] {
      SelfSubsequence(xs[1..]);
    }
  }

  /** A task is kept as often as it occurs when selected, and never otherwise. */
  lemma FilteredMultiplicity(tasks: seq<Task>, sel: StatusFilter, t: Task)
    ensures multiset(FilteredTasks(tasks, sel))[t] == if Selects(sel, t) then multiset(tasks)[t] else 0
  {
    if sel.Only? {
      FilterMultiplicity(tasks, HasStatus(sel.status), t);
    }
  }

  /** Selecting the same filter again changes nothing. */
  lemma FilteredIdempotent(tasks: seq<Task>, sel: StatusFilter)
    ensures FilteredTasks(FilteredTasks(tasks, sel), sel) == FilteredTasks(tasks, sel)
  {
    if sel.Only? {
      FilterIdempotent(tasks, HasStatus(sel.status));
    }
  }

  /** Two different statuses select no common task. */
  lemma FilteredDisjoint(tasks: seq<Task>, a: TaskStatus, b: TaskStatus, t: Task)
    requires a != b
    ensures !(t in FilteredTasks(tasks, Only(a)) && t in FilteredTasks(tasks, Only(b)))
  {
  }

  /** `tasks.filter(t => t.status === s).length` */
  function CountStatus(tasks: seq<Task>, s: TaskStatus): (n: nat)
    ensures n <= |tasks|
  {
    |Filter(tasks, HasStatus(s))|
  }

  /** The number of tasks a status button shows is the status count. */
  lemma FilteredLengthIsCount(tasks: seq<Task>, s: TaskStatus)
    ensures |FilteredTasks(tasks, Only(s))| == CountStatus(tasks, s)
  {
  }

  /** Every task has exactly one status: the four counts add up to the list length. */
  lemma {:induction false} StatusCountsPartition(tasks: seq<Task>)
    ensures CountStatus(tasks, Todo) + CountStatus(tasks, InProgress)
          + CountStatus(tasks, Review) + CountStatus(tasks, Done) == |tasks|
    decreases |tasks|
  {
    if tasks != [] {
      StatusCountsPartition(tasks[1..]);
    }
  }

  /** A count is the number of occurrences of the status in the status column. */
  lemma {:induction false} CountStatusIsOccurrences(tasks: seq<Task>, s: TaskStatus)
    ensures CountStatus(tasks, s) == multiset(Statuses(tasks))[s]
    decreases |tasks|
  {
    if tasks != [] {
      CountStatusIsOccurrences(tasks[1..], s);
      assert Statuses(tasks) == [tasks[0].status] + Statuses(tasks[1..]);
    }
  }

  /** The column of statuses, `tasks.map(t => t.status)`. */
  function Statuses(tasks: seq<Task>): seq<TaskStatus>
  {
    seq(|tasks|, i requires 0 <= i < |tasks| => tasks[i].status)
  }
}
