/** The four summary cards at the top of the page (`stats`). */
module DashboardStats {
  import opened DashboardTypes
  import opened JsArrays
  import opened TaskFilter

  /** A summary card: its caption and the number it shows. */
  datatype StatCard = StatCard(caption: string, value: nat)

  /** The callback `p => p.status === 'active'`. */
  predicate IsActive(p: Project)
  {
    p.status == Active
  }

  /** `projects.filter(p => p.status === 'active').length` */
  function CountActive(projects: seq<Project>): (n: nat)
    ensures n <= |projects|
  {
    |Filter(projects, IsActive)|
  }

  /** The cards in display order: in progress, active projects, in review, done. */
  function Stats(tasks: seq<Task>, projects: seq<Project>): (r: seq<StatCard>)
    ensures |r| == 4
    ensures r[0].value <= |tasks| && r[2].value <= |tasks| && r[3].value <= |tasks|
    ensures r[1].value <= |projects|
    ensures r[0].value + r[2].value + r[3].value <= |tasks|
    ensures r[0].value + r[2].value + r[3].value + CountStatus(tasks, Todo) == |tasks|
  {
    StatusCountsPartition(tasks);
    [ StatCard("Активные задачи", CountStatus(tasks, InProgress)),
      StatCard("Проекты в работе", CountActive(projects)),
      StatCard("Задачи на ревью", CountStatus(tasks, Review)),
      StatCard("Готово за неделю", CountStatus(tasks, Done)) ]
  }

  /** The active-project count is the number of occurrences of `active` in the status column. */
  lemma {:induction false} CountActiveIsOccurrences(projects: seq<Project>)
    ensures CountActive(projects) == multiset(ProjectStatuses(projects))[Active]
    decreases |projects|
  {
    if projects != [] {
      CountActiveIsOccurrences(projects[1..]);
      assert ProjectStatuses(projects) == [projects[0].status] + ProjectStatuses(projects[1..]);
    }
  }

  /** The column of project statuses, `projects.map(p => p.status)`. */
  function ProjectStatuses(projects: seq<Project>): seq<ProjectStatus>
  {
    seq(|projects|, i requires 0 <= i < |projects| => projects[i].status)
  }
}
