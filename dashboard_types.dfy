/**
 * The records the dashboard page displays. JavaScript numbers are modelled as
 * integers; strings as sequences of characters.
 */
module DashboardTypes {

  datatype TaskStatus = Todo | InProgress | Review | Done

  datatype Priority = Low | Medium | High

  datatype Task = Task(
    id: int,
    title: string,
    status: TaskStatus,
    priority: Priority,
    assignee: string,
    project: string)

  datatype ProjectStatus = Active | Planning | Completed

  /** `tasks` is a displayed count; nothing computes with it. */
  datatype Project = Project(
    id: int,
    name: string,
    progress: int,
    tasks: int,
    deadline: string,
    status: ProjectStatus)

  datatype Presence = Online | Offline

  datatype TeamMember = TeamMember(
    id: int,
    name: string,
    role: string,
    avatar: string,
    tasksCompleted: int,
    status: Presence)

  /** The selected filter, `TaskStatus | 'all'`. */
  datatype StatusFilter = All | Only(status: TaskStatus)

  /** The string literal of each priority, as the source spells it. */
  function PriorityKey(p: Priority): string
  {
    match p
    case Low => "low"
    case Medium => "medium"
    case High => "high"
  }
}
