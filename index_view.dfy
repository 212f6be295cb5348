/**
 * The page component's one piece of state, the selected status filter, held by
 * the view; a button click replaces it wholesale.
 */
module IndexView {
  import opened DashboardTypes
  import opened TaskFilter
  import opened DashboardStats
  import opened SampleData

  class IndexPage {
    const tasks: seq<Task>
    const projects: seq<Project>
    const team: seq<TeamMember>
    var selectedStatus: StatusFilter

    /** Mounting the page: the literal data, and no filter selected. */
    constructor ()
      ensures tasks == SampleTasks && projects == SampleProjects && team == SampleTeam
      ensures selectedStatus == All
    {
      tasks := SampleTasks;
      projects := SampleProjects;
      team := SampleTeam;
      selectedStatus := All;
    }

    /** `setSelectedStatus`: any of the five values, from any other. */
    method SetSelectedStatus(s: StatusFilter)
      modifies this
      ensures selectedStatus == s
    {
      selectedStatus := s;
    }

    /** The tasks the page shows for the current selection. */
    function VisibleTasks(): (r: seq<Task>)
      reads this
      ensures forall i :: 0 <= i < |r| ==> Selects(selectedStatus, r[i])
      ensures forall t :: t in tasks && Selects(selectedStatus, t) ==> t in r
    {
      FilteredTasks(tasks, selectedStatus)
    }

    /** The summary cards; they do not depend on the selection. */
    function StatCards(): (r: seq<StatCard>)
      ensures |r| == 4 && r[1].value <= |projects|
    {
      Stats(tasks, projects)
    }
  }

  /** Selecting 'review' on a freshly mounted page shows task 2 alone. */
  method SelectReview() returns (shown: seq<Task>)
    ensures shown == [Task2]
  {
    var page := new IndexPage();
    page.SetSelectedStatus(Only(Review));
    shown := page.VisibleTasks();
    SampleReviewFilter();
  }
}
