/** The literal tasks, projects and team the page is built with, and what they give. */
module SampleData {
  import opened DashboardTypes
  import opened JsArrays
  import opened TaskFilter
  import opened DashboardStats
  import opened AvatarInitials

  const Task1: Task := Task(1, "Реализация API авторизации", InProgress, High, "АИ", "Backend Platform")
  const Task2: Task := Task(2, "Оптимизация базы данных", Review, High, "МС", "Backend Platform")
  const Task3: Task := Task(3, "Дизайн новой админ-панели", InProgress, Medium, "ЕК", "Admin Dashboard")
  const Task4: Task := Task(4, "Настройка CI/CD pipeline", Todo, Medium, "ДП", "DevOps")
  const Task5: Task := Task(5, "Тестирование мобильной версии", Done, Low, "НВ", "Mobile App")
  const Task6: Task := Task(6, "Интеграция с платёжной системой", Todo, High, "АИ", "Backend Platform")

  const SampleTasks: seq<Task> := [Task1, Task2, Task3, Task4, Task5, Task6]

  const Project1: Project := Project(1, "Backend Platform", 65, 12, "15 дек", Active)
  const Project2: Project := Project(2, "Admin Dashboard", 40, 8, "20 дек", Active)
  const Project3: Project := Project(3, "Mobile App", 85, 15, "10 дек", Active)
  const Project4: Project := Project(4, "DevOps Infrastructure", 30, 6, "25 дек", Planning)

  const SampleProjects: seq<Project> := [Project1, Project2, Project3, Project4]

  const SampleTeam: seq<TeamMember> := [
    TeamMember(1, "Алексей Иванов", "Senior Backend Developer", "", 24, Online),
    TeamMember(2, "Мария Смирнова", "Database Specialist", "", 18, Online),
    TeamMember(3, "Елена Козлова", "UI/UX Designer", "", 31, Offline),
    TeamMember(4, "Дмитрий Петров", "DevOps Engineer", "", 15, Online),
    TeamMember(5, "Наталья Волкова", "QA Engineer", "", 22, Online)
  ]

  /** The cards read 2 in progress, 3 active projects, 1 in review and 1 done. */
  lemma SampleStats()
    ensures |Stats(SampleTasks, SampleProjects)| == 4
    ensures Stats(SampleTasks, SampleProjects)[0].value == 2
    ensures Stats(SampleTasks, SampleProjects)[1].value == 3
    ensures Stats(SampleTasks, SampleProjects)[2].value == 1
    ensures Stats(SampleTasks, SampleProjects)[3].value == 1
  {
    SampleInProgress();
    SampleActive();
    SampleReviewFilter();
    SampleDone();
  }

  /** The status column of the literal tasks. */
  lemma SampleStatuses()
    ensures Statuses(SampleTasks) == [InProgress, Review, InProgress, Todo, Done, Todo]
  {
  }

  lemma SampleInProgress()
    ensures CountStatus(SampleTasks, InProgress) == 2
  {
    CountStatusIsOccurrences(SampleTasks, InProgress);
    SampleStatuses();
  }

  lemma SampleDone()
    ensures CountStatus(SampleTasks, Done) == 1
  {
    CountStatusIsOccurrences(SampleTasks, Done);
    SampleStatuses();
  }

  lemma SampleActive()
    ensures CountActive(SampleProjects) == 3
  {
    CountActiveIsOccurrences(SampleProjects);
    assert ProjectStatuses(SampleProjects) == [Active, Active, Active, Planning];
  }

  /** Selecting 'review' shows task 2 alone. */
  lemma SampleReviewFilter()
    ensures FilteredTasks(SampleTasks, Only(Review)) == [Task2]
    ensures Task2.id == 2 && Task2.title == "Оптимизация базы данных"
  {
    var keep := HasStatus(Review);
    FilterCons(Task6, [], keep);
    FilterCons(Task5, [Task6], keep);
    FilterCons(Task4, [Task5, Task6], keep);
    FilterCons(Task3, [Task4, Task5, Task6], keep);
    FilterCons(Task2, [Task3, Task4, Task5, Task6], keep);
    FilterCons(Task1, [Task2, Task3, Task4, Task5, Task6], keep);
  }

  /** Progress is a percentage in every literal project (the page never checks it). */
  lemma SampleProgressInRange()
    ensures forall i :: 0 <= i < |SampleProjects| ==> 0 <= SampleProjects[i].progress <= 100
  {
  }

  /** The avatar initials shown for each team member, in team order. */
  const SampleTeamInitials: seq<string> := ["АИ", "МС", "ЕК", "ДП", "НВ"]

  lemma MemberInitials(k: nat)
    requires k < |SampleTeam|
    ensures Initials(SampleTeam[k].name) == SampleTeamInitials[k]
  {
    if k == 0 { Member1Initials(); }
    else if k == 1 { Member2Initials(); }
    else if k == 2 { Member3Initials(); }
    else if k == 3 { Member4Initials(); }
    else { Member5Initials(); }
  }

  lemma Member1Initials()
    ensures Initials(SampleTeam[0].name) == SampleTeamInitials[0]
  {
    assert SampleTeam[0].name == "Алексей" + " " + "Иванов";
    TwoWordInitials("Алексей", "Иванов");
  }

  lemma Member2Initials()
    ensures Initials(SampleTeam[1].name) == SampleTeamInitials[1]
  {
    assert SampleTeam[1].name == "Мария" + " " + "Смирнова";
    TwoWordInitials("Мария", "Смирнова");
  }

  lemma Member3Initials()
    ensures Initials(SampleTeam[2].name) == SampleTeamInitials[2]
  {
    assert SampleTeam[2].name == "Елена" + " " + "Козлова";
    TwoWordInitials("Елена", "Козлова");
  }

  lemma Member4Initials()
    ensures Initials(SampleTeam[3].name) == SampleTeamInitials[3]
  {
    assert SampleTeam[3].name == "Дмитрий" + " " + "Петров";
    TwoWordInitials("Дмитрий", "Петров");
  }

  lemma Member5Initials()
    ensures Initials(SampleTeam[4].name) == SampleTeamInitials[4]
  {
    assert SampleTeam[4].name == "Наталья" + " " + "Волкова";
    TwoWordInitials("Наталья", "Волкова");
  }

  lemma TwoWordInitials(first: string, last: string)
    requires first != [] && ' ' !in first
    requires last != [] && ' ' !in last
    ensures Initials(first + " " + last) == [first[0], last[0]]
  {
    InitialsAppend(first, last);
    InitialsOfWord(first);
    InitialsOfWord(last);
  }

  /**
   * Every literal task's assignee label is the avatar initials of a team member,
   * although nothing on the page links the two.
   */
  lemma SampleAssigneesAreTeamInitials()
    ensures forall j :: 0 <= j < |SampleTeam| ==> Initials(SampleTeam[j].name) == SampleTeamInitials[j]
    ensures forall i :: 0 <= i < |SampleTasks| ==> SampleTasks[i].assignee in SampleTeamInitials
  {
    forall j | 0 <= j < |SampleTeam|
      ensures Initials(SampleTeam[j].name) == SampleTeamInitials[j]
    {
      MemberInitials(j);
    }
  }
}
