/**
 * Whole flows through the services, starting from empty collections, and
 * the client pages fed by the server's actual answers.
 */
module Scenarios {
  import opened Common
  import opened Text
  import opened TaskModel
  import opened Sequences
  import opened Tasks
  import Teams
  import Dashboard
  import TaskFilters

  /** The task documents a listing answers with, in listing order. */
  function Documents(ids: seq<TaskId>, tasks: map<TaskId, Task>): (r: seq<Task>)
    requires InStore(ids, tasks)
    ensures |r| == |ids| && forall i :: 0 <= i < |ids| ==> r[i] == tasks[ids[i]]
  {
    seq(|ids|, i requires 0 <= i < |ids| => tasks[ids[i]])
  }

  /** What a page reads from a listing: the documents on success, nothing
      on an error answer. */
  function Body(listed: Result<seq<TaskId>>, tasks: map<TaskId, Task>): (r: Option<seq<Task>>)
    requires listed.Ok? ==> InStore(listed.value, tasks)
    ensures r.Some? <==> listed.Ok?
    ensures r.Some? ==> r.value == Documents(listed.value, tasks)
  {
    if listed.Ok? then Some(Documents(listed.value, tasks)) else None
  }

  /** A manager creates the first team of an empty collection: the team
      holds the manager as its only member. */
  method NewTeam(manager: Actor, teamName: string) returns (teams: Teams.TeamCollection, id: TeamId)
    requires manager.role == Manager && Unpadded(teamName)
    ensures fresh(teams) && teams.Valid()
    ensures teams.teams == map[id := Teams.Team(teamName, manager.id, [manager.id])]
  {
    teams := new Teams.TeamCollection();
    TrimUnpadded(teamName);
    var team := teams.Create(manager, Some(teamName));
    id := team.value;
  }

  /** A manager creates a team and adds a member by email: the member joins
      after the manager. */
  method TeamWithMember(manager: Actor, member: Actor, email: string, teamName: string)
    returns (teams: Teams.TeamCollection, id: TeamId)
    requires manager.role == Manager && manager.id != member.id && email != "" && Unpadded(teamName)
    ensures fresh(teams) && teams.Valid() && id in teams.teams
    ensures teams.teams[id] == Teams.Team(teamName, manager.id, [manager.id, member.id])
  {
    teams, id := NewTeam(manager, teamName);
    var added := teams.AddMember(manager, id, Some(email), map[email := member.id]);
  }

  /** A manager sets up a team, adds a member by email and assigns a new
      task to them; the member moves it to done, and a later request of theirs
      to rename it saves without touching the title. */
  method AssignAndComplete(manager: Actor, member: Actor, email: string, teamName: string,
                           title: string, newTitle: string, now: nat)
    returns (created: Result<TaskId>, final: Result<Task>, renamed: Result<Task>)
    requires manager.role == Manager && member.role == Member && manager.id != member.id && email != ""
    requires Unpadded(teamName) && TitleStored(title)
    ensures created.Ok? && final.Ok? && renamed.Ok?
    ensures final.value.status == Done && final.value.assignedTo == Some(member.id)
    ensures final.value.createdBy == manager.id && final.value.title == title
    ensures renamed.value == final.value
  {
    var teams, teamId := TeamWithMember(manager, member, email, teamName);

    var tasks := new TaskCollection();
    TrimUnpadded(title);
    var request := CreateRequest(Some(title), None, None, Some("todo"), None,
                                 Some(member.id), Some(teamId));
    created := tasks.Create(manager, request, teams.teams, now);
    assert created.Ok?;
    var id := created.value;
    assert tasks.tasks[id] == NewTask(title, None, [], Todo, Medium, Some(member.id),
                                      manager.id, teamId, now);
    var done := tasks.Update(member, id, TaskPatch(None, None, None, Some("done"), None, None));
    assert done.Ok? && tasks.tasks[id] == done.value;
    final := GetTask(tasks.tasks, id, member);
    renamed := tasks.Update(member, id, TaskPatch(Some(newTitle), None, None, None, None, None));
  }

  /** A manager flags a task with a reason and later clears the flag. */
  method FlagAndClear(manager: Actor, teamName: string, title: string, reason: string, now: nat, later: nat)
    returns (flagged: Result<Task>, cleared: Result<Task>)
    requires manager.role == Manager && Unpadded(teamName) && TitleStored(title)
    ensures flagged.Ok? && cleared.Ok?
    ensures flagged.value.isBugged && flagged.value.bugReason == Some(reason)
    ensures flagged.value.bugReportedBy == Some(manager.id) && flagged.value.bugReportedAt == Some(now)
    ensures !cleared.value.isBugged && cleared.value.bugReason.None?
    ensures cleared.value.bugReportedBy.None? && cleared.value.bugReportedAt.None?
    ensures cleared.value.title == flagged.value.title == title
  {
    var teams, teamId := NewTeam(manager, teamName);

    var tasks := new TaskCollection();
    TrimUnpadded(title);
    var request := CreateRequest(Some(title), None, None, None, None, None, Some(teamId));
    var created := tasks.Create(manager, request, teams.teams, now);
    assert created.Ok?;
    var id := created.value;
    assert tasks.tasks[id] == NewTask(title, None, [], Todo, Medium, None,
                                      manager.id, teamId, now);
    var raised := tasks.SetBug(manager, id, Some(true), Some(reason), now);
    assert raised.Ok? && tasks.tasks[id] == raised.value;
    flagged := GetTask(tasks.tasks, id, manager);
    var lowered := tasks.SetBug(manager, id, Some(false), Some(""), later);
    cleared := GetTask(tasks.tasks, id, manager);
  }

  /** The dashboard asks for the task list without a team id; the server
      refuses that, so the page keeps its zero counters and shows no task,
      whatever the store holds. */
  method DashboardAgainstServer(tasks: map<TaskId, Task>, teams: map<TeamId, Teams.Team>, user: Actor)
    returns (page: Dashboard.Page)
    ensures page == Dashboard.Page(Dashboard.InitialStats, [])
    ensures !Dashboard.ShowBuggedSection(page)
  {
    var listed := ListTasks(tasks, teams, None, user);
    var fetched := Body(listed, tasks);
    page := Dashboard.Load(user.role, fetched, Some(|Teams.ListTeams(teams, user)|));
  }

  /** The task list page makes the same request, so it lists nothing under
      any filter. */
  method TaskListAgainstServer(tasks: map<TaskId, Task>, teams: map<TeamId, Teams.Team>, user: Actor,
                               statusFilter: string, priorityFilter: string)
    returns (shown: seq<Task>)
    ensures shown == []
  {
    var listed := ListTasks(tasks, teams, None, user);
    var fetched := Body(listed, tasks).GetOr([]);
    shown := TaskFilters.Filtered(fetched, statusFilter, priorityFilter);
  }

  /** The dashboard asking for the tasks of one of the user's teams, as the
      server requires: the listing is every task of that team the user may
      see, each once and newest first, and the counters count exactly those. */
  method DashboardForTeam(tasks: map<TaskId, Task>, teams: map<TeamId, Teams.Team>, user: Actor,
                          teamId: TeamId)
    returns (ids: seq<TaskId>, page: Dashboard.Page)
    requires teamId in teams && (user.role == Manager ==> teams[teamId].manager == user.id)
    ensures InStore(ids, tasks) && NoDuplicates(ids) && NewestFirst(ids, tasks)
    ensures forall k :: k in tasks ==> (k in ids <==> Visible(tasks[k], teamId, user))
    ensures page.tasks == Documents(ids, tasks) && page.stats.tasks == |ids|
    ensures page.stats.buggedTasks == Dashboard.CountBugged(page.tasks)
    ensures page.stats.teams == if user.role == Manager then |Teams.ListTeams(teams, user)| else 0
  {
    var listed := ListTasks(tasks, teams, Some(teamId), user);
    ids := listed.value;
    page := Dashboard.Load(user.role, Body(listed, tasks), Some(|Teams.ListTeams(teams, user)|));
  }

  /** The task list page asking for one of the user's teams: every task of
      that team the user may see and that passes both filters is listed. */
  method TaskListForTeam(tasks: map<TaskId, Task>, teams: map<TeamId, Teams.Team>, user: Actor,
                         teamId: TeamId, statusFilter: string, priorityFilter: string)
    returns (ids: seq<TaskId>, shown: seq<Task>)
    requires teamId in teams && (user.role == Manager ==> teams[teamId].manager == user.id)
    ensures InStore(ids, tasks) && forall k :: k in tasks ==> (k in ids <==> Visible(tasks[k], teamId, user))
    ensures shown == TaskFilters.Filtered(Documents(ids, tasks), statusFilter, priorityFilter)
    ensures forall k :: (k in tasks && Visible(tasks[k], teamId, user)
                         && TaskFilters.Matches(tasks[k], statusFilter, priorityFilter)) ==> tasks[k] in shown
  {
    var listed := ListTasks(tasks, teams, Some(teamId), user);
    ids := listed.value;
    var fetched := Documents(ids, tasks);
    shown := TaskFilters.Filtered(fetched, statusFilter, priorityFilter);
    forall k | k in tasks && Visible(tasks[k], teamId, user)
                && TaskFilters.Matches(tasks[k], statusFilter, priorityFilter)
      ensures tasks[k] in shown
    {
      var i :| 0 <= i < |ids| && ids[i] == k;
      assert fetched[i] == tasks[k];
    }
  }

  /** A manager's update may hand a task to anyone: unlike creation, the new
      assignee is not checked against the team's members. */
  lemma ReassignWithoutMembershipCheck(t: Task, anyone: UserId)
    ensures Patched(t, TaskPatch(None, None, None, None, None, Some(Some(anyone))), AllFields)
            == Ok(t.(assignedTo := Some(anyone)))
  {
  }
}
