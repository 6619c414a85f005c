/**
 * The task service: create, list, fetch, partially update, flag as bugged
 * and delete tasks. The task collection is an object whose map the
 * mutating handlers update in place; listing and fetching read that map.
 * Team documents are read from the team collection's map, passed in.
 */
module Tasks {
  import opened Common
  import opened Text
  import opened Sequences
  import opened TaskModel
  import Teams

  const TitleRequired := Failure(BadRequest, "Task title is required")
  const TeamRequired := Failure(BadRequest, "Team is required")
  const OnlyManagerCreates := Failure(Forbidden, "Only the team manager can create tasks")
  const AssigneeNotMember := Failure(BadRequest, "Assigned user is not a member of this team")
  const TeamIdRequired := Failure(BadRequest, "teamId query parameter is required")
  const ListAccessDenied := Failure(Forbidden, "Access denied")
  const TaskNotFound := Failure(NotFound, "Task not found")
  const NotAssignee := Failure(Forbidden, "You can only update tasks assigned to you")
  const OnlyCreatorDeletes := Failure(Forbidden, "Only the task creator can delete this task")
  const DeletedMessage := "Task deleted successfully"
  /** A document that fails schema validation on save; the handler's catch
      answers 500. */
  const SchemaRejected := Failure(ServerError, ServerErrorMessage)

  /** The body of POST /tasks. `title`, `images` and `team` are `None` when
      missing or falsy, as the handler tests them for truthiness; `assignedTo`
      is a user id or `None` when missing (an empty-string assignee, which
      the handler passes on to the schema's id cast, is outside the model);
      `content`, `status` and `priority` are `None` only when missing, since
      they are handed to the schema as they are. */
  datatype CreateRequest = CreateRequest(
    title: Option<string>,
    content: Option<string>,
    images: Option<seq<string>>,
    status: Option<string>,
    priority: Option<string>,
    assignedTo: Option<UserId>,
    team: Option<TeamId>)

  /** The body of PUT /tasks/:id: a field is `None` when it is `undefined`.
      `assignedTo` may be present and null, which unassigns; an empty-string
      assignee, which a manager's update hands to the schema's id cast, is
      outside the model. */
  datatype TaskPatch = TaskPatch(
    title: Option<string>,
    content: Option<string>,
    images: Option<seq<string>>,
    status: Option<string>,
    priority: Option<string>,
    assignedTo: Option<Option<UserId>>)

  /** Which fields an update may write, decided by the actor's role. */
  datatype Capability = AllFields | StatusOnly | NoFields

  /** The role branch of PUT /tasks/:id: a manager may write every editable
      field; a member only the status, and only on a task assigned to them;
      any other role writes nothing. */
  function UpdateCapability(t: Task, actor: Actor): (r: Result<Capability>)
    ensures actor.role == Manager ==> r == Ok(AllFields)
    ensures actor.role == Member ==>
              (r.Ok? <==> t.assignedTo == Some(actor.id))
              && (r.Ok? ==> r.value == StatusOnly)
              && (r.Err? ==> r == Err(NotAssignee))
    ensures actor.role.Other? ==> r == Ok(NoFields)
  {
    match actor.role
    case Manager => Ok(AllFields)
    case Member =>
      if t.assignedTo.None? || t.assignedTo.value != actor.id then Err(NotAssignee)
      else Ok(StatusOnly)
    case Other(_) => Ok(NoFields)
  }

  /** The task a permitted update saves, or the schema's rejection of it.
      Fields outside the capability, and those the patch leaves out, keep
      their values; `createdBy`, `team`, `createdAt` and the bug fields are
      never written. */
  function Patched(t: Task, p: TaskPatch, cap: Capability): (r: Result<Task>)
    ensures r.Err? ==> r == Err(SchemaRejected)
    ensures r.Ok? ==> && r.value.createdBy == t.createdBy && r.value.team == t.team
                      && r.value.createdAt == t.createdAt && r.value.isBugged == t.isBugged
                      && r.value.bugReason == t.bugReason && r.value.bugReportedBy == t.bugReportedBy
                      && r.value.bugReportedAt == t.bugReportedAt
    ensures WellFormed(t) && r.Ok? ==> WellFormed(r.value)
    ensures cap == NoFields ==> r == Ok(t)
    ensures cap == StatusOnly ==>
              && (r.Ok? <==> p.status.None? || ParseStatus(p.status.value).Some?)
              && (r.Ok? && p.status.None? ==> r.value == t)
              && (r.Ok? && p.status.Some? ==> r.value == t.(status := ParseStatus(p.status.value).value))
    ensures cap == AllFields ==>
              && (r.Ok? <==> && (p.title.None? || !Blank(p.title.value))
                             && (p.status.None? || ParseStatus(p.status.value).Some?)
                             && (p.priority.None? || ParsePriority(p.priority.value).Some?))
              && (r.Ok? ==>
                    && r.value.title == (if p.title.Some? then Trim(p.title.value) else t.title)
                    && r.value.content == (if p.content.Some? then p.content else t.content)
                    && r.value.images == (if p.images.Some? then p.images.value else t.images)
                    && (p.status.Some? ==> StatusName(r.value.status) == p.status.value)
                    && (p.status.None? ==> r.value.status == t.status)
                    && (p.priority.Some? ==> PriorityName(r.value.priority) == p.priority.value)
                    && (p.priority.None? ==> r.value.priority == t.priority)
                    && r.value.assignedTo == (if p.assignedTo.Some? then p.assignedTo.value else t.assignedTo))
  {
    match cap
    case NoFields => Ok(t)
    case StatusOnly =>
      var status := CastStatus(p.status, t.status);
      if status.None? then Err(SchemaRejected) else Ok(t.(status := status.value))
    case AllFields =>
      var title := if p.title.Some? then CastTitle(p.title.value) else Some(t.title);
      var status := CastStatus(p.status, t.status);
      var priority := CastPriority(p.priority, t.priority);
      if title.None? || status.None? || priority.None? then Err(SchemaRejected)
      else Ok(t.(title := title.value,
                 content := if p.content.Some? then p.content else t.content,
                 images := p.images.GetOr(t.images),
                 status := status.value,
                 priority := priority.value,
                 assignedTo := p.assignedTo.GetOr(t.assignedTo)))
  }

  /** The task after PUT /tasks/:id/bug on it. Raising the flag records the
      reason (empty when none is given), the reporter and the time; lowering
      it, or leaving it out, clears all three whatever they were. Nothing
      else changes. */
  function Flagged(t: Task, isBugged: Option<bool>, reason: Option<string>,
                   reporter: UserId, now: nat): (r: Task)
    ensures r.isBugged == (isBugged == Some(true))
    ensures r.isBugged ==> r.bugReason == Some(reason.GetOr("")) && r.bugReportedBy == Some(reporter)
                           && r.bugReportedAt == Some(now)
    ensures !r.isBugged ==> r.bugReason.None? && r.bugReportedBy.None? && r.bugReportedAt.None?
    ensures BugFieldsConsistent(r)
    ensures r.(isBugged := t.isBugged, bugReason := t.bugReason, bugReportedBy := t.bugReportedBy,
               bugReportedAt := t.bugReportedAt) == t
  {
    if isBugged == Some(true) then
      t.(isBugged := true, bugReason := Some(reason.GetOr("")), bugReportedBy := Some(reporter),
         bugReportedAt := Some(now))
    else
      t.(isBugged := false, bugReason := None, bugReportedBy := None, bugReportedAt := None)
  }

  /** The listing query: the team's tasks, and for a member only those
      assigned to them. */
  predicate Visible(t: Task, teamId: TeamId, actor: Actor) {
    t.team == teamId && (actor.role == Member ==> t.assignedTo == Some(actor.id))
  }

  predicate InStore(ids: seq<TaskId>, tasks: map<TaskId, Task>) {
    forall i :: 0 <= i < |ids| ==> ids[i] in tasks
  }

  /** Sorted by `createdAt`, newest first. */
  predicate NewestFirst(ids: seq<TaskId>, tasks: map<TaskId, Task>) {
    forall i, j :: 0 <= i < j < |ids| && ids[i] in tasks && ids[j] in tasks ==>
      tasks[ids[i]].createdAt >= tasks[ids[j]].createdAt
  }

  /** Inserts `k` into a newest-first list just after every task at least as
      new as it. */
  method InsertNewest(ids: seq<TaskId>, k: TaskId, tasks: map<TaskId, Task>) returns (r: seq<TaskId>)
    requires k in tasks && InStore(ids, tasks) && NewestFirst(ids, tasks)
    ensures InStore(r, tasks) && NewestFirst(r, tasks)
    ensures forall j :: 0 <= j < |r| ==> r[j] == k || r[j] in ids
    ensures k in r && forall x :: x in ids ==> x in r
    ensures NoDuplicates(ids) && k !in ids ==> NoDuplicates(r)
  {
    var c := tasks[k].createdAt;
    var i := 0;
    while i < |ids| && tasks[ids[i]].createdAt >= c
      invariant 0 <= i <= |ids|
      invariant forall j :: 0 <= j < i ==> tasks[ids[j]].createdAt >= c
    {
      i := i + 1;
    }
    r := ids[..i] + [k] + ids[i..];
    SpliceIndex(ids, i, k, r);
    SpliceNewestFirst(ids, i, k, tasks, r);
    SpliceDistinct(ids, i, k, r);
  }

  /** Where the elements of `ids[..i] + [k] + ids[i..]` come from. */
  lemma SpliceIndex(ids: seq<TaskId>, i: nat, k: TaskId, r: seq<TaskId>)
    requires i <= |ids| && r == ids[..i] + [k] + ids[i..]
    ensures |r| == |ids| + 1 && r[i] == k
    ensures forall j :: 0 <= j < i ==> r[j] == ids[j]
    ensures forall j :: i < j < |r| ==> r[j] == ids[j - 1]
    ensures forall x :: x in r <==> x == k || x in ids
  {
    assert ids == ids[..i] + ids[i..];
    forall x | x in ids ensures x in r {
      var j :| 0 <= j < |ids| && ids[j] == x;
      if j < i { assert r[j] == x; } else { assert r[j + 1] == x; }
    }
  }

  /** Inserting before the first position holding an older task keeps the
      list newest first. */
  lemma SpliceNewestFirst(ids: seq<TaskId>, i: nat, k: TaskId, tasks: map<TaskId, Task>, r: seq<TaskId>)
    requires k in tasks && InStore(ids, tasks) && NewestFirst(ids, tasks) && i <= |ids|
    requires forall j :: 0 <= j < i ==> tasks[ids[j]].createdAt >= tasks[k].createdAt
    requires i < |ids| ==> tasks[ids[i]].createdAt < tasks[k].createdAt
    requires |r| == |ids| + 1 && r[i] == k
    requires forall j :: 0 <= j < i ==> r[j] == ids[j]
    requires forall j :: i < j < |r| ==> r[j] == ids[j - 1]
    ensures InStore(r, tasks) && NewestFirst(r, tasks)
  {
    var c := tasks[k].createdAt;
    forall j | i <= j < |ids| ensures tasks[ids[j]].createdAt < c {
      assert tasks[ids[j]].createdAt <= tasks[ids[i]].createdAt;
    }
    forall j | 0 <= j < |r| ensures r[j] in tasks {
      if j < i { assert r[j] == ids[j]; } else if j > i { assert r[j] == ids[j - 1]; }
    }
    forall a, b | 0 <= a < b < |r| && r[a] in tasks && r[b] in tasks
      ensures tasks[r[a]].createdAt >= tasks[r[b]].createdAt
    {
      if b < i {
        assert r[a] == ids[a] && r[b] == ids[b];
      } else if b == i {
        assert r[a] == ids[a];
      } else if a < i {
        assert r[a] == ids[a] && r[b] == ids[b - 1];
      } else if a == i {
        assert r[b] == ids[b - 1];
      } else {
        assert r[a] == ids[a - 1] && r[b] == ids[b - 1];
      }
    }
  }

  /** Inserting an id not yet listed keeps the list duplicate-free. */
  lemma SpliceDistinct(ids: seq<TaskId>, i: nat, k: TaskId, r: seq<TaskId>)
    requires i <= |ids| && |r| == |ids| + 1 && r[i] == k
    requires forall j :: 0 <= j < i ==> r[j] == ids[j]
    requires forall j :: i < j < |r| ==> r[j] == ids[j - 1]
    ensures NoDuplicates(ids) && k !in ids ==> NoDuplicates(r)
  {
    if NoDuplicates(ids) && k !in ids {
      forall a, b | 0 <= a < b < |r| ensures r[a] != r[b] {
        if b < i {
          assert r[a] == ids[a] && r[b] == ids[b];
        } else if b == i {
          assert r[a] == ids[a];
        } else if a < i {
          assert r[a] == ids[a] && r[b] == ids[b - 1];
        } else if a == i {
          assert r[b] == ids[b - 1];
        } else {
          assert r[a] == ids[a - 1] && r[b] == ids[b - 1];
        }
      }
    }
  }

  /** GET /tasks?teamId=: the checks in order, then the visible tasks of the
      team, each once, newest first. */
  method ListTasks(tasks: map<TaskId, Task>, teams: map<TeamId, Teams.Team>,
                   teamId: Option<TeamId>, actor: Actor) returns (r: Result<seq<TaskId>>)
    ensures teamId.None? ==> r == Err(TeamIdRequired)
    ensures teamId.Some? && teamId.value !in teams ==> r == Err(Teams.TeamNotFound)
    ensures (teamId.Some? && teamId.value in teams && actor.role == Manager
             && teams[teamId.value].manager != actor.id) ==> r == Err(ListAccessDenied)
    ensures r.Ok? <==> teamId.Some? && teamId.value in teams
                       && (actor.role == Manager ==> teams[teamId.value].manager == actor.id)
    ensures r.Ok? ==> && InStore(r.value, tasks) && NoDuplicates(r.value)
                      && NewestFirst(r.value, tasks)
                      && (forall i :: 0 <= i < |r.value| ==> Visible(tasks[r.value[i]], teamId.value, actor))
                      && (forall k :: k in tasks && Visible(tasks[k], teamId.value, actor) ==> k in r.value)
    ensures r.Ok? && actor.role == Member ==>
              forall i :: 0 <= i < |r.value| ==> tasks[r.value[i]].assignedTo == Some(actor.id)
  {
    if teamId.None? {
      return Err(TeamIdRequired);
    }
    if teamId.value !in teams {
      return Err(Teams.TeamNotFound);
    }
    var team := teams[teamId.value];
    if actor.role == Manager && team.manager != actor.id {
      return Err(ListAccessDenied);
    }
    var ids: seq<TaskId> := [];
    var rest := tasks.Keys;
    while rest != {}
      invariant rest <= tasks.Keys
      invariant InStore(ids, tasks) && NoDuplicates(ids) && NewestFirst(ids, tasks)
      invariant forall i :: 0 <= i < |ids| ==> ids[i] !in rest && Visible(tasks[ids[i]], teamId.value, actor)
      invariant forall k :: k in tasks && k !in rest && Visible(tasks[k], teamId.value, actor) ==> k in ids
      decreases rest
    {
      var k :| k in rest;
      if Visible(tasks[k], teamId.value, actor) {
        ids := InsertNewest(ids, k, tasks);
      }
      rest := rest - {k};
    }
    r := Ok(ids);
  }

  /** GET /tasks/:id: any authenticated user gets any existing task. */
  function GetTask(tasks: map<TaskId, Task>, id: TaskId, actor: Actor): (r: Result<Task>)
    ensures r.Ok? <==> id in tasks
    ensures r.Ok? ==> r.value == tasks[id]
    ensures r.Err? ==> r == Err(TaskNotFound)
  {
    if id in tasks then Ok(tasks[id]) else Err(TaskNotFound)
  }

  /** A manager's update: each field the request carries is assigned to the
      document in turn (the title through the schema's trim setter), and the
      save's validation rejects a blank title or a status or priority outside
      its enum. */
  method AssignAll(stored: Task, patch: TaskPatch) returns (task: Task, valid: bool)
    ensures valid <==> Patched(stored, patch, AllFields).Ok?
    ensures valid ==> task == Patched(stored, patch, AllFields).value
  {
    task := stored;
    valid := true;
    if patch.title.Some? {
      var title := CastTitle(patch.title.value);
      if title.Some? { task := task.(title := title.value); } else { valid := false; }
    }
    if patch.content.Some? {
      task := task.(content := patch.content);
    }
    if patch.images.Some? {
      task := task.(images := patch.images.value);
    }
    if patch.status.Some? {
      var status := ParseStatus(patch.status.value);
      if status.Some? { task := task.(status := status.value); } else { valid := false; }
    }
    if patch.priority.Some? {
      var priority := ParsePriority(patch.priority.value);
      if priority.Some? { task := task.(priority := priority.value); } else { valid := false; }
    }
    if patch.assignedTo.Some? {
      task := task.(assignedTo := patch.assignedTo.value);
    }
  }

  /** The task collection. */
  class TaskCollection {
    var tasks: map<TaskId, Task>
    var nextId: nat

    ghost predicate Valid()
      reads this
    {
      forall id :: id in tasks ==> id < nextId && WellFormed(tasks[id])
    }

    constructor ()
      ensures Valid() && tasks == map[]
    {
      tasks := map[];
      nextId := 0;
    }

    /** POST /tasks. */
    method Create(actor: Actor, req: CreateRequest, teams: map<TeamId, Teams.Team>, now: nat)
      returns (r: Result<TaskId>)
      requires Valid()
      modifies this
      ensures Valid()
      ensures r.Err? ==> tasks == old(tasks)
      ensures actor.role != Manager ==> r == Err(Failure(Forbidden, RoleCheckMessage))
      ensures actor.role == Manager && (req.title.None? || Blank(req.title.value)) ==> r == Err(TitleRequired)
      ensures actor.role == Manager && req.title.Some? && !Blank(req.title.value) ==>
                && (req.team.None? ==> r == Err(TeamRequired))
                && (req.team.Some? && req.team.value !in teams ==> r == Err(Teams.TeamNotFound))
                && (req.team.Some? && req.team.value in teams ==>
                      var team := teams[req.team.value];
                      && (team.manager != actor.id ==> r == Err(OnlyManagerCreates))
                      && ((team.manager == actor.id && req.assignedTo.Some?
                           && req.assignedTo.value !in team.members) ==> r == Err(AssigneeNotMember))
                      && (team.manager == actor.id
                          && (req.assignedTo.None? || req.assignedTo.value in team.members) ==>
                            var status := CastStatus(req.status, DefaultStatus);
                            var priority := CastPriority(req.priority, DefaultPriority);
                            && (status.None? || priority.None? ==> r == Err(SchemaRejected))
                            && (status.Some? && priority.Some? ==>
                                  && r.Ok? && r.value !in old(tasks)
                                  && tasks == old(tasks)[r.value := NewTask(
                                       Trim(req.title.value), req.content, req.images.GetOr([]),
                                       status.value, priority.value, req.assignedTo,
                                       actor.id, req.team.value, now)])))
    {
      var denied := RoleCheck(actor, Manager);
      if denied.Some? {
        return Err(denied.value);
      }
      if req.title.None? || Blank(req.title.value) {
        return Err(TitleRequired);
      }
      if req.team.None? {
        return Err(TeamRequired);
      }
      var teamId := req.team.value;
      if teamId !in teams {
        return Err(Teams.TeamNotFound);
      }
      var team := teams[teamId];
      if team.manager != actor.id {
        return Err(OnlyManagerCreates);
      }
      if req.assignedTo.Some? {
        var isMember := req.assignedTo.value in team.members;
        if !isMember {
          return Err(AssigneeNotMember);
        }
      }
      var status := CastStatus(req.status, DefaultStatus);
      var priority := CastPriority(req.priority, DefaultPriority);
      if status.None? || priority.None? {
        return Err(SchemaRejected);
      }
      // The handler trims the title and the schema's setter trims it again.
      var title := Trim(req.title.value);
      TrimIdempotent(req.title.value);
      assert TitleStored(title);
      var task := NewTask(title, req.content, req.images.GetOr([]), status.value, priority.value,
                          req.assignedTo, actor.id, teamId, now);
      var id := nextId;
      assert id !in tasks;
      tasks := tasks[id := task];
      nextId := nextId + 1;
      r := Ok(id);
    }

    /** PUT /tasks/:id: the role decides what may be written; the fields the
        request carries are assigned one by one, then the document is saved. */
    method Update(actor: Actor, id: TaskId, patch: TaskPatch) returns (r: Result<Task>)
      requires Valid()
      modifies this
      ensures Valid()
      ensures r.Err? ==> tasks == old(tasks)
      ensures id !in old(tasks) ==> r == Err(TaskNotFound)
      ensures id in old(tasks) ==>
                var cap := UpdateCapability(old(tasks)[id], actor);
                && (cap.Err? ==> r == Err(cap.failure))
                && (cap.Ok? ==> r == Patched(old(tasks)[id], patch, cap.value))
      ensures r.Ok? ==> tasks == old(tasks)[id := r.value]
    {
      if id !in tasks {
        return Err(TaskNotFound);
      }
      var stored := tasks[id];
      var task := stored;
      var valid := true;
      if actor.role == Manager {
        task, valid := AssignAll(stored, patch);
      } else if actor.role == Member {
        if stored.assignedTo.None? || stored.assignedTo.value != actor.id {
          return Err(NotAssignee);
        }
        if patch.status.Some? {
          var status := ParseStatus(patch.status.value);
          if status.Some? { task := stored.(status := status.value); } else { valid := false; }
        }
      }
      if !valid {
        return Err(SchemaRejected);
      }
      tasks := tasks[id := task];
      r := Ok(task);
    }

    /** PUT /tasks/:id/bug. */
    method SetBug(actor: Actor, id: TaskId, isBugged: Option<bool>, bugReason: Option<string>, now: nat)
      returns (r: Result<Task>)
      requires Valid()
      modifies this
      ensures Valid()
      ensures r.Err? ==> tasks == old(tasks)
      ensures actor.role != Manager ==> r == Err(Failure(Forbidden, RoleCheckMessage))
      ensures actor.role == Manager && id !in old(tasks) ==> r == Err(TaskNotFound)
      ensures actor.role == Manager && id in old(tasks) ==>
                && r == Ok(Flagged(old(tasks)[id], isBugged, bugReason, actor.id, now))
                && tasks == old(tasks)[id := r.value]
    {
      var denied := RoleCheck(actor, Manager);
      if denied.Some? {
        return Err(denied.value);
      }
      if id !in tasks {
        return Err(TaskNotFound);
      }
      var task := tasks[id];
      task := task.(isBugged := isBugged == Some(true));
      if isBugged == Some(true) {
        task := task.(bugReason := Some(bugReason.GetOr("")));
        task := task.(bugReportedBy := Some(actor.id));
        task := task.(bugReportedAt := Some(now));
      } else {
        task := task.(bugReason := None);
        task := task.(bugReportedBy := None);
        task := task.(bugReportedAt := None);
      }
      tasks := tasks[id := task];
      r := Ok(task);
    }

    /** DELETE /tasks/:id. */
    method Delete(actor: Actor, id: TaskId) returns (r: Result<string>)
      requires Valid()
      modifies this
      ensures Valid()
      ensures r.Err? ==> tasks == old(tasks)
      ensures actor.role != Manager ==> r == Err(Failure(Forbidden, RoleCheckMessage))
      ensures actor.role == Manager && id !in old(tasks) ==> r == Err(TaskNotFound)
      ensures actor.role == Manager && id in old(tasks) && old(tasks)[id].createdBy != actor.id ==>
                r == Err(OnlyCreatorDeletes)
      ensures r.Ok? <==> actor.role == Manager && id in old(tasks) && old(tasks)[id].createdBy == actor.id
      ensures r.Ok? ==> r.value == DeletedMessage && tasks == old(tasks) - {id}
                        && id !in tasks
                        && forall k :: k in old(tasks) && k != id ==> k in tasks && tasks[k] == old(tasks)[k]
    {
      var denied := RoleCheck(actor, Manager);
      if denied.Some? {
        return Err(denied.value);
      }
      if id !in tasks {
        return Err(TaskNotFound);
      }
      if tasks[id].createdBy != actor.id {
        return Err(OnlyCreatorDeletes);
      }
      tasks := tasks - {id};
      r := Ok(DeletedMessage);
    }
  }
}
