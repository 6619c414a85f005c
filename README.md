# Task-Manager: authorization and mutation rules, in Dafny

This project models the rule engine behind Task-Manager's REST server.

**Server side.** The model covers:

- the bearer-token guard in front of every route;
- the team service: create, list, get, add member and remove member;
- the task service: create, list, get, partial update, bug flag and delete;
- the task document schema those services write to.

**Client side.** The model covers three pure helpers:

- the route guard;
- the status and priority filter of the task list page;
- the dashboard counters.

Every route takes the caller as an explicit `Actor` value (id, name, email, role) and answers with a `Result`. A rejection carries its HTTP class (`BadRequest`, `Unauthorized`, `Forbidden`, `NotFound`, `ServerError`) and the server's exact message.

The team and task collections are classes. Each holds a `map` from id to document, and its handlers update that map in place. Every handler states its order of checks and its new state, and says the map is unchanged on every rejection. Two invariants are kept by every handler:

- every team's manager is one of its members, listed once (`TeamCollection.Valid`);
- every stored task has a trimmed, non-empty title, and its three bug fields are present or absent together (`TaskCollection.Valid`).

Listing and fetching read the maps.

Modules:

- `Common`: ids, roles, actors, results, and the `roleCheck('manager')` gate.
- `Text`: JavaScript's `trim`, `startsWith` and single `replace` on strings (the latter for replacement strings without `$` patterns).
- `Sequences`: `Array.prototype.filter`, duplicate-freedom, subsequences.
- `TaskModel`: the task schema, its enums, defaults and value casting.
- `Auth`: the bearer-token guard. Token verification and the user store are oracles.
- `Teams`: the team service, with class `TeamCollection`.
- `Tasks`: the task service, with class `TaskCollection`.
- `PrivateRoute`, `TaskFilters`, `Dashboard`, `TaskDetail`: the client helpers.
- `Scenarios`: whole flows that start from empty collections, and the client pages fed by the server's real answers.

Where the code's behaviour looks unintended, the model follows the code:

- **A member's title change is not refused.** In an update, the assignee's handler reads only `status` from the body (`server/src/routes/tasks.js:142-143`). An attempt to retitle is saved as a no-op and answered with success, not 403. See `Scenarios.AssignAndComplete`.
- **A manager may update or flag any task.** The update and bug-flag handlers check only the caller's role (`server/src/routes/tasks.js:128`, `server/src/routes/tasks.js:162`), not whether the caller manages the task's team. The model keeps this: `Tasks.UpdateCapability` and `TaskCollection.SetBug` never look at the team. Likewise any signed-in user may fetch any task (`server/src/routes/tasks.js:102-114`).
- **`roleCheck` runs first.** Removing the manager from a team is a 400 only for that team's own manager. Any other role is stopped earlier by the gate with 403, and a manager of another team gets 403 from the ownership check (`server/src/routes/teams.js:131-133`) before the 400 at `server/src/routes/teams.js:135`.
- **The schema still applies on update.** A manager's update assigns title, status and priority to the document, and the schema applies on save. The `trim: true` setter trims the title, and `required` then rejects a blank title. The enum validators reject unknown status and priority strings. The save throws and the handler answers 500 ("Server error"). The model writes this rejection as `SchemaRejected`.

## Model

| member | source | states |
|---|---|---|
| Common.RoleCheck | server/src/routes/tasks.js:10 | the manager gate passes exactly a manager; any other role is refused with 403 |
| Text.SkipForward | server/src/routes/tasks.js:14 | the forward scan stops at the first character that is not whitespace, having passed only whitespace |
| Text.SkipBackward | server/src/routes/tasks.js:14 | the backward scan stops just past the last character that is not whitespace, having passed only whitespace |
| Text.Trim | server/src/routes/tasks.js:14 | the trimmed string is no longer than the input; when non-empty it starts and ends with non-whitespace |
| Text.TrimCharacterization | server/src/routes/tasks.js:14 | the trimmed string is the slice of the input between its leading and trailing whitespace, both all whitespace |
| Text.TrimEmptyIffAllWhitespace | server/src/routes/tasks.js:14 | a string trims to nothing exactly when it is all whitespace, so the blank-title test rejects exactly the all-whitespace titles |
| Text.TrimUnpadded | server/src/models/Task.js:8 | a string with no whitespace at either end trims to itself |
| Text.TrimIdempotent | server/src/models/Task.js:8 | trimming an already trimmed title (the schema's `trim` after the handler's) changes nothing |
| Text.Blank | server/src/routes/tasks.js:14 | the handlers' blank test holds exactly for the strings made of whitespace only (also `server/src/routes/teams.js:13`) |
| Text.StartsWith | server/src/middleware/auth.js:7 | a string starts with a prefix exactly when it is that prefix followed by the rest of the string |
| Text.ReplaceFirst | server/src/middleware/auth.js:11 | when the pattern occurs, the result is the input with its lowest-index occurrence replaced and everything before and after it kept |
| Text.ReplaceFirstStep | server/src/middleware/auth.js:11 | an occurrence past the first character is the tail's first occurrence one index lower, so the tail's replacement carries over to the whole string |
| Text.ReplacePrefix | server/src/middleware/auth.js:11 | replacing the first `Bearer ` of a header that starts with it removes exactly that prefix |
| Text.ReplaceAbsent | server/src/middleware/auth.js:11 | a replace whose pattern occurs nowhere leaves the string unchanged |
| Sequences.Filter | client/src/pages/Tasks.jsx:29 | a filter keeps only satisfying elements, keeps every satisfying element, and adds nothing; each satisfying element keeps its number of occurrences and every other one has none |
| Sequences.FilterIsSubsequence | client/src/pages/Tasks.jsx:29 | a filter's result is an order-preserving subsequence of its input |
| Sequences.DropHead | client/src/pages/Tasks.jsx:29 | a subsequence of the tail is a subsequence of the whole list |
| Sequences.SubsequenceTail | client/src/pages/Tasks.jsx:29 | dropping the head of a subsequence leaves a subsequence |
| Sequences.FilterAll | client/src/pages/Tasks.jsx:29-33 | a filter every element passes returns its input |
| Sequences.FilterEmpty | client/src/pages/Tasks.jsx:29-33 | a filter returns nothing exactly when no element passes |
| TaskModel.StatusName | server/src/models/Task.js:20 | each status is sent and stored as its schema enum string; `ParseStatus` and `StatusNamesDistinct` prove the mapping one-to-one |
| TaskModel.PriorityName | server/src/models/Task.js:25 | each priority is sent and stored as its schema enum string; `ParsePriority` inverts it |
| TaskModel.ParseStatus | server/src/models/Task.js:18-21 | the status enum accepts exactly the four status names, each as its own status |
| TaskModel.ParsePriority | server/src/models/Task.js:23-26 | the priority enum accepts exactly the three priority names, each as its own priority |
| TaskModel.CastStatus | server/src/models/Task.js:18-22 | an absent status keeps the default or current value; a present one passes through the enum |
| TaskModel.CastPriority | server/src/models/Task.js:23-27 | an absent priority keeps the default or current value; a present one passes through the enum |
| TaskModel.CastTitle | server/src/models/Task.js:5-9 | a title is accepted exactly when it is not blank, and is stored trimmed |
| TaskModel.NewTask | server/src/models/Task.js:42-55 | a new document is well formed and not bugged, and its bug fields are absent |
| TaskModel.StatusNamesDistinct | server/src/models/Task.js:20 | distinct statuses have distinct names, and no status is named `review` |
| Auth.ExtractToken | server/src/middleware/auth.js:11 | the token is what follows the `Bearer ` prefix: prefix plus token gives back the header |
| Auth.Project | server/src/middleware/auth.js:15-22 | the attached identity has the verified id and the stored name, email and role |
| Auth.Authenticate | server/src/middleware/auth.js:4-30 | every rejection is a 401; a missing or non-bearer header gets "No token" before verification; an expired token gets its own message; every other failure gets "Token is not valid"; a vanished user gets "User not found"; success happens exactly when the token verifies and its user exists |
| Auth.BearerRoundTrip | server/src/middleware/auth.js:7-11 | a header built from a token hands the verifier exactly that token |
| Auth.DecisionDependsOnTokenOnly | server/src/middleware/auth.js:7-28 | only the token reaches the verifier: two verifiers that agree on the header's token give the same answer, and a header without a bearer token is answered the same whatever the verifier |
| Teams.RemoveFirst | server/src/routes/teams.js:139-146 | removing an absent id changes nothing; removing a present id shortens the list by exactly one; no id is added |
| Teams.RemoveFirstIsSplice | server/src/routes/teams.js:139-146 | splicing out the first index holding an id is removing that id's first occurrence |
| Teams.RemoveFirstMultiset | server/src/routes/teams.js:146 | removing an id takes exactly one copy of it out of the members when present, and nothing otherwise |
| Teams.SpliceOutDistinct | server/src/routes/teams.js:146 | splicing one index out of a duplicate-free list keeps it duplicate-free, drops that element and keeps every other one |
| Teams.RemoveFirstFromDistinct | server/src/routes/teams.js:146 | on a duplicate-free list the removed id is gone, every other id stays, and the list stays duplicate-free |
| Teams.AddPreservesInvariant | server/src/routes/teams.js:102-109 | appending a non-member keeps the manager a member and the list duplicate-free |
| Teams.RemovePreservesInvariant | server/src/routes/teams.js:135-146 | removing a non-manager keeps the manager a member and the list duplicate-free |
| Teams.FindIndex | server/src/routes/teams.js:139-142 | the loop returns -1 exactly when the id is absent, and otherwise its first index |
| Teams.ListTeams | server/src/routes/teams.js:38-46 | a manager gets exactly the teams they manage; anyone else gets exactly the teams listing them as a member |
| Teams.GetTeam | server/src/routes/teams.js:57-74 | an absent team is a 404; the team is returned exactly to its members and its manager; anyone else gets 403 |
| Teams.ListedTeamsAreReadable | server/src/routes/teams.js:38-74 | every team in a user's list can be fetched by that user |
| Teams.NonManagerListIsReadableSet | server/src/routes/teams.js:43-74 | for a non-manager, the listed teams are exactly the teams the user may fetch |
| Teams.TeamCollection.Create | server/src/routes/teams.js:10-21 | a non-manager gets 403 and a blank name 400; otherwise one team is added under a fresh id, with the trimmed name, the caller as manager and the caller as its only member |
| Teams.TeamCollection.AddMember | server/src/routes/teams.js:81-110 | the checks run in order: 403 from the gate, 404 team, 403 not its manager, 400 email, 404 user, 400 already a member; on success exactly the resolved user is appended and nothing else changes |
| Teams.TeamCollection.RemoveMember | server/src/routes/teams.js:124-147 | the checks run in order: 403 from the gate, 404 team, 403 not its manager, 400 removing the manager, 404 not a member; on success exactly the first occurrence of the id is removed and the others keep their order |
| Tasks.UpdateCapability | server/src/routes/tasks.js:128-144 | a manager may write every editable field; a member only the status, and only when assigned the task (otherwise 403); any other role nothing |
| Tasks.Patched | server/src/routes/tasks.js:128-146 | a manager's update changes exactly the fields present, through the schema's casts; the assignee's changes only the status; another role's changes nothing; creator, team, creation time and bug fields are never written; the save is refused exactly when a present title is blank or a present enum string is unknown; a well-formed task stays well formed |
| Tasks.Flagged | server/src/routes/tasks.js:169-180 | raising the flag records the reason (or ""), the reporter and the time; lowering it clears all three whatever they held; no other field changes |
| Tasks.Visible | server/src/routes/tasks.js:77-81 | a task is listed for a team when it belongs to that team and, for a member, is assigned to them; `ListTasks` returns exactly these |
| Tasks.InsertNewest | server/src/routes/tasks.js:93 | insertion into a newest-first list keeps it newest first and duplicate-free, and adds exactly the new id |
| Tasks.SpliceIndex | server/src/routes/tasks.js:93 | inserting one id at a position shifts the later ids by one and adds nothing else |
| Tasks.SpliceNewestFirst | server/src/routes/tasks.js:93 | inserting before the first older task keeps the list sorted newest first |
| Tasks.SpliceDistinct | server/src/routes/tasks.js:93 | inserting an id not yet listed keeps the list duplicate-free |
| Tasks.ListTasks | server/src/routes/tasks.js:64-95 | a missing teamId is a 400, an absent team a 404, another team's manager a 403; otherwise the result is exactly the team's tasks, each once, newest first, and for a member only those assigned to them |
| Tasks.GetTask | server/src/routes/tasks.js:102-114 | any authenticated user gets any existing task, with no membership check; an absent task is a 404 |
| Tasks.AssignAll | server/src/routes/tasks.js:128-136 | the manager's field-by-field assignment computes the same document, and the same schema verdict, as the update's specification |
| Tasks.TaskCollection.Create | server/src/routes/tasks.js:10-49 | the checks run in order: 403 from the gate, 400 title, 400 team, 404 team, 403 not its manager, 400 assignee not a member, 500 unknown enum; on success one task is added under a fresh id, with the trimmed title, the given or empty images, the defaults, the caller as creator and no bug |
| Tasks.TaskCollection.Update | server/src/routes/tasks.js:121-146 | an absent task is a 404; the role's capability then decides, and the stored task becomes exactly the partial update's result; nothing is stored on a rejection |
| Tasks.TaskCollection.SetBug | server/src/routes/tasks.js:162-182 | 403 from the gate, 404 for an absent task; otherwise the task is replaced by its flagged or cleared version and no other task changes |
| Tasks.TaskCollection.Delete | server/src/routes/tasks.js:198-211 | 403 from the gate, 404 absent, 403 unless the caller created the task (even a manager of its team); on success only that task is gone |
| PrivateRoute.Guard | client/src/components/PrivateRoute.jsx:4-12 | loading wins over everything; no user goes to login; a role outside a present roles list goes to the dashboard; the outlet is shown exactly to a signed-in user allowed by the list or when there is no list |
| PrivateRoute.ManagerOnlyRoutes | client/src/App.jsx:27-30 | the manager-only routes admit exactly managers and send everyone else to the dashboard |
| PrivateRoute.UnrestrictedRoutes | client/src/App.jsx:21-26 | a route without a roles list never redirects to the dashboard and admits every signed-in user |
| TaskFilters.Matches | client/src/pages/Tasks.jsx:29-33 | the page's filter callback: each non-empty filter must equal the task's status or priority name; `Filtered` keeps exactly the tasks it accepts |
| TaskFilters.Filtered | client/src/pages/Tasks.jsx:29-33 | a task is listed exactly when it passes both filters, as often as it was fetched; every listed task matches each non-empty filter; the result is an order-preserving subsequence, no longer than the input |
| TaskFilters.NoFilterIsIdentity | client/src/pages/Tasks.jsx:29-33 | with both filters on "all" the page lists every fetched task, in order |
| TaskFilters.EmptyExactlyWhenNoneMatch | client/src/pages/Tasks.jsx:29-33 | the list is empty exactly when no fetched task passes the filters |
| TaskFilters.FiltersCompose | client/src/pages/Tasks.jsx:30-31 | the status filter followed by the priority filter gives the same list as both together |
| Dashboard.BuggedList | client/src/pages/Dashboard.jsx:94-96 | the bugged section lists exactly the bugged tasks, each as often as it was fetched, in fetch order |
| Dashboard.BuggedListCounts | client/src/pages/Dashboard.jsx:35 | the bugged counter equals a one-by-one count of bugged tasks |
| Dashboard.Load | client/src/pages/Dashboard.jsx:16-42 | a failed task fetch leaves zero counters and an empty list; otherwise the task counter is the list length and the bugged counter its bugged tasks, never more than the list; the team counter is the fetched count for a manager and 0 otherwise or on a failed team fetch |
| Dashboard.ShowBuggedSection | client/src/pages/Dashboard.jsx:90 | the bugged section is rendered when the bugged counter is positive; `BuggedSectionShownIffSomeBugged` ties it to the listed tasks |
| Dashboard.BuggedSectionShownIffSomeBugged | client/src/pages/Dashboard.jsx:90 | the bugged section is shown exactly when some listed task is bugged |
| TaskDetail.StatusPatch | client/src/pages/TaskDetail.jsx:46 | the page's status save sends the picked option as the only field |
| TaskDetail.ReviewOptionRejected | client/src/pages/TaskDetail.jsx:149-154 | as written, the `review` option is not a schema status, and no option names `in-review` |
| TaskDetail.SaveReviewAsWritten | client/src/pages/TaskDetail.jsx:152 | the assignee saving `review` gets the schema rejection and the store is unchanged |
| TaskDetail.StatusOptionsAccepted | server/src/models/Task.js:20 | every corrected option is accepted by the schema, and every status has an option |
| TaskDetail.SaveStatus | client/src/pages/TaskDetail.jsx:44-48 | with the corrected options, the assignee's save stores exactly the picked status and nothing else |
| Scenarios.Documents | server/src/routes/tasks.js:88-95 | a listing's answer holds the documents of the listed ids, in order |
| Scenarios.Body | client/src/pages/Dashboard.jsx:16-18 | a page reads documents exactly from a successful listing |
| Scenarios.NewTeam | server/src/routes/teams.js:17-21 | the first team of an empty collection has its creator as manager and only member |
| Scenarios.TeamWithMember | server/src/routes/teams.js:102-109 | after adding a member by email the team lists the manager, then the member |
| Scenarios.AssignAndComplete | server/src/routes/tasks.js:40-49 | a task created for a member and moved to done by them reads back as done, assigned to them and created by the manager; their later rename request leaves it as it was |
| Scenarios.FlagAndClear | server/src/routes/tasks.js:171-180 | flagging records the reason, the manager and the time; clearing removes all three and keeps the title |
| Scenarios.DashboardAgainstServer | client/src/pages/Dashboard.jsx:18 | the dashboard asks for tasks without a team id, so against any store it shows zero counters and no bugged section |
| Scenarios.TaskListAgainstServer | client/src/pages/Tasks.jsx:20 | the task list page makes the same request and lists nothing under any filter |
| Scenarios.DashboardForTeam | server/src/routes/tasks.js:64-95 | a dashboard that asks for one of the user's teams lists exactly the tasks of that team the user may see, each once and newest first, and counts exactly those |
| Scenarios.TaskListForTeam | client/src/pages/Tasks.jsx:20-33 | a task list that asks for one of the user's teams shows every task of that team the user may see and that passes both filters |
| Scenarios.ReassignWithoutMembershipCheck | server/src/routes/tasks.js:136 | a manager's update sets any assignee at all, with no membership check unlike creation |

## Findings

| source | as written | input that shows it | evidently intended | confidence | as-written member | corrected member |
|---|---|---|---|---|---|---|
| client/src/pages/TaskDetail.jsx:152 | the member's status picker offers `review` | an assignee picks "Review" and saves | the schema's `in-review` status | high; not executed | TaskDetail.SaveReviewAsWritten | TaskDetail.SaveStatus |
| client/src/pages/Dashboard.jsx:18 | the dashboard requests `/tasks` without a `teamId`, which the server answers with 400 (`server/src/routes/tasks.js:67-69`) | any signed-in user opens the dashboard, whatever the store holds | the request names one of the user's teams, so the counters count that team's tasks | medium; not executed | Scenarios.DashboardAgainstServer | Scenarios.DashboardForTeam |
| client/src/pages/Tasks.jsx:20 | the task list requests `/tasks` without a `teamId` and gets the same 400 | any signed-in user opens the task list | the request names one of the user's teams, so the page lists that team's tasks | medium; not executed | Scenarios.TaskListAgainstServer | Scenarios.TaskListForTeam |

## Left out

- HTTP plumbing is not modelled: Express routing, request and response objects, and JSON encoding. Each route's answer is a `Result`.
- The 500 answers for store or runtime failures are not modelled. The store is taken to never fail. Only a schema validation failure on save becomes a 500 here.
- Mongoose persistence is reduced to maps: `populate` projections, `.lean()`, indexes (`server/src/models/Task.js:61-65`), and the `createdAt`/`updatedAt` maintenance. The creation time is an input to task creation, and `updatedAt` is not represented.
- ObjectId generation becomes a per-collection counter (`nextId`), so ids are natural numbers.
- JWT cryptography is an oracle. `jwt.verify` is a function from the token to one of verified-as-id, expired or invalid. The user lookup is a map.
- `roleCheck.js` is not part of this model. Its gate is assumed to let exactly managers through and to answer other roles with 403. The message it sends is unknown, so the model uses the placeholder "Access denied".
- `Team.js` and `User.js` are not part of this model. A team is a name, a manager and a member list. The user lookup by email is a map from email to id, which models a unique email index.
- `server/src/routes/upload.js` is not modelled: it uploads over the network to a third-party service.
- Rendering, effects, toasts and navigation are not modelled: React UI with no rule logic.
- Concurrent requests are not modelled: each handler runs as one atomic step.
- A `null` request value is modelled only for `assignedTo` on update, where it unassigns the task. Other `null` values and values of a wrong JSON type are not modelled.
- An `assignedTo` given as an empty string is not modelled, at creation or on update. At creation the handler skips the membership check for it (`server/src/routes/tasks.js:31`) but still hands it to the schema's id cast (`server/src/routes/tasks.js:46`, `server/src/models/Task.js:28-31`). On update a manager's request assigns it to the same id path, since it is not `undefined` (`server/src/routes/tasks.js:136`). In both cases the outcome depends on the schema library. The task form sends exactly this for an unassigned task, when creating and when editing (`client/src/pages/TaskForm.jsx:32,77,121,124`). Requests in the model carry a user id, no assignee, or (on update) null.
- Text.ReplaceFirst: does not expand the `$&`, `$$`, `` $` `` and `$'` substitution patterns that JavaScript's `replace` expands in a replacement string. The only replacement the guard uses is the empty string (`server/src/middleware/auth.js:11`), which has none.
- A bug-flag request whose `isBugged` is missing is treated as `false`. An `isBugged` that is not a boolean is not modelled: the handler tests it for truthiness (`server/src/routes/tasks.js:172`) while the schema casts it to a boolean, so a value such as the string "false" would store `false` with the three bug fields set.
- Teams.ListTeams: answers with a set of team ids. The store's natural order of the list is not modelled.
- Tasks.ListTasks: the order among tasks created at the same instant is left open.
- Dashboard.Load: takes the team fetch as the number of teams it returned. The team documents themselves are not used by the page.
