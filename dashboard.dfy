/**
 * The dashboard's counters and its bugged-task section. The page fetches
 * the task list and, for a manager, the team list; a fetch is `None` when it
 * failed. A failed task fetch leaves the initial zero counters and the empty
 * list in place; a failed team fetch only zeroes the team counter.
 */
module Dashboard {
  import opened Common
  import opened Sequences
  import opened TaskModel

  datatype Stats = Stats(teams: nat, tasks: nat, buggedTasks: nat)

  /** What the page shows once loading has finished. */
  datatype Page = Page(stats: Stats, tasks: seq<Task>)

  const InitialStats := Stats(0, 0, 0)

  /** The bugged section's list: the bugged tasks, in fetch order. */
  function BuggedList(tasks: seq<Task>): (r: seq<Task>)
    ensures |r| <= |tasks|
    ensures IsSubsequence(r, tasks)
    ensures forall t :: t in r ==> t.isBugged
    ensures forall i :: 0 <= i < |tasks| && tasks[i].isBugged ==> tasks[i] in r
    ensures forall t :: t in tasks ==> multiset(r)[t] == if t.isBugged then multiset(tasks)[t] else 0
  {
    var keep := (t: Task) => t.isBugged;
    FilterIsSubsequence(tasks, keep);
    Filter(tasks, keep)
  }

  /** An independent count of the bugged tasks, one by one. */
  function CountBugged(tasks: seq<Task>): nat {
    if tasks == [] then 0
    else (if tasks[0].isBugged then 1 else 0) + CountBugged(tasks[1..])
  }

  /** The section's list is as long as the number of bugged tasks. */
  lemma {:induction false} BuggedListCounts(tasks: seq<Task>)
    ensures |BuggedList(tasks)| == CountBugged(tasks)
  {
    if tasks != [] {
      BuggedListCounts(tasks[1..]);
    }
  }

  /** The page after its fetches settle. */
  function Load(role: Role, tasksFetch: Option<seq<Task>>, teamsFetch: Option<nat>): (p: Page)
    ensures tasksFetch.None? ==> p == Page(InitialStats, [])
    ensures tasksFetch.Some? ==> && p.tasks == tasksFetch.value
                                 && p.stats.tasks == |tasksFetch.value|
                                 && p.stats.buggedTasks == |BuggedList(tasksFetch.value)|
    ensures p.stats.teams == (if role == Manager && tasksFetch.Some? && teamsFetch.Some?
                              then teamsFetch.value else 0)
    ensures p.stats.buggedTasks <= p.stats.tasks == |p.tasks|
    ensures p.stats.buggedTasks == CountBugged(p.tasks)
  {
    match tasksFetch
    case None => Page(InitialStats, [])
    case Some(list) =>
      var teamCount := if role == Manager then teamsFetch.GetOr(0) else 0;
      BuggedListCounts(list);
      Page(Stats(teamCount, |list|, |BuggedList(list)|), list)
  }

  /** The bugged section is rendered when the bugged counter is positive. */
  predicate ShowBuggedSection(p: Page) {
    p.stats.buggedTasks > 0
  }

  /** The section is shown exactly when some listed task is bugged, and then
      it lists exactly the bugged tasks. */
  lemma BuggedSectionShownIffSomeBugged(role: Role, tasksFetch: Option<seq<Task>>, teamsFetch: Option<nat>)
    ensures var p := Load(role, tasksFetch, teamsFetch);
            ShowBuggedSection(p) <==> exists i :: 0 <= i < |p.tasks| && p.tasks[i].isBugged
  {
    var p := Load(role, tasksFetch, teamsFetch);
    FilterEmpty(p.tasks, (t: Task) => t.isBugged);
  }
}
