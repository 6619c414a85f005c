/**
 * The task list page's filters: a status filter and a priority filter, each
 * the empty string ("all") or the name of one enum value, applied to the
 * fetched list.
 */
module TaskFilters {
  import opened Sequences
  import opened TaskModel

  /** The filter callback: a non-empty filter must equal the task's field. */
  predicate Matches(t: Task, statusFilter: string, priorityFilter: string) {
    && (statusFilter == "" || StatusName(t.status) == statusFilter)
    && (priorityFilter == "" || PriorityName(t.priority) == priorityFilter)
  }

  /** The tasks the page lists: those passing both filters, in fetch order. */
  function Filtered(tasks: seq<Task>, statusFilter: string, priorityFilter: string): (r: seq<Task>)
    ensures |r| <= |tasks|
    ensures IsSubsequence(r, tasks)
    ensures forall i :: 0 <= i < |tasks| ==>
              (tasks[i] in r <==> Matches(tasks[i], statusFilter, priorityFilter))
    ensures forall t :: t in r ==> (statusFilter != "" ==> StatusName(t.status) == statusFilter)
                                   && (priorityFilter != "" ==> PriorityName(t.priority) == priorityFilter)
    ensures forall t :: t in tasks ==>
              multiset(r)[t] == if Matches(t, statusFilter, priorityFilter) then multiset(tasks)[t] else 0
  {
    var keep := (t: Task) => Matches(t, statusFilter, priorityFilter);
    FilterIsSubsequence(tasks, keep);
    Filter(tasks, keep)
  }

  /** With both filters on "all", the page lists everything it fetched. */
  lemma NoFilterIsIdentity(tasks: seq<Task>)
    ensures Filtered(tasks, "", "") == tasks
  {
    FilterAll(tasks, (t: Task) => Matches(t, "", ""));
  }

  /** "No tasks found." is shown exactly when no fetched task passes. */
  lemma EmptyExactlyWhenNoneMatch(tasks: seq<Task>, statusFilter: string, priorityFilter: string)
    ensures Filtered(tasks, statusFilter, priorityFilter) == []
            <==> forall i :: 0 <= i < |tasks| ==> !Matches(tasks[i], statusFilter, priorityFilter)
  {
    FilterEmpty(tasks, (t: Task) => Matches(t, statusFilter, priorityFilter));
  }

  /** Applying the two filters one after the other gives the same list as
      applying them together. */
  lemma {:induction false} FiltersCompose(tasks: seq<Task>, statusFilter: string, priorityFilter: string)
    ensures Filtered(Filtered(tasks, statusFilter, ""), "", priorityFilter)
            == Filtered(tasks, statusFilter, priorityFilter)
  {
    if tasks != [] {
      FiltersCompose(tasks[1..], statusFilter, priorityFilter);
    }
  }
}
