/**
 * The task record of the document schema: its fields, which of them are
 * required or optional, the status and priority enumerations with their
 * defaults, and the casting of request strings onto those enumerations.
 */
module TaskModel {
  import opened Common
  import opened Text

  datatype Status = Todo | InProgress | InReview | Done
  datatype Priority = Low | Medium | High

  const DefaultStatus: Status := Todo
  const DefaultPriority: Priority := Medium

  /** The string a status is stored and sent as. */
  function StatusName(s: Status): string {
    match s
    case Todo => "todo"
    case InProgress => "in-progress"
    case InReview => "in-review"
    case Done => "done"
  }

  function PriorityName(p: Priority): string {
    match p
    case Low => "low"
    case Medium => "medium"
    case High => "high"
  }

  /** The schema's enum check on a status string: it accepts exactly the
      names of the four statuses, and reads each back as its own status. */
  function ParseStatus(s: string): (r: Option<Status>)
    ensures forall st :: r == Some(st) <==> s == StatusName(st)
  {
    if s == "todo" then Some(Todo)
    else if s == "in-progress" then Some(InProgress)
    else if s == "in-review" then Some(InReview)
    else if s == "done" then Some(Done)
    else None
  }

  /** The schema's enum check on a priority string. */
  function ParsePriority(s: string): (r: Option<Priority>)
    ensures forall p :: r == Some(p) <==> s == PriorityName(p)
  {
    if s == "low" then Some(Low)
    else if s == "medium" then Some(Medium)
    else if s == "high" then Some(High)
    else None
  }

  /** A stored task. `content`, `assignedTo` and the three bug fields may be
      absent; `createdAt` is the store's creation timestamp. */
  datatype Task = Task(
    title: string,
    content: Option<string>,
    images: seq<string>,
    status: Status,
    priority: Priority,
    assignedTo: Option<UserId>,
    createdBy: UserId,
    team: TeamId,
    isBugged: bool,
    bugReason: Option<string>,
    bugReportedBy: Option<UserId>,
    bugReportedAt: Option<nat>,
    createdAt: nat)

  /** The bug fields are a unit: all present while the task is bugged, all
      absent otherwise. */
  predicate BugFieldsConsistent(t: Task) {
    if t.isBugged then t.bugReason.Some? && t.bugReportedBy.Some? && t.bugReportedAt.Some?
    else t.bugReason.None? && t.bugReportedBy.None? && t.bugReportedAt.None?
  }

  /** The required title is stored trimmed and non-empty: it neither starts
      nor ends with whitespace. */
  predicate TitleStored(title: string) {
    Unpadded(title)
  }

  /** What every task in the store satisfies. */
  predicate WellFormed(t: Task) {
    TitleStored(t.title) && BugFieldsConsistent(t)
  }

  /** Casting an optional status field of a request: absent gives the
      default (on create) or keeps the current value (on update); a string
      outside the enum fails validation. */
  function CastStatus(field: Option<string>, current: Status): (r: Option<Status>)
    ensures field.None? ==> r == Some(current)
    ensures field.Some? ==> r == ParseStatus(field.value)
  {
    match field
    case None => Some(current)
    case Some(s) => ParseStatus(s)
  }

  function CastPriority(field: Option<string>, current: Priority): (r: Option<Priority>)
    ensures field.None? ==> r == Some(current)
    ensures field.Some? ==> r == ParsePriority(field.value)
  {
    match field
    case None => Some(current)
    case Some(s) => ParsePriority(s)
  }

  /** Assigning a title through the schema: the `trim` setter runs on
      assignment and the `required` validator then rejects an empty string. */
  function CastTitle(title: string): (r: Option<string>)
    ensures r.Some? <==> !Blank(title)
    ensures r.Some? ==> r.value == Trim(title) && TitleStored(r.value)
  {
    if Trim(title) == [] then None else Some(Trim(title))
  }

  /** A freshly created document: the schema defaults apply to every field the
      request leaves out, and no bug has been reported. */
  function NewTask(title: string, content: Option<string>, images: seq<string>,
                   status: Status, priority: Priority, assignedTo: Option<UserId>,
                   createdBy: UserId, team: TeamId, createdAt: nat): (t: Task)
    requires TitleStored(title)
    ensures WellFormed(t) && !t.isBugged
  {
    Task(title, content, images, status, priority, assignedTo, createdBy, team,
         false, None, None, None, createdAt)
  }

  /** Status names are pairwise distinct and none of them is "review". */
  lemma StatusNamesDistinct(a: Status, b: Status)
    ensures StatusName(a) == StatusName(b) <==> a == b
    ensures StatusName(a) != "review"
  {
  }
}
