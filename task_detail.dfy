/**
 * The task page's status picker for members. The page sends the picked
 * option as the only field of an update. As written it offers `review`,
 * which the task schema does not accept; the corrected picker offers the
 * schema's own status names.
 */
module TaskDetail {
  import opened Common
  import opened TaskModel
  import opened Tasks

  /** The options as the page lists them. */
  const StatusOptionsAsWritten: seq<string> := ["todo", "in-progress", "review", "done"]

  /** The options named exactly as the schema's enum. */
  const StatusOptions: seq<string> :=
    [StatusName(Todo), StatusName(InProgress), StatusName(InReview), StatusName(Done)]

  /** The update the page sends for a picked option. */
  function StatusPatch(option: string): (p: TaskPatch)
    ensures p.status == Some(option)
    ensures p.title.None? && p.content.None? && p.images.None? && p.priority.None? && p.assignedTo.None?
  {
    TaskPatch(None, None, None, Some(option), None, None)
  }

  /** As written, one option is refused by the schema, and no option names
      the in-review status. */
  lemma ReviewOptionRejected()
    ensures ParseStatus(StatusOptionsAsWritten[2]) == None
    ensures forall i :: 0 <= i < |StatusOptionsAsWritten| ==> StatusOptionsAsWritten[i] != StatusName(InReview)
  {
    StatusNamesDistinct(InReview, InReview);
  }

  /** Saving `review` on a task assigned to the member fails on save and
      leaves the store as it was. */
  method SaveReviewAsWritten(c: TaskCollection, member: Actor, id: TaskId) returns (r: Result<Task>)
    requires c.Valid() && id in c.tasks && member.role == Member
    requires c.tasks[id].assignedTo == Some(member.id)
    modifies c
    ensures r == Err(SchemaRejected) && c.tasks == old(c.tasks)
  {
    ReviewOptionRejected();
    r := c.Update(member, id, StatusPatch(StatusOptionsAsWritten[2]));
  }

  /** Every corrected option is accepted, and every status has an option. */
  lemma StatusOptionsAccepted()
    ensures forall i :: 0 <= i < |StatusOptions| ==> ParseStatus(StatusOptions[i]).Some?
    ensures forall st :: StatusName(st) in StatusOptions
  {
    forall i | 0 <= i < |StatusOptions| ensures ParseStatus(StatusOptions[i]).Some? {
      assert StatusOptions[i] == StatusName([Todo, InProgress, InReview, Done][i]);
    }
  }

  /** With the corrected picker, the assignee's save stores exactly the
      picked status and changes nothing else. */
  method SaveStatus(c: TaskCollection, member: Actor, id: TaskId, option: nat) returns (r: Result<Task>)
    requires c.Valid() && id in c.tasks && member.role == Member
    requires c.tasks[id].assignedTo == Some(member.id) && option < |StatusOptions|
    modifies c
    ensures r.Ok? && StatusName(r.value.status) == StatusOptions[option]
    ensures r.Ok? ==> r.value == old(c.tasks)[id].(status := r.value.status)
    ensures r.Ok? ==> c.tasks == old(c.tasks)[id := r.value]
  {
    StatusOptionsAccepted();
    r := c.Update(member, id, StatusPatch(StatusOptions[option]));
  }
}
