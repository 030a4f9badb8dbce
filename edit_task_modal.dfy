/** The dialog that edits a task: four fields copied from one task, the patch
    `save` sends for that task's id, and when the dialog closes. */
module EditTask {
  import opened Wrappers
  import opened Text
  import opened Entities

  /** The columns an edit writes: nothing else of the row is ever sent. */
  datatype Patch = Patch(title: string, description: Option<string>, deadline: string, priority: Priority)

  /** `update(patch).eq("id", id)`. */
  datatype UpdateRequest = UpdateRequest(id: string, patch: Patch)

  /** The payload of `save`: an empty description is sent as null; the deadline
      is sent as the field holds it. */
  function PatchOf(title: string, description: string, deadline: string, priority: Priority): Patch {
    Patch(title, NullIfEmpty(description), deadline, priority)
  }

  /** The row after the backend applies a patch: the four patched columns change
      and the id, status and project stay. */
  function Patched(t: Task, p: Patch): (r: Task)
    ensures r.id == t.id && r.status == t.status && r.projectId == t.projectId
  {
    t.(title := p.title, description := p.description, deadline := Some(p.deadline), priority := p.priority)
  }

  /** Opening the dialog and saving without touching a field writes the row
      back unchanged exactly when its description is not the empty string (that
      is saved as null) and it has a deadline (a null one is saved as ""). */
  lemma SaveUntouchedRoundTrip(t: Task)
    ensures Patched(t, PatchOf(t.title, OrEmpty(t.description), OrEmpty(t.deadline), t.priority)) == t
      <==> t.description != Some("") && t.deadline.Some?
  {
    NullIfEmptyOrEmpty(t.description);
    var r := Patched(t, PatchOf(t.title, OrEmpty(t.description), OrEmpty(t.deadline), t.priority));
    if r == t {
      assert r.deadline == Some(OrEmpty(t.deadline));
    }
  }

  /** The dialog's state: the record it edits, the four editable fields, and
      whether `onClose` has been called. */
  class EditTaskModal {
    const task: Task
    var title: string
    var description: string
    var deadline: string
    var priority: Priority
    var closed: bool

    /** The fields start as copies of the edited record's; a null description or deadline
        starts as "". */
    constructor (task: Task)
      ensures this.task == task && !closed
      ensures title == task.title && priority == task.priority
      ensures description == OrEmpty(task.description) && deadline == OrEmpty(task.deadline)
      ensures task.description.Some? ==> description == task.description.value
      ensures task.deadline.Some? ==> deadline == task.deadline.value
    {
      this.task := task;
      title := task.title;
      description := OrEmpty(task.description);
      deadline := OrEmpty(task.deadline);
      priority := task.priority;
      closed := false;
    }

    /** `save`: the patch of the current fields, sent for the edited task's id;
        the dialog closes only when the update succeeds, and a failure alerts
        the error's message instead. */
    method Save(reply: Outcome) returns (request: UpdateRequest, alert: Option<string>)
      modifies this`closed
      ensures request == UpdateRequest(task.id, PatchOf(title, description, deadline, priority))
      ensures closed <==> old(closed) || reply.Success?
      ensures alert == if reply.Failure? then Some(reply.message) else None
    {
      request := UpdateRequest(task.id, PatchOf(title, description, deadline, priority));
      if reply.Failure? {
        return request, Some(reply.message);
      }
      alert := None;
      closed := true;
    }

    /** The Cancel button: closes without sending anything. */
    method Cancel()
      modifies this`closed
      ensures closed
    {
      closed := true;
    }
  }
}
