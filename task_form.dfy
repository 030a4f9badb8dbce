/** The form that creates a task in the selected project: its five fields, the
    checks before the insert, the row it sends, and the reset after success. */
module NewTaskForm {
  import opened Wrappers
  import opened Text
  import opened Entities

  /** The row `submit` inserts. The status and priority are the values of the
      form's selects, sent as strings; the deadline is the ISO timestamp of
      midnight of the chosen day. */
  datatype NewTask = NewTask(
    title: string,
    description: Option<string>,
    priority: string,
    deadline: string,
    status: string,
    projectId: string)

  /** How a submit ends: an alert before any insert, an alert with the insert's
      error, or the created row handed to `onCreated`. */
  datatype SubmitResult = Rejected(alert: string) | InsertFailed(message: string) | Created(task: Task)

  const SelectProjectAlert: string := "Selecciona un proyecto"
  const RequiredFieldsAlert: string := "Título y fecha límite son obligatorios"

  /** The field values a fresh form starts with and returns to after a task is
      created. */
  const DefaultStatus: string := StatusKey(Todo)
  const DefaultPriority: string := PriorityKey(Media)

  /** The checks of `submit`, in order: a project must be selected, then the
      trimmed title and the deadline must be non-empty. `None` lets the insert
      through. */
  function SubmitCheck(projectId: Option<string>, title: string, deadline: string): (alert: Option<string>)
    ensures alert.None? <==> Present(projectId) && Trim(title) != "" && deadline != ""
    ensures !Present(projectId) ==> alert == Some(SelectProjectAlert)
    ensures Present(projectId) && alert.Some? ==> alert == Some(RequiredFieldsAlert)
  {
    if !Present(projectId) then Some(SelectProjectAlert)
    else if Trim(title) == "" || deadline == "" then Some(RequiredFieldsAlert)
    else None
  }

  /** The inserted row: the title as typed, an empty description as null, the
      deadline converted by `toIso` from midnight of the chosen day, an empty
      status as "todo", and the selected project. */
  function BuildPayload(title: string, description: string, priority: string, deadline: string,
                        status: string, projectId: string, toIso: string -> string): NewTask
  {
    NewTask(title, NullIfEmpty(description), priority, toIso(deadline + "T00:00:00"),
            if status == "" then DefaultStatus else status, projectId)
  }

  /** What the payload keeps of the form: the title is sent untrimmed, even
      though it was checked trimmed; the description field is recovered by
      reading null back as ""; a chosen status is kept and only an empty one
      becomes "todo"; the project is the selected one. */
  lemma PayloadKeepsFields(title: string, description: string, priority: string, deadline: string,
                           status: string, projectId: string, toIso: string -> string)
    ensures BuildPayload(title, description, priority, deadline, status, projectId, toIso).title == title
    ensures OrEmpty(BuildPayload(title, description, priority, deadline, status, projectId, toIso).description) == description
    ensures BuildPayload(title, description, priority, deadline, status, projectId, toIso).description.None? <==> description == ""
    ensures status != "" ==> BuildPayload(title, description, priority, deadline, status, projectId, toIso).status == status
    ensures BuildPayload(title, description, priority, deadline, status, projectId, toIso).status != ""
    ensures BuildPayload(title, description, priority, deadline, status, projectId, toIso).projectId == projectId
  {
  }

  /** The selects hold the stored keys: a payload built from a status select
      holding the key of `s` (or left empty) and a priority select holding the
      key of `p` reads back as that status (or "todo") and that priority. */
  lemma SelectsReadBack(title: string, description: string, p: Priority, deadline: string,
                        s: Option<Status>, projectId: string, toIso: string -> string)
    ensures var statusField := if s.Some? then StatusKey(s.value) else "";
      var row := BuildPayload(title, description, PriorityKey(p), deadline, statusField, projectId, toIso);
      ParseStatus(row.status) == Some(if s.Some? then s.value else Todo)
      && ParsePriority(row.priority) == Some(p)
  {
    if s.Some? {
      StatusKeyRoundTrip(s.value, StatusKey(s.value));
    } else {
      StatusKeyRoundTrip(Todo, DefaultStatus);
    }
    PriorityKeyRoundTrip(p, PriorityKey(p));
  }

  /** Once a project and a deadline are given, the title passes the check
      exactly when it has a character that `trim` does not strip. */
  lemma TitleNeedsVisibleCharacter(projectId: Option<string>, title: string, deadline: string)
    requires Present(projectId) && deadline != ""
    ensures SubmitCheck(projectId, title, deadline).None? <==> exists i :: 0 <= i < |title| && !IsTrimmable(title[i])
  {
    TrimEmptyIff(title);
  }

  /** The form component's fields. */
  class TaskForm {
    var title: string
    var priority: string
    var deadline: string
    var status: string
    var description: string

    /** True when every field holds its initial value. */
    predicate IsReset()
      reads this
    {
      title == "" && description == "" && deadline == ""
      && status == DefaultStatus && priority == DefaultPriority
    }

    /** A fresh form: empty text fields, status "todo", priority "Media". */
    constructor ()
      ensures IsReset()
    {
      title, priority, deadline, status, description := "", DefaultPriority, "", DefaultStatus, "";
    }

    /** `submit`: the checks, then the insert (whose reply is `reply`). A refused
        or failed submit sends nothing or changes no field; a created task goes
        to `onCreated` and every field returns to its initial value. */
    method Submit(projectId: Option<string>, toIso: string -> string, reply: Reply<Task>)
      returns (sent: Option<NewTask>, result: SubmitResult)
      modifies this
      ensures SubmitCheck(projectId, old(title), old(deadline)).Some? ==>
        sent.None? && result == Rejected(SubmitCheck(projectId, old(title), old(deadline)).value)
      ensures SubmitCheck(projectId, old(title), old(deadline)).None? ==>
        sent == Some(BuildPayload(old(title), old(description), old(priority), old(deadline), old(status),
                                  projectId.value, toIso))
        && result == (if reply.Ok? then Created(reply.value) else InsertFailed(reply.message))
      ensures result.Created? ==> IsReset()
      ensures !result.Created? ==>
        title == old(title) && description == old(description) && deadline == old(deadline)
        && status == old(status) && priority == old(priority)
    {
      var alert := SubmitCheck(projectId, title, deadline);
      if alert.Some? {
        return None, Rejected(alert.value);
      }
      var payload := BuildPayload(title, description, priority, deadline, status, projectId.value, toIso);
      sent := Some(payload);
      if reply.Err? {
        return sent, InsertFailed(reply.message);
      }
      result := Created(reply.value);
      title := "";
      description := "";
      deadline := "";
      status := DefaultStatus;
      priority := DefaultPriority;
    }
  }
}
