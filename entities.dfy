/** The records the board works on: a project and a task, as the application's
    shared types and the Kanban component declare them. */
module Entities {
  import opened Wrappers

  /** A task's column: "todo", "in-progress" or "done". */
  datatype Status = Todo | InProgress | Done

  /** A task's priority: "Alta", "Media" or "Baja". */
  datatype Priority = Alta | Media | Baja

  /** A row of the `tasks` table. The description and the deadline may be null;
      a deadline is either a date "YYYY-MM-DD" or a full timestamp. */
  datatype Task = Task(
    id: string,
    title: string,
    description: Option<string>,
    priority: Priority,
    deadline: Option<string>,
    status: Status,
    projectId: string)

  /** A row of the `projects` table. */
  datatype Project = Project(id: string, name: string)

  /** The string a status is stored and keyed as. */
  function StatusKey(s: Status): string {
    match s
    case Todo => "todo"
    case InProgress => "in-progress"
    case Done => "done"
  }

  /** Reads a stored status back; anything but the three keys is not a status. */
  function ParseStatus(k: string): Option<Status> {
    if k == "todo" then Some(Todo)
    else if k == "in-progress" then Some(InProgress)
    else if k == "done" then Some(Done)
    else None
  }

  /** The string a priority is stored as. */
  function PriorityKey(p: Priority): string {
    match p
    case Alta => "Alta"
    case Media => "Media"
    case Baja => "Baja"
  }

  /** Reads a stored priority back. */
  function ParsePriority(k: string): Option<Priority> {
    if k == "Alta" then Some(Alta)
    else if k == "Media" then Some(Media)
    else if k == "Baja" then Some(Baja)
    else None
  }

  /** Status keys are read back as the status they name, and only they are. */
  lemma StatusKeyRoundTrip(s: Status, k: string)
    ensures ParseStatus(StatusKey(s)) == Some(s)
    ensures ParseStatus(k) == Some(s) <==> k == StatusKey(s)
  {
  }

  /** Priority keys are read back as the priority they name, and only they are. */
  lemma PriorityKeyRoundTrip(p: Priority, k: string)
    ensures ParsePriority(PriorityKey(p)) == Some(p)
    ensures ParsePriority(k) == Some(p) <==> k == PriorityKey(p)
  {
  }
}
