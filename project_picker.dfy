/** The project picker: a select over the project list and a small form that
    creates a project. */
module ProjectPickerView {
  import opened Wrappers
  import opened Text
  import opened Entities

  /** How `createProject` ends: nothing done for a blank name, an alert with the
      insert's error, or the created project appended and its id handed to
      `onChange`. */
  datatype CreateResult = Blank | InsertFailed(message: string) | Changed(id: string)

  /** The component's state. */
  class ProjectPicker {
    var projects: seq<Project>
    var name: string

    /** No projects and an empty name field. */
    constructor ()
      ensures projects == [] && name == ""
    {
      projects := [];
      name := "";
    }

    /** `load`: the list becomes the rows returned; a failed query keeps it. */
    method Load(reply: Reply<seq<Project>>)
      modifies this`projects
      ensures projects == (if reply.Ok? then reply.value else old(projects))
    {
      if reply.Ok? {
        projects := reply.value;
      }
    }

    /** `createProject`: a blank name (after trimming) does nothing; otherwise
        the name is inserted as typed, untrimmed. A created project is appended,
        its id goes to `onChange` and the field is cleared; a failed insert
        changes neither the list nor the field. */
    method CreateProject(reply: Reply<Project>) returns (sent: Option<string>, result: CreateResult)
      modifies this
      ensures Trim(old(name)) == "" ==> sent.None? && result == Blank
      ensures Trim(old(name)) != "" ==>
        sent == Some(old(name))
        && result == (if reply.Ok? then Changed(reply.value.id) else InsertFailed(reply.message))
      ensures result.Changed? ==> projects == old(projects) + [reply.value] && name == ""
      ensures !result.Changed? ==> projects == old(projects) && name == old(name)
    {
      if Trim(name) == "" {
        return None, Blank;
      }
      sent := Some(name);
      if reply.Err? {
        return sent, InsertFailed(reply.message);
      }
      projects := projects + [reply.value];
      result := Changed(reply.value.id);
      name := "";
    }
  }
}
