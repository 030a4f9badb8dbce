/** The project sidebar: the project list, kept in step with the `projects`
    table, and the field that creates a project for the signed-in user. */
module SidebarView {
  import opened Wrappers
  import opened Text
  import opened Entities

  /** The row `createProject` inserts: the trimmed name and the owner. */
  datatype ProjectInsert = ProjectInsert(name: string, userId: string)

  /** How `createProject` ends: nothing done for a blank name, an alert when
      nobody is signed in, an alert with the insert's error, or the created
      project appended and handed to `onSelectProject`. */
  datatype CreateResult = Blank | NotSignedIn(alert: string) | InsertFailed(message: string) | Selected(project: Project)

  const SignInAlert: string := "Necesitas iniciar sesión."

  /** The component's state. */
  class Sidebar {
    var projects: seq<Project>
    var name: string

    /** No projects and an empty name field. */
    constructor ()
      ensures projects == [] && name == ""
    {
      projects := [];
      name := "";
    }

    /** `load`, run on mount and on every change to the `projects` table: the
        list is replaced by the rows returned, and kept (with an alert) when the
        query fails. */
    method Load(reply: Reply<seq<Project>>) returns (alert: Option<string>)
      modifies this`projects
      ensures reply.Ok? ==> projects == reply.value && alert.None?
      ensures reply.Err? ==> projects == old(projects) && alert == Some(reply.message)
    {
      if reply.Err? {
        return Some(reply.message);
      }
      projects := reply.value;
      alert := None;
    }

    /** `createProject`, with `uid` the signed-in user's id and `reply` the
        insert's reply. A blank name does nothing; no user means nothing is
        inserted; the insert carries the trimmed name; a failed insert changes
        neither the list nor the field; a created project is appended, the
        field is cleared and the project becomes the selection. */
    method CreateProject(uid: Option<string>, reply: Reply<Project>)
      returns (sent: Option<ProjectInsert>, result: CreateResult)
      modifies this
      ensures Trim(old(name)) == "" ==> sent.None? && result == Blank
      ensures Trim(old(name)) != "" && !Present(uid) ==> sent.None? && result == NotSignedIn(SignInAlert)
      ensures Trim(old(name)) != "" && Present(uid) ==>
        sent == Some(ProjectInsert(Trim(old(name)), uid.value))
        && result == (if reply.Ok? then Selected(reply.value) else InsertFailed(reply.message))
      ensures result.Selected? ==> projects == old(projects) + [result.project] && name == ""
      ensures !result.Selected? ==> projects == old(projects) && name == old(name)
    {
      var trimmed := Trim(name);
      if trimmed == "" {
        return None, Blank;
      }
      if !Present(uid) {
        return None, NotSignedIn(SignInAlert);
      }
      sent := Some(ProjectInsert(trimmed, uid.value));
      if reply.Err? {
        return sent, InsertFailed(reply.message);
      }
      projects := projects + [reply.value];
      name := "";
      result := Selected(reply.value);
    }
  }

  /** The insert's name never has spaces at either end, and is empty only when
      the typed name was blank, which is exactly when nothing is sent. */
  lemma InsertedNameIsTrimmed(typed: string)
    requires Trim(typed) != ""
    ensures !IsTrimmable(Trim(typed)[0]) && !IsTrimmable(Trim(typed)[|Trim(typed)| - 1])
    ensures exists i :: 0 <= i < |typed| && !IsTrimmable(typed[i])
  {
    TrimShape(typed);
    TrimEmptyIff(typed);
  }
}
