# Task manager board: a Dafny model

This project models the client-side logic of a small task board built with
React on top of a hosted database. Users sign in, keep a list of projects, and
manage each project's tasks. Tasks sit on a Kanban board with three status
columns ("todo", "in-progress", "done") and on a month calendar. The model covers:

- the Kanban board's task list: the reducer that applies realtime INSERT,
  UPDATE and DELETE events, the grouping into status columns, the drag-and-drop
  status change with its rollback, the load guard, and the overdue marker;
- the calendar: filing tasks under the day of their deadline, the four-entry
  day cell with its "+N más" label, and the Monday-to-Sunday grid of a month;
- the new-task form (checks, inserted row, reset after success) and the
  edit dialog (initial fields, update patch, close only on success);
- the two sign-in screens: validation, error and message selection, and the
  loading flag;
- the two project lists: load, and create with a trimmed-name guard;
- the theme: preference resolution, apply, toggle, and the system-change guard.

Every backend call (query, insert, update, auth call) is a parameter that
carries its reply. Most replies are a `Reply<T>` (`Ok(data)` or
`Err(message)`) or an `Outcome` (`Success` or `Failure(message)`). The
sign-up reply is a `SignUpReply`: a failure message, or whether a session and
a confirmed email came back. The signed-in user that the Sidebar asks for
before creating a project is an `Option<string>` holding the user's id. A component whose state the source updates
step by step is a class with those fields. Its handlers are methods whose
`ensures` give the whole new state. The pure decisions (checks, payloads,
the reducer, grouping, bucketing) are functions, and lemmas state their
properties.

Files: `wrappers.dfy` (Option, Reply, Outcome), `text.dfy` (JavaScript `trim`,
truthiness, description-or-null, `o ?? ""`, UTF-16 length), `sequences.dfy` (`map` and
`filter`), `entities.dfy` (Task, Project, Status, Priority), then one file per
component: `kanban.dfy`, `calendar.dfy`, `task_form.dfy`,
`edit_task_modal.dfy`, `auth_page.dfy`, `login.dfy`, `sidebar.dfy`,
`project_picker.dfy`, `theme.dfy`.

Two declarations of a task record disagree. `types.ts` declares the deadline
as a string, while `Kanban.tsx` declares it nullable. The model uses
`Option<string>`, because the calendar and the edit dialog both handle the null case.

The board's realtime handling is neither idempotent nor order-tolerant. It
appends on every INSERT, even for an id already on the board. It ignores an
UPDATE for an id not on the board. A late INSERT brings back a row whose
DELETE arrived first. The lemmas `Kanban.InsertTwiceDuplicates`,
`Kanban.UpdateAbsentAndRepeated` and `Kanban.DeleteBeforeInsertKeepsRow`
state this behaviour. A reorder within one column also sends an update, with
an unchanged status, and `Kanban.DropGuards` states that.

## Model

| member | source | states |
|---|---|---|
| Text.IsTrimmable | task-manager/src/components/TaskForm.tsx:21 | the characters `trim` strips: ECMAScript white space and line terminators (definition, no contract) |
| Text.TrimStart | task-manager/src/components/TaskForm.tsx:21 | drops leading strippable characters (definition; `Text.TrimStartShape` states its properties) |
| Text.TrimEnd | task-manager/src/components/Sidebar.tsx:55 | drops trailing strippable characters (definition; `Text.TrimEndShape` states its properties) |
| Text.Trim | task-manager/src/components/Sidebar.tsx:55 | `s.trim()` as trailing strip after leading strip (definition; `Text.TrimShape`, `Text.TrimEmptyIff` and `Text.TrimIdempotent` state its properties) |
| Text.Present | task-manager/src/components/Kanban.tsx:24 | JavaScript truthiness of a nullable string: neither null nor `""` (definition, no contract) |
| Text.TrimStartShape | task-manager/src/components/TaskForm.tsx:21 | the result is the suffix of the input starting at its first non-whitespace character; everything dropped is whitespace |
| Text.TrimEndShape | task-manager/src/components/Sidebar.tsx:55 | the result is the prefix of the input ending at its last non-whitespace character; everything dropped is whitespace |
| Text.TrimEmptyIff | task-manager/src/components/ProjectPicker.tsx:21 | `name.trim()` is empty exactly when every character is whitespace |
| Text.TrimShape | task-manager/src/components/Sidebar.tsx:55-56 | the trimmed name is a slice of the typed one with no whitespace at either end |
| Text.TrimIdempotent | task-manager/src/components/Sidebar.tsx:55-56 | trimming an already trimmed name changes nothing |
| Text.NullIfEmpty | task-manager/src/components/TaskForm.tsx:28 | the description-or-null idiom gives null exactly for the empty string and otherwise the string itself |
| Text.OrEmpty | task-manager/src/components/EditTaskModal.tsx:7-8 | `o ?? ""` is the value when there is one |
| Text.OrEmptyNullIfEmpty | task-manager/src/components/EditTaskModal.tsx:7-12 | a form field sent as nullable and read back with `?? ""` is the field unchanged |
| Text.NullIfEmptyOrEmpty | task-manager/src/components/EditTaskModal.tsx:7-12 | a nullable value read into a field and sent back is unchanged exactly when it was not `""` |
| Text.Utf16Length | task-manager/src/auth/AuthPage.tsx:38 | `password.length` counts UTF-16 code units: between the number of characters and twice it, and equal to it for BMP-only strings |
| Sequences.Map | task-manager/src/components/Kanban.tsx:70 | `prev.map(f)` has the same length and holds `f` of each element in place |
| Sequences.Filter | task-manager/src/components/Kanban.tsx:72 | `prev.filter(p)` is never longer than its input |
| Sequences.FilterMembers | task-manager/src/components/Kanban.tsx:72 | `prev.filter(p)` holds exactly the elements that pass `p`, and no more copies of any than the input |
| Sequences.FilterSnoc | task-manager/src/components/Kanban.tsx:86 | pushing matching elements one at a time computes the filter of the prefix seen so far |
| Sequences.FilterKeepsAll | task-manager/src/components/Kanban.tsx:72 | a filter every element passes keeps the sequence unchanged |
| Sequences.FilterLength | task-manager/src/components/Kanban.tsx:128 | a column's length is the number of tasks that pass its filter |
| Entities.StatusKeyRoundTrip | task-manager/src/types.ts:1 | the three status keys read back as their status, and no other string reads as that status |
| Entities.PriorityKeyRoundTrip | task-manager/src/types.ts:2 | the three priority names read back as their priority, and no other string reads as that priority |
| Kanban.InsertTwiceDuplicates | task-manager/src/components/Kanban.tsx:68 | INSERT appends at the end with no id check; the same INSERT delivered twice adds two copies, so INSERT is not idempotent |
| Kanban.UpdateReplacesById | task-manager/src/components/Kanban.tsx:69-70 | UPDATE keeps length and order and replaces exactly the tasks whose id is the new row's id |
| Kanban.UpdateAbsentAndRepeated | task-manager/src/components/Kanban.tsx:69-70 | UPDATE for an id not on the board changes nothing; a repeated UPDATE gives the same list as a single one |
| Kanban.DeleteRemovesById | task-manager/src/components/Kanban.tsx:71-72 | DELETE keeps exactly the tasks with another id (as members), leaves no task with that id, is a no-op for an absent id, and is idempotent |
| Kanban.DeleteStep | task-manager/src/components/Kanban.tsx:71-72 | DELETE keeps the other tasks in order and with their copies: the empty list stays empty, and on a list extended by one task it deletes from the prefix and keeps that task exactly when its id is another one |
| Kanban.DeleteBeforeInsertKeepsRow | task-manager/src/components/Kanban.tsx:67-73 | a DELETE delivered before the INSERT of the same row leaves the row on the board |
| Kanban.OtherEventKeepsList | task-manager/src/components/Kanban.tsx:73 | an event of any other type leaves the list unchanged |
| Kanban.Reduce | task-manager/src/components/Kanban.tsx:67-74 | the realtime reducer (definition; the six lemmas above state its behaviour per event type) |
| Kanban.Column | task-manager/src/components/Kanban.tsx:84-88 | the tasks of one status in list order (definition; `Kanban.ColumnsPartition` and `Kanban.Board.Grouped` state its properties) |
| Kanban.ColumnsPartition | task-manager/src/components/Kanban.tsx:84-88 | each task is in the column of its status and in no other; the three column lengths sum to the number of tasks |
| Kanban.ColumnSizes | task-manager/src/components/Kanban.tsx:84-88 | the three column lengths sum to the number of tasks |
| Kanban.ColumnStep | task-manager/src/components/Kanban.tsx:86 | pushing one more task extends the column of its status at the end and leaves the other two as they were |
| Kanban.FindById | task-manager/src/components/Kanban.tsx:99 | `tasks.find` by id returns the first task of the list with that id, and returns nothing exactly when no task has it |
| Kanban.DropDecision | task-manager/src/components/Kanban.tsx:90-100 | the guards of a drop (definition; `Kanban.DropGuards` states when a move is issued and which) |
| Kanban.SetStatus | task-manager/src/components/Kanban.tsx:102 | the status change by id (definition; `Kanban.SetStatusOnlyChangesStatus` and `Kanban.RollbackRestores` state its properties) |
| Kanban.DropGuards | task-manager/src/components/Kanban.tsx:90-100 | a move is issued iff the drop has a destination, is not onto the same column at the same index, and names a task on the board; the move then goes from source column to destination column, also for a same-column reorder |
| Kanban.SetStatusOnlyChangesStatus | task-manager/src/components/Kanban.tsx:102 | the optimistic change keeps the length, leaves every task with another id unchanged, and changes only `status` of the dragged id's tasks |
| Kanban.RollbackRestores | task-manager/src/components/Kanban.tsx:105-106 | when the dragged task was in the source column, setting it back to the source column after the move yields the pre-drop list |
| Kanban.IsOverdue | task-manager/src/components/Kanban.tsx:23-28 | `isOverdue` (definition; the three lemmas below state its properties) |
| Kanban.NoDeadlineNeverOverdue | task-manager/src/components/Kanban.tsx:23-27 | a null or empty deadline, or one that does not parse as a date (a 10-character one read with `T23:59:59` appended), is never overdue |
| Kanban.OverdueIsMonotone | task-manager/src/components/Kanban.tsx:27 | once overdue at some instant, a task is overdue at every later instant |
| Kanban.DateOnlyDeadlineEndsDay | task-manager/src/components/Kanban.tsx:26-27 | a 10-character date deadline is overdue exactly after 23:59:59 of that day |
| Kanban.Board.constructor | task-manager/src/components/Kanban.tsx:31-32 | the board starts with no tasks and not loading |
| Kanban.Board.Load | task-manager/src/components/Kanban.tsx:35-56 | without a project the list is emptied; with one it becomes the returned rows, is kept on an error, and loading ends false |
| Kanban.Board.ApplyChange | task-manager/src/components/Kanban.tsx:66-74 | a realtime event sets the list to the reducer applied to the old list |
| Kanban.Board.Grouped | task-manager/src/components/Kanban.tsx:84-88 | the loop's three arrays are exactly the three columns: each status's tasks in list order |
| Kanban.Board.BeginDrop | task-manager/src/components/Kanban.tsx:90-102 | the drop's guards decide the move; without one the list is unchanged, with one only the moved id's status becomes the destination |
| Kanban.Board.SettleDrop | task-manager/src/components/Kanban.tsx:104-107 | a successful update keeps the list and alerts nothing; a failed one sets the moved id back to the source column and alerts the error's message |
| Kanban.Board.OnDragEnd | task-manager/src/components/Kanban.tsx:90-109 | the whole handler: guarded move, optimistic change, and on failure the moved id set back to the source column with the error alerted, which is the pre-drop list again when the card was in its source column |
| Calendar.BucketKey | task-manager/src/components/CalendarView.tsx:35 | the key is the deadline's first ten characters (all of it when shorter), a prefix of the deadline |
| Calendar.BucketStep | task-manager/src/components/CalendarView.tsx:33-36 | filing one more task extends only the bucket of its key, at the end |
| Calendar.FileOne | task-manager/src/components/CalendarView.tsx:34-36 | one pass of the loop body on the map (definition; `Calendar.FileStep` states what it keeps) |
| Calendar.FileStep | task-manager/src/components/CalendarView.tsx:33-36 | one pass of the loop body keeps the map holding exactly the non-empty buckets of the tasks seen so far |
| Calendar.FiledUnderOneKey | task-manager/src/components/CalendarView.tsx:33-36 | a task with a deadline is in exactly the bucket of its deadline's key; a task without one is in none |
| Calendar.DayCell | task-manager/src/components/CalendarView.tsx:65-72 | a cell lists the first min(4, n) of its n tasks; the label appears exactly when n > 4 and shows n - 4, so listed plus hidden is n |
| Calendar.CellFor | task-manager/src/components/CalendarView.tsx:60 | `tasksByDate[key]`, or `[]` for a day without tasks, put into a cell (definition; `Calendar.CellShowsBucket` states what it shows) |
| Calendar.CellShowsBucket | task-manager/src/components/CalendarView.tsx:60-71 | with the map the loop builds, a day's cell shows the first four tasks of that day's bucket and counts the rest |
| Calendar.DayOfWeek | task-manager/src/components/CalendarView.tsx:24 | `getDay()` on day numbers lies in 0..6 |
| Calendar.DaysSinceMonday | task-manager/src/components/CalendarView.tsx:24 | `(getDay()+6)%7` lies in 0..6 |
| Calendar.GridStart | task-manager/src/components/CalendarView.tsx:24 | the grid's first day (definition; `Calendar.GridStartIsMonday` states its properties) |
| Calendar.GridEnd | task-manager/src/components/CalendarView.tsx:26 | the grid's last day (definition; `Calendar.GridEndIsSunday` states its properties) |
| Calendar.GridStartIsMonday | task-manager/src/components/CalendarView.tsx:23-24 | stepping back `(dow+6)%7` days from the 1st lands on a Monday less than a week before it |
| Calendar.GridEndIsSunday | task-manager/src/components/CalendarView.tsx:25-26 | stepping forward `6-(dow+6)%7` days from the last day lands on a Sunday less than a week after it |
| Calendar.GridDays | task-manager/src/components/CalendarView.tsx:21-29 | the days loop lists consecutive days from a Monday to a Sunday covering the whole month: 4 to 6 full weeks |
| Calendar.CalendarView.constructor | task-manager/src/components/CalendarView.tsx:6 | the calendar starts with no tasks |
| Calendar.CalendarView.Load | task-manager/src/components/CalendarView.tsx:9-19 | without a project the list is empty; otherwise it is the returned rows, or empty when the query returns no data |
| Calendar.CalendarView.TasksByDate | task-manager/src/components/CalendarView.tsx:31-39 | the map has a key exactly for each non-empty bucket and holds that bucket: the dated tasks with that day key, in list order |
| NewTaskForm.SubmitCheck | task-manager/src/components/TaskForm.tsx:20-21 | the insert goes ahead iff a project is selected, the trimmed title is non-empty and a deadline is set; no project is reported first |
| NewTaskForm.BuildPayload | task-manager/src/components/TaskForm.tsx:26-33 | the inserted row (definition; `NewTaskForm.PayloadKeepsFields` and `NewTaskForm.SelectsReadBack` state its properties) |
| NewTaskForm.PayloadKeepsFields | task-manager/src/components/TaskForm.tsx:26-33 | the row carries the untrimmed title; its description is null iff the field is empty and reads back as the field; a chosen status is kept and an empty one becomes "todo"; the project is the selected one |
| NewTaskForm.SelectsReadBack | task-manager/src/components/TaskForm.tsx:12-13 | a status select holding a status key (or empty) and a priority select holding a priority name give a row that reads back as that status (or "todo") and that priority |
| NewTaskForm.TitleNeedsVisibleCharacter | task-manager/src/components/TaskForm.tsx:21 | with project and deadline set, the title passes iff it has a character `trim` keeps |
| NewTaskForm.TaskForm.constructor | task-manager/src/components/TaskForm.tsx:12-16 | the form starts with empty text fields, status "todo" and priority "Media" |
| NewTaskForm.TaskForm.Submit | task-manager/src/components/TaskForm.tsx:18-44 | a refused submit sends nothing; an accepted one sends the payload; only a created task goes to `onCreated` and resets all five fields; on an error no field changes |
| EditTask.PatchOf | task-manager/src/components/EditTaskModal.tsx:12 | the update payload (definition; `EditTask.SaveUntouchedRoundTrip` states what it writes back) |
| EditTask.Patched | task-manager/src/components/EditTaskModal.tsx:12-13 | applying an edit's patch never changes the row's id, status or project |
| EditTask.SaveUntouchedRoundTrip | task-manager/src/components/EditTaskModal.tsx:6-12 | saving without edits writes the row back unchanged iff its description is not `""` and it has a deadline |
| EditTask.EditTaskModal.constructor | task-manager/src/components/EditTaskModal.tsx:6-9 | the fields start as copies of the edited task's fields, a null description or deadline as `""` |
| EditTask.EditTaskModal.Save | task-manager/src/components/EditTaskModal.tsx:11-16 | the update targets the edited task's id with title, description (empty as null), deadline and priority only; the dialog closes only on success, and a failure alerts the error's message |
| EditTask.EditTaskModal.Cancel | task-manager/src/components/EditTaskModal.tsx:29 | Cancel closes the dialog and sends nothing |
| AuthPageView.SignUpCheck | task-manager/src/auth/AuthPage.tsx:38-39 | sign-up proceeds iff the password has at least 6 code units and matches; a short password reports the length error even when mismatched |
| AuthPageView.SignUpMessage | task-manager/src/auth/AuthPage.tsx:49-53 | "account created" iff a session or a confirmed email came back, otherwise "confirmation sent" |
| AuthPageView.PasswordLengthInCodeUnits | task-manager/src/auth/AuthPage.tsx:38 | six characters are never too short, two or fewer always are, and three astral characters pass |
| AuthPageView.AuthPage.constructor | task-manager/src/auth/AuthPage.tsx:7-13 | empty fields, nothing loading, no message, no error |
| AuthPageView.AuthPage.ResetFeedback | task-manager/src/auth/AuthPage.tsx:15 | clears both the error and the message |
| AuthPageView.AuthPage.HandleGoogle | task-manager/src/auth/AuthPage.tsx:17-26 | feedback cleared, the error is the reply's message if any, nothing loading afterwards |
| AuthPageView.AuthPage.HandleSignin | task-manager/src/auth/AuthPage.tsx:28-34 | feedback cleared, the call is made, the error is the reply's message if any, nothing loading afterwards |
| AuthPageView.AuthPage.HandleSignup | task-manager/src/auth/AuthPage.tsx:36-56 | a failed check sets its error, makes no call and leaves loading as it was; after the call exactly one of error and message is set and nothing is loading |
| LoginView.Toggled | task-manager/src/auth/Login.tsx:97 | the mode link always switches the mode |
| LoginView.ToggleTwice | task-manager/src/auth/Login.tsx:97 | two toggles restore the mode |
| LoginView.SubmitCheck | task-manager/src/auth/Login.tsx:27-33 | only sign-up checks: it refuses an empty email, an empty password or differing passwords; sign-in never looks at the repeated password |
| LoginView.CallFor | task-manager/src/auth/Login.tsx:29-32 | the auth call of each mode (definition; `LoginView.Login.OnSubmit` states when it is made) |
| LoginView.Login.constructor | task-manager/src/auth/Login.tsx:7-12 | empty fields, sign-in mode, not loading, no error |
| LoginView.Login.OnGoogle | task-manager/src/auth/Login.tsx:14-20 | the error is the reply's message if any; loading ends false |
| LoginView.Login.OnSubmit | task-manager/src/auth/Login.tsx:22-40 | a failed check makes no call and sets the check's message; otherwise the mode's call is made and the error is the reply's message if any; loading ends false |
| LoginView.Login.ToggleMode | task-manager/src/auth/Login.tsx:97 | the mode becomes the other mode |
| SidebarView.Sidebar.constructor | task-manager/src/components/Sidebar.tsx:22-23 | no projects, empty name |
| SidebarView.Sidebar.Load | task-manager/src/components/Sidebar.tsx:26-37 | a successful load replaces the list wholesale; a failure keeps it and alerts the message |
| SidebarView.Sidebar.CreateProject | task-manager/src/components/Sidebar.tsx:54-80 | blank name: nothing done; no user: nothing inserted and the sign-in alert; the insert carries the trimmed name and the user; on error list and name unchanged; on success the project is appended, the name cleared and the project selected |
| SidebarView.InsertedNameIsTrimmed | task-manager/src/components/Sidebar.tsx:55-67 | the inserted name has no whitespace at either end, and a name is inserted only if it has a non-whitespace character |
| ProjectPickerView.ProjectPicker.constructor | task-manager/src/components/ProjectPicker.tsx:9-10 | no projects, empty name |
| ProjectPickerView.ProjectPicker.Load | task-manager/src/components/ProjectPicker.tsx:12-15 | the list becomes the returned rows, and is kept on an error |
| ProjectPickerView.ProjectPicker.CreateProject | task-manager/src/components/ProjectPicker.tsx:19-30 | a blank name does nothing; the insert sends the untrimmed name; on success the project is appended, its id goes to `onChange` and the name is cleared; on error nothing changes |
| Theme.PreferredTheme | task-manager/src/lib/theme.ts:5-12 | a saved "light" or "dark" is returned as is; otherwise dark exactly when the media query exists and matches |
| Theme.SavedThemeWins | task-manager/src/lib/theme.ts:7-8 | a saved theme name is read back as that theme whatever the system says |
| Theme.Opposite | task-manager/src/lib/theme.ts:32-34 | the toggle target is dark exactly when the class is absent |
| Theme.Document.constructor | task-manager/src/lib/theme.ts:7-47 | the stored value, class, storage availability, media query and its `addEventListener` are as given |
| Theme.Document.GetPreferredTheme | task-manager/src/lib/theme.ts:5-12 | the preference from what storage yields (nothing when it throws) and the media query |
| Theme.Document.ApplyTheme | task-manager/src/lib/theme.ts:15-21 | the dark class is present iff the theme is dark; the stored value is the theme's name unless storage throws |
| Theme.Document.EnsureInitialTheme | task-manager/src/lib/theme.ts:24-28 | applies the preferred theme: the class shows it, and storage holds its name when storage is available and is unchanged otherwise |
| Theme.Document.ToggleTheme | task-manager/src/lib/theme.ts:31-37 | returns the opposite of the class state; afterwards the class is flipped and matches the returned theme |
| Theme.Document.WatchSystemTheme | task-manager/src/lib/theme.ts:40-48 | a handler is installed exactly when `matchMedia` exists and its media query object has `addEventListener` |
| Theme.Document.OnSystemChange | task-manager/src/lib/theme.ts:43-46 | the callback runs only when nothing (or `""`) is stored, with the system's theme, which is then the preferred theme |
| Theme.ToggleTwiceRestores | task-manager/src/lib/theme.ts:31-37 | two toggles restore the dark class |
| Theme.HandlerFires | task-manager/src/lib/theme.ts:44-45 | the handler fires only when no theme name is stored |
| Theme.HandlerAgreesWithPreference | task-manager/src/lib/theme.ts:5-12 | when the handler fires it reports the preferred theme; a stored non-theme value such as "blue" silences it although the preference follows the system |

## Left out

- Backend I/O: every query, insert, update and auth call is a reply parameter. Query filters (project, user, ordering by deadline) are not modelled, and rows are taken as returned.
- Channel subscription and teardown (`channel`, `subscribe`, `removeChannel`) are not modelled. The Sidebar's realtime reload is its `Load` applied again.
- Kanban.Board.OnDragEnd: the method runs the optimistic change and the settle back to back. Realtime events that arrive while the update is in flight are not covered by it; they are `ApplyChange` calls between `BeginDrop` and `SettleDrop`.
- `onDragEnd` looks the dragged card up in the list of the last render but updates the latest state. The model has one list, so a render that is stale by the time of the drop is not modelled.
- Loading flags are modelled by their value when a handler ends. The value while a call is pending shows only in the order of assignments in each method.
- Date handling is passed in as parameters: `new Date(...)` is a `parse` function (with `None` for an invalid date), the ISO conversion of a new deadline is a `toIso` function, and "now" is a parameter. The calendar's `toKey`, month navigation and `isOtherMonth` are not modelled. The grid uses integer day numbers instead of `Date`.
- Task records have no optional `user_id`. A status outside the three keys (which `g[t.status]?.push` would skip) cannot be represented, because `Status` has three values.
- Alerts are returned as messages (an `alert` out-parameter, or a result that carries the message); `console.error`, the JSX markup and the drag-and-drop library are not modelled.
- String lengths (`d.length === 10`, `slice(0, 10)`) are measured in characters, not in UTF-16 code units as JavaScript does. The two agree for every ISO date and timestamp, which are ASCII; the password check, where they can differ, uses `Text.Utf16Length`.
- Local storage is modelled as the one value stored under the key `Theme.StorageKey` names; other keys are not modelled.
- EditTask.Patched is an assumption about how the backend applies a patch. It stores an empty deadline as `""`. The deadline column holds timestamps (the form converts its date to ISO for that reason, TaskForm.tsx:22-29), so the backend most likely refuses `""`. In that case a save of a task without a deadline fails with an alert and leaves the row as it was, which `EditTask.SaveUntouchedRoundTrip` does not describe for that case.
- The ThemeContext provider, the ThemeToggle button, the auth wrapper functions, the session gate, the older auth screens, the database client and the layout components are not part of this model. They are view wiring or one-line calls.
- The Google sign-in redirect itself is not modelled; only its error report is.
