/** The Kanban board of one project: the list of tasks it keeps in sync with the
    realtime channel, the three status columns it derives from that list, the
    drag-and-drop status change with its rollback, and the overdue marker. */
module Kanban {
  import opened Wrappers
  import opened Text
  import opened Sequences
  import opened Entities

  /** A change the realtime channel delivers for the project's `tasks` rows:
      the new row of an INSERT or UPDATE, the old row's id of a DELETE, or an
      event of any other type. */
  datatype Change = Insert(newRecord: Task) | Update(newRecord: Task) | Delete(oldId: string) | Other

  /** The realtime reducer: INSERT appends, UPDATE replaces every task with the
      new row's id, DELETE drops every task with the old row's id, and anything
      else keeps the list. */
  function Reduce(prev: seq<Task>, c: Change): seq<Task> {
    match c
    case Insert(rec) => prev + [rec]
    case Update(rec) => Map(prev, (t: Task) => if t.id == rec.id then rec else t)
    case Delete(id) => Filter(prev, IdIsNot(id))
    case Other => prev
  }

  /** The test a DELETE applies to each task. */
  function IdIsNot(id: string): Task -> bool {
    (t: Task) => t.id != id
  }

  /** True when some task in `tasks` has id `id`. */
  predicate HasId(tasks: seq<Task>, id: string) {
    exists i :: 0 <= i < |tasks| && tasks[i].id == id
  }

  /** An INSERT is appended with no id check: delivering it twice leaves two
      copies more than before, so INSERT is not idempotent. */
  lemma InsertTwiceDuplicates(prev: seq<Task>, rec: Task)
    ensures Reduce(prev, Insert(rec)) == prev + [rec]
    ensures multiset(Reduce(Reduce(prev, Insert(rec)), Insert(rec)))[rec] == multiset(prev)[rec] + 2
    ensures Reduce(Reduce(prev, Insert(rec)), Insert(rec)) != Reduce(prev, Insert(rec))
  {
    assert |Reduce(Reduce(prev, Insert(rec)), Insert(rec))| == |prev| + 2;
  }

  /** An UPDATE keeps length and order and replaces exactly the tasks that carry
      the new row's id. */
  lemma UpdateReplacesById(prev: seq<Task>, rec: Task)
    ensures |Reduce(prev, Update(rec))| == |prev|
    ensures forall i :: 0 <= i < |prev| ==>
      Reduce(prev, Update(rec))[i] == (if prev[i].id == rec.id then rec else prev[i])
  {
  }

  /** An UPDATE for an id that is not on the board changes nothing (it does not
      insert the row), and applying the same UPDATE twice is applying it once. */
  lemma UpdateAbsentAndRepeated(prev: seq<Task>, rec: Task)
    ensures !HasId(prev, rec.id) ==> Reduce(prev, Update(rec)) == prev
    ensures Reduce(Reduce(prev, Update(rec)), Update(rec)) == Reduce(prev, Update(rec))
  {
    var once := Reduce(prev, Update(rec));
    if !HasId(prev, rec.id) {
      assert forall i :: 0 <= i < |prev| ==> once[i] == prev[i];
    }
    var twice := Reduce(once, Update(rec));
    assert forall i :: 0 <= i < |prev| ==> twice[i] == once[i];
  }

  /** A DELETE removes every task with the old row's id and keeps every other
      task, in order; deleting an id that is not on the board changes nothing,
      and a repeated DELETE changes nothing more. */
  lemma DeleteRemovesById(prev: seq<Task>, id: string)
    ensures forall t :: t in Reduce(prev, Delete(id)) <==> t in prev && t.id != id
    ensures !HasId(Reduce(prev, Delete(id)), id)
    ensures !HasId(prev, id) ==> Reduce(prev, Delete(id)) == prev
    ensures Reduce(Reduce(prev, Delete(id)), Delete(id)) == Reduce(prev, Delete(id))
  {
    var once := Reduce(prev, Delete(id));
    FilterMembers(prev, IdIsNot(id));
    FilterMembers(once, IdIsNot(id));
    if !HasId(prev, id) {
      forall t | t in prev ensures t.id != id {
        var i :| 0 <= i < |prev| && prev[i] == t;
      }
      FilterKeepsAll(prev, IdIsNot(id));
    }
    forall t | t in once ensures t.id != id {
    }
    FilterKeepsAll(once, IdIsNot(id));
  }

  /** DELETE is a filter that keeps order and copies: it maps the empty list
      to itself, and on a list extended by one task it deletes from the prefix
      and then keeps that task exactly when its id is another one. */
  lemma DeleteStep(prev: seq<Task>, t: Task, id: string)
    ensures Reduce([], Delete(id)) == []
    ensures Reduce(prev + [t], Delete(id)) == Reduce(prev, Delete(id)) + (if t.id != id then [t] else [])
  {
    FilterSnoc(prev, t, IdIsNot(id));
  }

  /** Events are not applied order-tolerantly: a DELETE that arrives before the
      INSERT of the same row leaves the row on the board. */
  lemma DeleteBeforeInsertKeepsRow(prev: seq<Task>, rec: Task)
    ensures rec in Reduce(Reduce(prev, Delete(rec.id)), Insert(rec))
  {
    assert Reduce(Reduce(prev, Delete(rec.id)), Insert(rec)) == Reduce(prev, Delete(rec.id)) + [rec];
  }

  /** Any other event type leaves the list as it was. */
  lemma OtherEventKeepsList(prev: seq<Task>)
    ensures Reduce(prev, Other) == prev
  {
  }

  /** The tasks of one column: those with that status, in list order. */
  function Column(tasks: seq<Task>, s: Status): seq<Task> {
    Filter(tasks, HasStatus(s))
  }

  /** The test a column applies to each task. */
  function HasStatus(s: Status): Task -> bool {
    (t: Task) => t.status == s
  }

  /** Pushing one more task extends the column of its status and no other. */
  lemma ColumnStep(prefix: seq<Task>, t: Task)
    ensures Column(prefix + [t], t.status) == Column(prefix, t.status) + [t]
    ensures forall s :: s != t.status ==> Column(prefix + [t], s) == Column(prefix, s)
  {
    FilterSnoc(prefix, t, HasStatus(Todo));
    FilterSnoc(prefix, t, HasStatus(InProgress));
    FilterSnoc(prefix, t, HasStatus(Done));
  }

  /** Every task lies in the column of its status and in no other, and the three
      columns together hold exactly as many tasks as the list. */
  lemma ColumnsPartition(tasks: seq<Task>)
    ensures forall t, s :: t in Column(tasks, s) <==> t in tasks && t.status == s
    ensures |Column(tasks, Todo)| + |Column(tasks, InProgress)| + |Column(tasks, Done)| == |tasks|
  {
    FilterMembers(tasks, HasStatus(Todo));
    FilterMembers(tasks, HasStatus(InProgress));
    FilterMembers(tasks, HasStatus(Done));
    ColumnSizes(tasks);
  }

  /** The column sizes add up to the length of the list. */
  lemma {:induction false} ColumnSizes(tasks: seq<Task>)
    ensures |Column(tasks, Todo)| + |Column(tasks, InProgress)| + |Column(tasks, Done)| == |tasks|
  {
    if tasks != [] {
      var rest := tasks[1..];
      ColumnSizes(rest);
      assert Column(tasks, Todo) == (if tasks[0].status == Todo then [tasks[0]] else []) + Column(rest, Todo);
      assert Column(tasks, InProgress) == (if tasks[0].status == InProgress then [tasks[0]] else []) + Column(rest, InProgress);
      assert Column(tasks, Done) == (if tasks[0].status == Done then [tasks[0]] else []) + Column(rest, Done);
    }
  }

  /** Where a card was picked up or dropped: a column and a position in it. */
  datatype Location = Location(droppableId: Status, index: int)

  /** What the drag-and-drop library reports at the end of a drag; no destination
      means the card was dropped outside every column. */
  datatype DropResult = DropResult(draggableId: string, source: Location, destination: Option<Location>)

  /** A status change the board issues for a drop: which task, the column it left
      and the column it went to. */
  datatype Move = Move(id: string, from: Status, to: Status)

  /** `tasks.find(t => t.id === id)`: the first task with that id. */
  function FindById(tasks: seq<Task>, id: string): (r: Option<Task>)
    ensures r.None? <==> !HasId(tasks, id)
    ensures r.Some? ==> r.value.id == id && r.value in tasks
    ensures r.Some? ==> exists i :: 0 <= i < |tasks| && tasks[i] == r.value && NoIdBefore(tasks, id, i)
  {
    if tasks == [] then None
    else if tasks[0].id == id then
      assert NoIdBefore(tasks, id, 0);
      Some(tasks[0])
    else
      var r := FindById(tasks[1..], id);
      assert HasId(tasks[1..], id) ==> HasId(tasks, id);
      assert HasId(tasks, id) ==> HasId(tasks[1..], id);
      if r.Some? then
        var i :| 0 <= i < |tasks[1..]| && tasks[1..][i] == r.value && NoIdBefore(tasks[1..], id, i);
        assert tasks[i + 1] == r.value && NoIdBefore(tasks, id, i + 1);
        r
      else r
  }

  /** No task before position `i` has id `id`. */
  predicate NoIdBefore(tasks: seq<Task>, id: string, i: int)
    requires 0 <= i <= |tasks|
  {
    forall j :: 0 <= j < i ==> tasks[j].id != id
  }

  /** The guards of a drop: nothing is issued for a drop outside every column,
      for a drop back onto the place the card came from, or for a card whose id
      is not on the board; any other drop moves that task to the destination. */
  function DropDecision(tasks: seq<Task>, drop: DropResult): Option<Move> {
    if drop.destination.None? then None
    else
      var from, to := drop.source.droppableId, drop.destination.value.droppableId;
      if from == to && drop.destination.value.index == drop.source.index then None
      else
        match FindById(tasks, drop.draggableId)
        case None => None
        case Some(task) => Some(Move(task.id, from, to))
  }

  /** `prev.map(t => t.id === id ? { ...t, status: s } : t)`. */
  function SetStatus(tasks: seq<Task>, id: string, s: Status): seq<Task> {
    Map(tasks, (t: Task) => if t.id == id then t.(status := s) else t)
  }

  /** A drop issues a move exactly when it has a destination, is not dropped back
      on its own place, and names a task on the board; the move then goes from
      the source column to the destination column, including a reorder inside
      one column, which issues a move to the same status. */
  lemma DropGuards(tasks: seq<Task>, drop: DropResult)
    ensures DropDecision(tasks, drop).Some? <==>
      && drop.destination.Some?
      && !(drop.source.droppableId == drop.destination.value.droppableId
           && drop.source.index == drop.destination.value.index)
      && HasId(tasks, drop.draggableId)
    ensures DropDecision(tasks, drop).Some? ==>
      DropDecision(tasks, drop) == Some(Move(drop.draggableId, drop.source.droppableId, drop.destination.value.droppableId))
  {
  }

  /** The optimistic change touches only the status of the tasks with the moved
      id; every other task and every other field is left as it was. */
  lemma SetStatusOnlyChangesStatus(tasks: seq<Task>, id: string, s: Status)
    ensures |SetStatus(tasks, id, s)| == |tasks|
    ensures forall i :: 0 <= i < |tasks| && tasks[i].id != id ==> SetStatus(tasks, id, s)[i] == tasks[i]
    ensures forall i :: 0 <= i < |tasks| && tasks[i].id == id ==>
      SetStatus(tasks, id, s)[i] == tasks[i].(status := s)
  {
  }

  /** The rollback sets the moved task back to the source column; when every
      task with that id was in the source column before the drop and nothing
      else happened in between, the list is exactly the list before the drop. */
  lemma RollbackRestores(tasks: seq<Task>, m: Move)
    requires forall i :: 0 <= i < |tasks| && tasks[i].id == m.id ==> tasks[i].status == m.from
    ensures SetStatus(SetStatus(tasks, m.id, m.to), m.id, m.from) == tasks
  {
    var back := SetStatus(SetStatus(tasks, m.id, m.to), m.id, m.from);
    assert |back| == |tasks|;
    forall i | 0 <= i < |tasks| ensures back[i] == tasks[i] {
      if tasks[i].id == m.id {
        assert back[i] == tasks[i].(status := m.to).(status := m.from);
      }
    }
  }

  /** `isOverdue(d)` at instant `now` (milliseconds), with `parse` standing for
      `new Date(...)`: `None` is an invalid date. A null or empty deadline is
      never overdue; a 10-character date is read as 23:59:59 of that day. */
  function IsOverdue(d: Option<string>, now: int, parse: string -> Option<int>): bool {
    if !Present(d) then false
    else
      var dt := parse(if |d.value| == 10 then d.value + "T23:59:59" else d.value);
      dt.Some? && dt.value < now
  }

  /** Milliseconds from the start of a day to 23:59:59 of that day. */
  const EndOfDayOffset: int := 86_399_000

  /** A task without a deadline, or with an empty one, is never overdue, and a
      deadline that cannot be read as a date is never overdue. */
  lemma NoDeadlineNeverOverdue(d: Option<string>, now: int, parse: string -> Option<int>)
    ensures !Present(d) ==> !IsOverdue(d, now, parse)
    ensures Present(d) && parse(if |d.value| == 10 then d.value + "T23:59:59" else d.value).None? ==>
      !IsOverdue(d, now, parse)
  {
  }

  /** Once overdue, a task stays overdue as time goes on. */
  lemma OverdueIsMonotone(d: Option<string>, now: int, later: int, parse: string -> Option<int>)
    requires now <= later
    ensures IsOverdue(d, now, parse) ==> IsOverdue(d, later, parse)
  {
  }

  /** A date-only deadline whose day starts at `dayStart` becomes overdue only
      after the last second of that day has begun: not at any instant up to
      23:59:59, and at every instant after it. */
  lemma DateOnlyDeadlineEndsDay(d: string, dayStart: int, now: int, parse: string -> Option<int>)
    requires |d| == 10
    requires parse(d + "T23:59:59") == Some(dayStart + EndOfDayOffset)
    ensures IsOverdue(Some(d), now, parse) <==> now > dayStart + EndOfDayOffset
  {
  }

  /** The Kanban component's state: its list of tasks and the loading flag. */
  class Board {
    var tasks: seq<Task>
    var loading: bool

    /** The board starts empty and not loading. */
    constructor ()
      ensures tasks == [] && !loading
    {
      tasks := [];
      loading := false;
    }

    /** The load on a project change: no project (absent or empty id) empties
        the list without a query; otherwise the list is replaced by the rows the
        query returns, kept when the query fails, and loading ends false. */
    method Load(projectId: Option<string>, reply: Reply<seq<Task>>)
      modifies this
      ensures !Present(projectId) ==> tasks == [] && loading == old(loading)
      ensures Present(projectId) ==> !loading
      ensures Present(projectId) && reply.Ok? ==> tasks == reply.value
      ensures Present(projectId) && reply.Err? ==> tasks == old(tasks)
    {
      if !Present(projectId) {
        tasks := [];
        return;
      }
      loading := true;
      if reply.Ok? {
        tasks := reply.value;
      }
      loading := false;
    }

    /** One realtime event applied to the list. */
    method ApplyChange(c: Change)
      modifies this`tasks
      ensures tasks == Reduce(old(tasks), c)
    {
      match c
      case Insert(rec) =>
        tasks := tasks + [rec];
      case Update(rec) =>
        tasks := Map(tasks, (t: Task) => if t.id == rec.id then rec else t);
      case Delete(id) =>
        tasks := Filter(tasks, IdIsNot(id));
      case Other =>
    }

    /** `grouped`: one pass over the list pushing each task onto the column of
        its status. */
    method Grouped() returns (todo: seq<Task>, inProgress: seq<Task>, done: seq<Task>)
      ensures todo == Column(tasks, Todo)
      ensures inProgress == Column(tasks, InProgress)
      ensures done == Column(tasks, Done)
    {
      todo, inProgress, done := [], [], [];
      for i := 0 to |tasks|
        invariant todo == Column(tasks[..i], Todo)
        invariant inProgress == Column(tasks[..i], InProgress)
        invariant done == Column(tasks[..i], Done)
      {
        var t := tasks[i];
        assert tasks[..i + 1] == tasks[..i] + [t];
        ColumnStep(tasks[..i], t);
        match t.status
        case Todo => todo := todo + [t];
        case InProgress => inProgress := inProgress + [t];
        case Done => done := done + [t];
      }
      assert tasks[..|tasks|] == tasks;
    }

    /** The synchronous half of `onDragEnd`: the guards, then the optimistic
        status change. The returned move is the update to send, if any. */
    method BeginDrop(drop: DropResult) returns (pending: Option<Move>)
      modifies this`tasks
      ensures pending == DropDecision(old(tasks), drop)
      ensures pending.None? ==> tasks == old(tasks)
      ensures pending.Some? ==> tasks == SetStatus(old(tasks), pending.value.id, pending.value.to)
    {
      pending := None;
      if drop.destination.None? {
        return;
      }
      var from := drop.source.droppableId;
      var to := drop.destination.value.droppableId;
      if from == to && drop.destination.value.index == drop.source.index {
        return;
      }
      var task := FindById(tasks, drop.draggableId);
      if task.None? {
        return;
      }
      pending := Some(Move(task.value.id, from, to));
      tasks := SetStatus(tasks, task.value.id, to);
    }

    /** The half of `onDragEnd` that runs when the update returns: on an error
        the moved task is set back to the source column and the error's message
        is alerted, otherwise nothing changes. */
    method SettleDrop(m: Move, reply: Outcome) returns (alert: Option<string>)
      modifies this`tasks
      ensures reply.Success? ==> tasks == old(tasks) && alert.None?
      ensures reply.Failure? ==> tasks == SetStatus(old(tasks), m.id, m.from) && alert == Some(reply.message)
    {
      alert := None;
      if reply.Failure? {
        tasks := SetStatus(tasks, m.id, m.from);
        alert := Some(reply.message);
      }
    }

    /** `onDragEnd` when no other event arrives while the update is in flight:
        a failed update sets the dragged task back to the column it was dragged
        from and alerts the error, which leaves the list as it was before the
        drop provided the dragged task was in that column. */
    method OnDragEnd(drop: DropResult, reply: Outcome) returns (pending: Option<Move>, alert: Option<string>)
      modifies this`tasks
      ensures pending == DropDecision(old(tasks), drop)
      ensures pending.None? ==> tasks == old(tasks) && alert.None?
      ensures pending.Some? && reply.Success? ==>
        tasks == SetStatus(old(tasks), pending.value.id, pending.value.to) && alert.None?
      ensures pending.Some? && reply.Failure? ==>
        tasks == SetStatus(SetStatus(old(tasks), pending.value.id, pending.value.to), pending.value.id, pending.value.from)
        && alert == Some(reply.message)
      ensures pending.Some? && reply.Failure?
        && (forall i :: 0 <= i < |old(tasks)| && old(tasks)[i].id == drop.draggableId ==>
              old(tasks)[i].status == drop.source.droppableId)
        ==> tasks == old(tasks)
    {
      ghost var before := tasks;
      pending := BeginDrop(drop);
      alert := None;
      if pending.Some? {
        alert := SettleDrop(pending.value, reply);
        if reply.Failure? && forall i :: 0 <= i < |before| && before[i].id == drop.draggableId ==>
                               before[i].status == drop.source.droppableId {
          DropGuards(before, drop);
          RollbackRestores(before, pending.value);
        }
      }
    }
  }
}
