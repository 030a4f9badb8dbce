/** The calendar view of one project: its task list, the buckets of tasks per
    deadline day, what one day cell shows, and the Monday-to-Sunday grid of
    days around a month. Days are integers counted from 1970-01-01. */
module Calendar {
  import opened Wrappers
  import opened Text
  import opened Sequences
  import opened Entities

  /** The day key of a deadline: the deadline itself when it has 10 characters,
      otherwise `deadline.slice(0, 10)`, which is the whole string when it is
      shorter. */
  function BucketKey(deadline: string): (k: string)
    ensures |k| == if |deadline| < 10 then |deadline| else 10
    ensures k == deadline[..|k|]
  {
    if |deadline| == 10 then deadline
    else if |deadline| < 10 then deadline
    else deadline[..10]
  }

  /** True when a task has a (non-empty) deadline whose day key is `k`. */
  predicate InBucket(t: Task, k: string) {
    Present(t.deadline) && BucketKey(t.deadline.value) == k
  }

  /** The tasks filed under day key `k`, in list order. */
  function Bucket(tasks: seq<Task>, k: string): seq<Task> {
    Filter(tasks, FiledUnder(k))
  }

  /** The test a bucket applies to each task. */
  function FiledUnder(k: string): Task -> bool {
    (t: Task) => InBucket(t, k)
  }

  /** Filing one more task extends only the bucket of its key. */
  lemma BucketStep(prefix: seq<Task>, t: Task, k: string)
    ensures Bucket(prefix + [t], k) == Bucket(prefix, k) + (if InBucket(t, k) then [t] else [])
  {
    FilterSnoc(prefix, t, FiledUnder(k));
  }

  /** A task with a deadline is filed under exactly one key, the key of its
      deadline; a task without one, or with an empty one, is filed nowhere. */
  lemma FiledUnderOneKey(tasks: seq<Task>, t: Task, k: string)
    requires t in tasks
    ensures t in Bucket(tasks, k) <==> Present(t.deadline) && k == BucketKey(t.deadline.value)
    ensures !Present(t.deadline) ==> t !in Bucket(tasks, k)
  {
    FilterMembers(tasks, FiledUnder(k));
  }

  /** What one day cell shows: the first four tasks of its bucket, and the
      count for the "+N más" label when there are more. */
  datatype Cell = Cell(shown: seq<Task>, more: Option<nat>)

  /** The most tasks one day cell lists. */
  const CellCapacity: nat := 4

  /** `dayTasks.slice(0, 4)` and `dayTasks.length > 4 && dayTasks.length - 4`. */
  function DayCell(dayTasks: seq<Task>): (c: Cell)
    ensures |c.shown| <= CellCapacity && |c.shown| <= |dayTasks| && c.shown == dayTasks[..|c.shown|]
    ensures |c.shown| == if |dayTasks| < CellCapacity then |dayTasks| else CellCapacity
    ensures c.more.Some? <==> |dayTasks| > CellCapacity
    ensures c.more.Some? ==> c.more.value == |dayTasks| - CellCapacity
    ensures c.more.Some? ==> c.more.value > 0
    ensures |c.shown| + (if c.more.Some? then c.more.value else 0) == |dayTasks|
  {
    var shown := if |dayTasks| <= CellCapacity then dayTasks else dayTasks[..CellCapacity];
    Cell(shown, if |dayTasks| > CellCapacity then Some(|dayTasks| - CellCapacity) else None)
  }

  /** The cell of a day: `tasksByDate[key] || []`. */
  function CellFor(byDate: map<string, seq<Task>>, key: string): Cell {
    DayCell(if key in byDate then byDate[key] else [])
  }

  /** `getDay()` of a day number: 0 is Sunday, 1 Monday, ..., 6 Saturday;
      1970-01-01 was a Thursday. */
  function DayOfWeek(day: int): (w: int)
    ensures 0 <= w < 7
  {
    (day + 4) % 7
  }

  /** `(getDay() + 6) % 7`: how many days a day lies after the Monday of its week. */
  function DaysSinceMonday(day: int): (n: int)
    ensures 0 <= n < 7
  {
    (DayOfWeek(day) + 6) % 7
  }

  /** The first day of the grid: the Monday on or before the 1st. */
  function GridStart(first: int): int {
    first - DaysSinceMonday(first)
  }

  /** The last day of the grid: the Sunday on or after the month's last day. */
  function GridEnd(last: int): int {
    last + (6 - DaysSinceMonday(last))
  }

  /** Stepping back to the Monday of the week lands on a Monday. */
  lemma GridStartIsMonday(first: int)
    ensures DayOfWeek(GridStart(first)) == 1
    ensures first - 7 < GridStart(first) <= first
  {
    var q := (first + 4) / 7;
    var a := (first + 4) % 7;
    assert first + 4 == 7 * q + a;
    if a == 0 {
      assert GridStart(first) + 4 == 7 * (q - 1) + 1;
    } else {
      assert GridStart(first) + 4 == 7 * q + 1;
    }
  }

  /** Stepping forward to the Sunday of the week lands on a Sunday. */
  lemma GridEndIsSunday(last: int)
    ensures DayOfWeek(GridEnd(last)) == 0
    ensures last <= GridEnd(last) < last + 7
  {
    var q := (last + 4) / 7;
    var b := (last + 4) % 7;
    assert last + 4 == 7 * q + b;
    if b == 0 {
      assert GridEnd(last) + 4 == 7 * q;
    } else {
      assert GridEnd(last) + 4 == 7 * (q + 1);
    }
  }

  /** The `days` loop: every day from the Monday before the 1st to the Sunday
      after the last day, one after another. The grid covers the whole month,
      starts on a Monday, ends on a Sunday, and so has four to six full weeks. */
  method GridDays(first: int, monthLength: nat) returns (days: seq<int>)
    requires 28 <= monthLength <= 31
    ensures forall i :: 0 <= i < |days| ==> days[i] == GridStart(first) + i
    ensures |days| % 7 == 0 && 28 <= |days| <= 42
    ensures DayOfWeek(days[0]) == 1 && DayOfWeek(days[|days| - 1]) == 0
    ensures forall d :: first <= d < first + monthLength ==> d in days
    ensures first - days[0] < 7 && days[|days| - 1] - (first + monthLength - 1) < 7
  {
    var last := first + monthLength - 1;
    var start := GridStart(first);
    var end := GridEnd(last);
    GridStartIsMonday(first);
    GridEndIsSunday(last);
    days := [];
    var d := start;
    while d <= end
      invariant start <= d <= end + 1
      invariant |days| == d - start
      invariant forall i :: 0 <= i < |days| ==> days[i] == start + i
    {
      days := days + [d];
      d := d + 1;
    }
    var q1, q2 := (start + 4) / 7, (end + 4) / 7;
    assert start + 4 == 7 * q1 + 1;
    assert end + 4 == 7 * q2;
    assert |days| == 7 * (q2 - q1);
    forall x | first <= x < first + monthLength ensures x in days {
      assert days[x - start] == x;
    }
  }

  /** `byDate` files exactly the tasks of `filed`: one key per non-empty bucket,
      holding that bucket. */
  ghost predicate Files(byDate: map<string, seq<Task>>, filed: seq<Task>) {
    forall k :: (k in byDate <==> Bucket(filed, k) != []) && (k in byDate ==> byDate[k] == Bucket(filed, k))
  }

  /** The map after the loop body has filed `t`. */
  function FileOne(byDate: map<string, seq<Task>>, t: Task): map<string, seq<Task>> {
    if Present(t.deadline) then
      var key := BucketKey(t.deadline.value);
      byDate[key := (if key in byDate then byDate[key] else []) + [t]]
    else byDate
  }

  /** Filing one more task keeps the map in step with the list. */
  lemma FileStep(byDate: map<string, seq<Task>>, filed: seq<Task>, t: Task)
    requires Files(byDate, filed)
    ensures Files(FileOne(byDate, t), filed + [t])
  {
    var after := FileOne(byDate, t);
    forall k
      ensures k in after <==> Bucket(filed + [t], k) != []
      ensures k in after ==> after[k] == Bucket(filed + [t], k)
    {
      BucketStep(filed, t, k);
    }
  }

  /** The cell drawn for a day from the map the loop builds lists the first
      four tasks filed under that day, in list order, and counts the rest. */
  lemma CellShowsBucket(byDate: map<string, seq<Task>>, tasks: seq<Task>, key: string)
    requires Files(byDate, tasks)
    ensures CellFor(byDate, key) == DayCell(Bucket(tasks, key))
    ensures |CellFor(byDate, key).shown| == if |Bucket(tasks, key)| < CellCapacity then |Bucket(tasks, key)| else CellCapacity
  {
    assert (key in byDate <==> Bucket(tasks, key) != []) && (key in byDate ==> byDate[key] == Bucket(tasks, key));
  }

  /** The calendar component's task list. */
  class CalendarView {
    var tasks: seq<Task>

    /** The calendar starts with no tasks. */
    constructor ()
      ensures tasks == []
    {
      tasks := [];
    }

    /** The load on a project change: no project empties the list; otherwise the
        list becomes the returned rows, and a failed query (no data) empties it
        too. */
    method Load(projectId: Option<string>, reply: Reply<seq<Task>>)
      modifies this
      ensures !Present(projectId) ==> tasks == []
      ensures Present(projectId) ==> tasks == (if reply.Ok? then reply.value else [])
    {
      if !Present(projectId) {
        tasks := [];
        return;
      }
      tasks := if reply.Ok? then reply.value else [];
    }

    /** `tasksByDate`: one pass over the list filing every task with a deadline
        under its day key. A key is present exactly when some task is filed
        under it, and it holds those tasks in list order. */
    method TasksByDate() returns (byDate: map<string, seq<Task>>)
      ensures forall k :: k in byDate <==> Bucket(tasks, k) != []
      ensures forall k :: k in byDate ==> byDate[k] == Bucket(tasks, k)
    {
      byDate := map[];
      for i := 0 to |tasks|
        invariant Files(byDate, tasks[..i])
      {
        var t := tasks[i];
        ghost var before := byDate;
        if Present(t.deadline) {
          var key := BucketKey(t.deadline.value);
          var bucket := if key in byDate then byDate[key] else [];
          byDate := byDate[key := bucket + [t]];
        }
        FileStep(before, tasks[..i], t);
        assert tasks[..i + 1] == tasks[..i] + [t];
      }
      assert tasks[..|tasks|] == tasks;
    }
  }
}
