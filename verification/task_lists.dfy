/** The client's task bookkeeping: converting fetched task models, splitting
    them into completed, overdue and active lists, and the list updates that
    follow a delete or a completion toggle. Date strings are parsed by an
    oracle giving a timestamp, and "now" is a parameter. */
module TaskLists {
  import opened Wrappers
  import Strings

  datatype Suggestion = Suggestion(kind: string, title: string, description: string, reasoning: Option<string>)

  /** A reminder as the server sends it. */
  datatype ReminderModel = ReminderModel(
    id: string, taskId: Option<string>, reminderTime: string, message: string,
    sent: Option<bool>, createdAt: Option<string>)

  /** A task as the server sends it (fields the client ignores are left out). */
  datatype TaskModel = TaskModel(
    id: string, title: string, description: string, userId: string,
    status: string, priority: string, category: Option<string>, dueDate: Option<string>,
    reminders: Option<seq<ReminderModel>>, suggestions: Option<seq<Suggestion>>)

  datatype TaskReminder = TaskReminder(id: string, reminderTime: string, message: string, sent: bool)

  datatype Task = Task(
    id: string, title: string, time: string, category: string,
    notificationCount: int, isCompleted: bool, description: string, priority: string,
    dueDate: Option<string>, reminders: seq<TaskReminder>, suggestions: seq<Suggestion>)

  const DefaultCategory: string := "General"

  /** `filter`: the elements that pass the test, in their original order.
      `removeAll(where:)` is `Keep` with the test negated. */
  function Keep<T(==,!new)>(xs: seq<T>, p: T -> bool): (r: seq<T>)
    ensures |r| <= |xs|
    ensures forall x :: x in r <==> x in xs && p(x)
    decreases |xs|
  {
    if |xs| == 0 then []
    else
      assert forall x :: x in xs <==> x == xs[0] || x in xs[1..];
      (if p(xs[0]) then [xs[0]] else []) + Keep(xs[1..], p)
  }

  /** Filtering keeps the multiplicity of every element that passes and drops
      every element that fails. */
  lemma {:induction false} KeepMultiset<T(!new)>(xs: seq<T>, p: T -> bool)
    ensures forall x :: multiset(Keep(xs, p))[x] == if p(x) then multiset(xs)[x] else 0
    decreases |xs|
  {
    if |xs| > 0 {
      KeepMultiset(xs[1..], p);
      assert xs == [xs[0]] + xs[1..];
    }
  }

  /** Nothing is dropped exactly when every element passes, and nothing is kept
      exactly when every element fails. */
  lemma {:induction false} KeepLength<T(!new)>(xs: seq<T>, p: T -> bool)
    ensures |Keep(xs, p)| == |xs| <==> forall i :: 0 <= i < |xs| ==> p(xs[i])
    ensures |Keep(xs, p)| == 0 <==> forall i :: 0 <= i < |xs| ==> !p(xs[i])
    ensures (forall i :: 0 <= i < |xs| ==> p(xs[i])) ==> Keep(xs, p) == xs
    decreases |xs|
  {
    if |xs| > 0 {
      KeepLength(xs[1..], p);
      assert forall i :: 1 <= i < |xs| ==> xs[i] == xs[1..][i - 1];
      assert xs == [xs[0]] + xs[1..];
    }
  }

  /** Filtering a concatenation filters each part: the kept elements stay in
      their original order. */
  lemma {:induction false} KeepAppend<T(!new)>(a: seq<T>, b: seq<T>, p: T -> bool)
    ensures Keep(a + b, p) == Keep(a, p) + Keep(b, p)
    decreases |a|
  {
    if |a| > 0 {
      assert (a + b)[0] == a[0];
      assert (a + b)[1..] == a[1..] + b;
      KeepAppend(a[1..], b, p);
    } else {
      assert a + b == b;
    }
  }

  /** A one-element list is kept whole or dropped. */
  lemma KeepSingleton<T(!new)>(x: T, p: T -> bool)
    ensures Keep([x], p) == if p(x) then [x] else []
  {
    assert [x][1..] == [];
  }

  /** `reminders?.map { ... }` for one reminder: a missing `sent` reads as false. */
  function ConvertReminder(r: ReminderModel): (t: TaskReminder)
    ensures t.id == r.id && t.reminderTime == r.reminderTime && t.message == r.message
    ensures t.sent <==> r.sent == Some(true)
  {
    TaskReminder(r.id, r.reminderTime, r.message, r.sent.GetOr(false))
  }

  function ConvertReminders(rs: seq<ReminderModel>): (r: seq<TaskReminder>)
    ensures |r| == |rs|
    ensures forall i :: 0 <= i < |rs| ==> r[i] == ConvertReminder(rs[i])
    ensures forall i :: 0 <= i < |rs| ==>
      r[i].id == rs[i].id && (r[i].sent <==> rs[i].sent == Some(true))
  {
    if |rs| == 0 then [] else [ConvertReminder(rs[0])] + ConvertReminders(rs[1..])
  }

  /** `reminders.filter { !$0.sent }.count`. */
  function UnsentCount(rs: seq<TaskReminder>): (n: nat)
    ensures n <= |rs|
    ensures n == 0 <==> forall i :: 0 <= i < |rs| ==> rs[i].sent
    ensures n == |rs| <==> forall i :: 0 <= i < |rs| ==> !rs[i].sent
  {
    KeepLength(rs, (x: TaskReminder) => !x.sent);
    |Keep(rs, (x: TaskReminder) => !x.sent)|
  }

  /** The unsent count adds up over the parts of a list, one per unsent reminder. */
  lemma UnsentCountAppend(a: seq<TaskReminder>, b: seq<TaskReminder>)
    ensures UnsentCount(a + b) == UnsentCount(a) + UnsentCount(b)
    ensures |a| == 1 ==> UnsentCount(a) == if a[0].sent then 0 else 1
  {
    KeepAppend(a, b, (x: TaskReminder) => !x.sent);
    if |a| == 1 {
      assert a == [a[0]];
      KeepSingleton(a[0], (x: TaskReminder) => !x.sent);
    }
  }

  /** `Task.from`; `extractTime` stands for the time-of-day formatting of a
      parseable due date. */
  function FromModel(m: TaskModel, extractTime: string -> Option<string>): (t: Task)
    ensures t.id == m.id && t.title == m.title && t.description == m.description
      && t.priority == m.priority && t.dueDate == m.dueDate
    ensures t.isCompleted <==> Strings.Lower(m.status) == "completed"
    ensures t.category == if m.category.Some? then m.category.value else DefaultCategory
    ensures m.reminders.None? ==> t.reminders == []
    ensures m.reminders.Some? ==>
      (|t.reminders| == |m.reminders.value|
       && forall i :: 0 <= i < |t.reminders| ==>
            t.reminders[i].id == m.reminders.value[i].id
            && (t.reminders[i].sent <==> m.reminders.value[i].sent == Some(true)))
    ensures t.notificationCount == UnsentCount(t.reminders)
    ensures t.suggestions == if m.suggestions.Some? then m.suggestions.value else []
    ensures m.dueDate.None? ==> t.time == ""
    ensures m.dueDate.Some? ==> t.time == extractTime(m.dueDate.value).GetOr("")
    ensures m.reminders.Some? ==> t.reminders == ConvertReminders(m.reminders.value)
  {
    var time :=
      match m.dueDate
      case None => ""
      case Some(d) => extractTime(d).GetOr("");
    var reminders := if m.reminders.Some? then ConvertReminders(m.reminders.value) else [];
    Task(m.id, m.title, time, m.category.GetOr(DefaultCategory), UnsentCount(reminders),
         Strings.Lower(m.status) == "completed", m.description, m.priority, m.dueDate,
         reminders, m.suggestions.GetOr([]))
  }

  /** A date-string reader: one `DateFormatter` with a fixed format, giving a
      timestamp or nothing. */
  type Format = string -> Option<int>

  /** The loop over the formatters in `isTaskOverdue`: the date read by the
      first format that accepts the string. */
  function FirstParse(formats: seq<Format>, s: string): (r: Option<int>)
    ensures r.None? <==> forall i :: 0 <= i < |formats| ==> formats[i](s).None?
    ensures r.Some? ==> exists i :: 0 <= i < |formats| && formats[i](s) == r
                                   && forall j :: 0 <= j < i ==> formats[j](s).None?
    decreases |formats|
  {
    if |formats| == 0 then None
    else if formats[0](s).Some? then formats[0](s)
    else
      var r := FirstParse(formats[1..], s);
      assert forall i :: 1 <= i < |formats| ==> formats[i] == formats[1..][i - 1];
      r
  }

  /** `isTaskOverdue`: the due date, read by the first format that accepts it,
      lies before now, and the task is open. */
  function IsTaskOverdue(t: Task, formats: seq<Format>, now: int): (r: bool)
    ensures r ==> t.dueDate.Some? && FirstParse(formats, t.dueDate.value).Some?
                  && FirstParse(formats, t.dueDate.value).value < now && !t.isCompleted
    ensures t.isCompleted || t.dueDate.None? ==> !r
    ensures t.dueDate.Some? && (forall i :: 0 <= i < |formats| ==> formats[i](t.dueDate.value).None?) ==> !r
  {
    match t.dueDate
    case None => false
    case Some(d) =>
      match FirstParse(formats, d)
      case None => false
      case Some(due) => due < now && !t.isCompleted
  }

  /** The three lists the view model publishes. */
  datatype TaskLists = TaskLists(tasks: seq<Task>, completed: seq<Task>, overdue: seq<Task>)

  /** Every task sits in the list its flag and due date call for. */
  ghost predicate WellSorted(l: TaskLists, formats: seq<Format>, now: int) {
    && (forall t :: t in l.completed ==> t.isCompleted)
    && (forall t :: t in l.overdue ==> IsTaskOverdue(t, formats, now))
    && (forall t :: t in l.tasks ==> !t.isCompleted && !IsTaskOverdue(t, formats, now))
  }

  /** The split of the fetched tasks in `fetchTasks`: three filters, so each
      list keeps the fetched order. */
  function Partition(all: seq<Task>, formats: seq<Format>, now: int): (l: TaskLists)
    ensures multiset(l.tasks) + multiset(l.completed) + multiset(l.overdue) == multiset(all)
    ensures WellSorted(l, formats, now)
  {
    var incomplete := Keep(all, (t: Task) => !t.isCompleted);
    SplitThree(all, (t: Task) => t.isCompleted, (t: Task) => !t.isCompleted,
               (t: Task) => IsTaskOverdue(t, formats, now), (t: Task) => !IsTaskOverdue(t, formats, now));
    TaskLists(Keep(incomplete, (t: Task) => !IsTaskOverdue(t, formats, now)),
              Keep(all, (t: Task) => t.isCompleted),
              Keep(incomplete, (t: Task) => IsTaskOverdue(t, formats, now)))
  }

  /** Two nested filters with complementary tests split a list into three
      parts that together hold each element exactly as often as the list. */
  lemma SplitThree<T(!new)>(xs: seq<T>, c: T -> bool, nc: T -> bool, o: T -> bool, no: T -> bool)
    requires forall x :: nc(x) == !c(x)
    requires forall x :: no(x) == !o(x)
    ensures multiset(Keep(Keep(xs, nc), no)) + multiset(Keep(xs, c)) + multiset(Keep(Keep(xs, nc), o)) == multiset(xs)
  {
    KeepMultiset(xs, nc);
    KeepMultiset(xs, c);
    KeepMultiset(Keep(xs, nc), no);
    KeepMultiset(Keep(xs, nc), o);
    assert forall x :: (multiset(Keep(Keep(xs, nc), no)) + multiset(Keep(xs, c)) + multiset(Keep(Keep(xs, nc), o)))[x]
                       == multiset(xs)[x];
  }

  /** The split of a concatenation is the concatenation of the splits: each
      list keeps the fetched order. */
  lemma PartitionAppend(a: seq<Task>, b: seq<Task>, formats: seq<Format>, now: int)
    ensures var pa, pb := Partition(a, formats, now), Partition(b, formats, now);
      Partition(a + b, formats, now) ==
        TaskLists(pa.tasks + pb.tasks, pa.completed + pb.completed, pa.overdue + pb.overdue)
  {
    var ia := Keep(a, (t: Task) => !t.isCompleted);
    var ib := Keep(b, (t: Task) => !t.isCompleted);
    KeepAppend(a, b, (t: Task) => !t.isCompleted);
    KeepAppend(a, b, (t: Task) => t.isCompleted);
    KeepAppend(ia, ib, (t: Task) => !IsTaskOverdue(t, formats, now));
    KeepAppend(ia, ib, (t: Task) => IsTaskOverdue(t, formats, now));
  }

  /** A single task lands in exactly the list its flag and due date call for. */
  lemma PartitionSingleton(t: Task, formats: seq<Format>, now: int)
    ensures Partition([t], formats, now) ==
      if t.isCompleted then TaskLists([], [t], [])
      else if IsTaskOverdue(t, formats, now) then TaskLists([], [], [t])
      else TaskLists([t], [], [])
  {
    KeepSingleton(t, (t: Task) => !t.isCompleted);
    KeepSingleton(t, (t: Task) => t.isCompleted);
    KeepSingleton(t, (t: Task) => !IsTaskOverdue(t, formats, now));
    KeepSingleton(t, (t: Task) => IsTaskOverdue(t, formats, now));
  }

  /** `dailyProgress`: completed tasks out of all three lists. */
  function DailyProgress(l: TaskLists): (p: (int, int))
    ensures 0 <= p.0 <= p.1
    ensures p.0 == |l.completed|
    ensures p.1 - p.0 == |l.tasks| + |l.overdue|
  {
    (|l.completed|, |l.tasks| + |l.completed| + |l.overdue|)
  }

  /** `removeAll { $0.id == id }`: every copy of a task with the id goes, every
      other task keeps its multiplicity and its order. */
  function RemoveId(ts: seq<Task>, id: string): (r: seq<Task>)
    ensures forall t :: multiset(r)[t] == if t.id == id then 0 else multiset(ts)[t]
    ensures forall t :: t in r <==> t in ts && t.id != id
    ensures |r| <= |ts|
    ensures (forall i :: 0 <= i < |ts| ==> ts[i].id != id) ==> r == ts
  {
    KeepMultiset(ts, (t: Task) => t.id != id);
    KeepLength(ts, (t: Task) => t.id != id);
    Keep(ts, (t: Task) => t.id != id)
  }

  /** Removal distributes over concatenation, so the remaining tasks keep their
      relative order; a single task stays exactly when its id differs. */
  lemma RemoveIdAppend(a: seq<Task>, b: seq<Task>, id: string)
    ensures RemoveId(a + b, id) == RemoveId(a, id) + RemoveId(b, id)
    ensures |a| == 1 ==> RemoveId(a, id) == if a[0].id == id then [] else a
  {
    KeepAppend(a, b, (t: Task) => t.id != id);
    if |a| == 1 {
      assert a == [a[0]];
      KeepSingleton(a[0], (t: Task) => t.id != id);
    }
  }

  /** `deleteTask` after the server confirms: the id leaves all three lists,
      which otherwise keep their tasks, multiplicities and order. */
  function DeleteTask(l: TaskLists, id: string): (r: TaskLists)
    ensures r.tasks == RemoveId(l.tasks, id) && r.completed == RemoveId(l.completed, id)
      && r.overdue == RemoveId(l.overdue, id)
    ensures forall t :: multiset(r.tasks)[t] == if t.id == id then 0 else multiset(l.tasks)[t]
    ensures forall t :: multiset(r.completed)[t] == if t.id == id then 0 else multiset(l.completed)[t]
    ensures forall t :: multiset(r.overdue)[t] == if t.id == id then 0 else multiset(l.overdue)[t]
  {
    TaskLists(RemoveId(l.tasks, id), RemoveId(l.completed, id), RemoveId(l.overdue, id))
  }

  /** Position of the first task with this id. */
  function FirstIndexOf(ts: seq<Task>, id: string): (r: Option<nat>)
    ensures r.Some? ==>
      (r.value < |ts| && ts[r.value].id == id
       && forall j :: 0 <= j < r.value ==> ts[j].id != id)
    ensures r.None? ==> forall j :: 0 <= j < |ts| ==> ts[j].id != id
  {
    if |ts| == 0 then None
    else if ts[0].id == id then Some(0)
    else match FirstIndexOf(ts[1..], id)
      case None => None
      case Some(k) => Some(k + 1)
  }

  /** `reminders.removeAll { $0.id == id }`. */
  function RemoveReminder(rs: seq<TaskReminder>, id: string): (r: seq<TaskReminder>)
    ensures forall x :: multiset(r)[x] == if x.id == id then 0 else multiset(rs)[x]
    ensures forall x :: x in r <==> x in rs && x.id != id
    ensures |r| <= |rs|
  {
    KeepMultiset(rs, (x: TaskReminder) => x.id != id);
    Keep(rs, (x: TaskReminder) => x.id != id)
  }

  /** Reminder removal distributes over concatenation, keeping the order of the rest. */
  lemma RemoveReminderAppend(a: seq<TaskReminder>, b: seq<TaskReminder>, id: string)
    ensures RemoveReminder(a + b, id) == RemoveReminder(a, id) + RemoveReminder(b, id)
  {
    KeepAppend(a, b, (x: TaskReminder) => x.id != id);
  }

  /** `deleteReminder`: only the first matching task of the active list is
      updated; its count is recomputed from the remaining reminders. */
  function DeleteReminder(l: TaskLists, taskId: string, reminderId: string): (r: TaskLists)
    ensures r.completed == l.completed && r.overdue == l.overdue
    ensures |r.tasks| == |l.tasks|
    ensures FirstIndexOf(l.tasks, taskId).None? ==> r == l
    ensures FirstIndexOf(l.tasks, taskId).Some? ==>
      var k := FirstIndexOf(l.tasks, taskId).value;
      && (forall j :: 0 <= j < |l.tasks| && j != k ==> r.tasks[j] == l.tasks[j])
      && r.tasks[k] == l.tasks[k].(reminders := r.tasks[k].reminders, notificationCount := r.tasks[k].notificationCount)
      && r.tasks[k].reminders == RemoveReminder(l.tasks[k].reminders, reminderId)
      && (forall x :: multiset(r.tasks[k].reminders)[x] ==
                        if x.id == reminderId then 0 else multiset(l.tasks[k].reminders)[x])
      && r.tasks[k].notificationCount == UnsentCount(r.tasks[k].reminders)
  {
    match FirstIndexOf(l.tasks, taskId)
    case None => l
    case Some(k) =>
      var t := l.tasks[k];
      var rs := RemoveReminder(t.reminders, reminderId);
      l.(tasks := l.tasks[k := t.(reminders := rs, notificationCount := UnsentCount(rs))])
  }

  /** `toggleTaskComplete` after the server confirms. A completed task is
      reopened into the overdue or active list; an open one moves to the
      completed list. The flipped task is appended to its new list, and the
      lists it leaves lose every task with its id and nothing else. */
  function ToggleTaskComplete(l: TaskLists, t: Task, formats: seq<Format>, now: int): (r: TaskLists)
    ensures t.isCompleted ==>
      && r.completed == RemoveId(l.completed, t.id)
      && (forall x :: multiset(r.completed)[x] == if x.id == t.id then 0 else multiset(l.completed)[x])
      && var u := t.(isCompleted := false);
         (if IsTaskOverdue(u, formats, now)
          then r.overdue == l.overdue + [u] && r.tasks == l.tasks
          else r.tasks == l.tasks + [u] && r.overdue == l.overdue)
    ensures !t.isCompleted ==>
      && r.tasks == RemoveId(l.tasks, t.id) && r.overdue == RemoveId(l.overdue, t.id)
      && (forall x :: multiset(r.tasks)[x] == if x.id == t.id then 0 else multiset(l.tasks)[x])
      && (forall x :: multiset(r.overdue)[x] == if x.id == t.id then 0 else multiset(l.overdue)[x])
      && r.completed == l.completed + [t.(isCompleted := true)]
  {
    if t.isCompleted then
      var u := t.(isCompleted := false);
      var completed := RemoveId(l.completed, t.id);
      if IsTaskOverdue(u, formats, now) then TaskLists(l.tasks, completed, l.overdue + [u])
      else TaskLists(l.tasks + [u], completed, l.overdue)
    else
      TaskLists(RemoveId(l.tasks, t.id), l.completed + [t.(isCompleted := true)], RemoveId(l.overdue, t.id))
  }

  // ---------------------------------------------------------------------------
  // Properties

  /** The first format that accepts the due date decides; formats after it are
      never consulted. */
  lemma FirstFormatDecides(t: Task, formats: seq<Format>, k: nat, now: int)
    requires t.dueDate.Some? && k < |formats| && formats[k](t.dueDate.value).Some?
    requires forall j :: 0 <= j < k ==> formats[j](t.dueDate.value).None?
    ensures IsTaskOverdue(t, formats, now) <==> formats[k](t.dueDate.value).value < now && !t.isCompleted
  {
    var d := t.dueDate.value;
    assert FirstParse(formats, d).Some? by {
      assert formats[k](d).Some?;
    }
    var i :| 0 <= i < |formats| && formats[i](d) == FirstParse(formats, d)
             && forall j :: 0 <= j < i ==> formats[j](d).None?;
  }

  /** An overdue task stays overdue as time passes. */
  lemma OverdueStaysOverdue(t: Task, formats: seq<Format>, now: int, later: int)
    requires now <= later && IsTaskOverdue(t, formats, now)
    ensures IsTaskOverdue(t, formats, later)
  {
  }

  /** The three lists of a fetch are disjoint and hold every fetched task. */
  lemma PartitionDisjoint(all: seq<Task>, formats: seq<Format>, now: int)
    ensures var l := Partition(all, formats, now);
      && (forall t :: t in all <==> t in l.tasks || t in l.completed || t in l.overdue)
      && (forall t :: !(t in l.tasks && t in l.completed))
      && (forall t :: !(t in l.tasks && t in l.overdue))
      && (forall t :: !(t in l.completed && t in l.overdue))
  {
    var l := Partition(all, formats, now);
    forall t ensures t in all <==> t in l.tasks || t in l.completed || t in l.overdue {
      assert t in all <==> t in multiset(all);
      assert t in l.tasks <==> t in multiset(l.tasks);
      assert t in l.completed <==> t in multiset(l.completed);
      assert t in l.overdue <==> t in multiset(l.overdue);
    }
  }

  /** After a fetch, the progress total is the number of fetched tasks. */
  lemma ProgressCountsFetched(all: seq<Task>, formats: seq<Format>, now: int)
    ensures DailyProgress(Partition(all, formats, now)).1 == |all|
  {
    var l := Partition(all, formats, now);
    assert |multiset(all)| == |multiset(l.tasks) + multiset(l.completed) + multiset(l.overdue)|;
  }

  /** An open task whose parsed due date lies in `[lo, hi)`: not yet overdue
      at `lo`, already overdue at `hi`. */
  predicate DueBetween(t: Task, formats: seq<Format>, lo: int, hi: int) {
    && !t.isCompleted && t.dueDate.Some?
    && FirstParse(formats, t.dueDate.value).Some?
    && lo <= FirstParse(formats, t.dueDate.value).value < hi
  }

  /** `fetchTasks` as written: `isTaskOverdue` reads the clock on every call,
      so the overdue filter sees one instant (`now1`) and the active filter,
      run after it, another (`now2`). */
  function FetchSplit(all: seq<Task>, formats: seq<Format>, now1: int, now2: int): (l: TaskLists)
    ensures forall t :: t in l.completed <==> t in all && t.isCompleted
    ensures forall t :: t in l.overdue <==> t in all && IsTaskOverdue(t, formats, now1)
    ensures forall t :: t in l.tasks <==> t in all && !t.isCompleted && !IsTaskOverdue(t, formats, now2)
  {
    var incomplete := Keep(all, (t: Task) => !t.isCompleted);
    TaskLists(Keep(incomplete, (t: Task) => !IsTaskOverdue(t, formats, now2)),
              Keep(all, (t: Task) => t.isCompleted),
              Keep(incomplete, (t: Task) => IsTaskOverdue(t, formats, now1)))
  }

  /** Filters with the same test keep the same elements. */
  lemma {:induction false} KeepSame<T(!new)>(xs: seq<T>, p: T -> bool, q: T -> bool)
    requires forall x :: p(x) == q(x)
    ensures Keep(xs, p) == Keep(xs, q)
    decreases |xs|
  {
    if |xs| > 0 {
      KeepSame(xs[1..], p, q);
    }
  }

  /** With a single clock read the two-read split is `Partition`. */
  lemma FetchSplitOneClock(all: seq<Task>, formats: seq<Format>, now: int)
    ensures FetchSplit(all, formats, now, now) == Partition(all, formats, now)
  {
    var incomplete := Keep(all, (t: Task) => !t.isCompleted);
    KeepSame(incomplete, (t: Task) => !IsTaskOverdue(t, formats, now), (t: Task) => !IsTaskOverdue(t, formats, now));
    KeepSame(incomplete, (t: Task) => IsTaskOverdue(t, formats, now), (t: Task) => IsTaskOverdue(t, formats, now));
  }

  /** The two-read split of a concatenation is the concatenation of the splits. */
  lemma FetchSplitAppend(a: seq<Task>, b: seq<Task>, formats: seq<Format>, now1: int, now2: int)
    ensures var pa, pb := FetchSplit(a, formats, now1, now2), FetchSplit(b, formats, now1, now2);
      FetchSplit(a + b, formats, now1, now2) ==
        TaskLists(pa.tasks + pb.tasks, pa.completed + pb.completed, pa.overdue + pb.overdue)
  {
    var ia := Keep(a, (t: Task) => !t.isCompleted);
    var ib := Keep(b, (t: Task) => !t.isCompleted);
    KeepAppend(a, b, (t: Task) => !t.isCompleted);
    KeepAppend(a, b, (t: Task) => t.isCompleted);
    KeepAppend(ia, ib, (t: Task) => !IsTaskOverdue(t, formats, now2));
    KeepAppend(ia, ib, (t: Task) => IsTaskOverdue(t, formats, now1));
  }

  /** With two clock reads a single open task lands in the overdue list by the
      first and in the active list by the second, independently. */
  lemma FetchSplitSingleton(t: Task, formats: seq<Format>, now1: int, now2: int)
    ensures FetchSplit([t], formats, now1, now2) ==
      if t.isCompleted then TaskLists([], [t], [])
      else TaskLists(if IsTaskOverdue(t, formats, now2) then [] else [t],
                     [],
                     if IsTaskOverdue(t, formats, now1) then [t] else [])
  {
    KeepSingleton(t, (t: Task) => !t.isCompleted);
    KeepSingleton(t, (t: Task) => t.isCompleted);
    KeepSingleton(t, (t: Task) => !IsTaskOverdue(t, formats, now2));
    KeepSingleton(t, (t: Task) => IsTaskOverdue(t, formats, now1));
  }

  /** An open task falling due between the two reads is in no list: the
      progress total misses it. */
  lemma FetchSplitDrops(t: Task, formats: seq<Format>, now1: int, now2: int)
    requires DueBetween(t, formats, now1, now2)
    ensures FetchSplit([t], formats, now1, now2) == TaskLists([], [], [])
    ensures DailyProgress(FetchSplit([t], formats, now1, now2)).1 == 0
  {
    FetchSplitSingleton(t, formats, now1, now2);
  }

  /** If the clock steps back between the reads, an open task falling due in
      between is in both the overdue and the active list. */
  lemma FetchSplitDoubles(t: Task, formats: seq<Format>, now1: int, now2: int)
    requires DueBetween(t, formats, now2, now1)
    ensures FetchSplit([t], formats, now1, now2) == TaskLists([t], [], [t])
    ensures DailyProgress(FetchSplit([t], formats, now1, now2)).1 == 2
  {
    FetchSplitSingleton(t, formats, now1, now2);
  }

  /** A task due at 100 fetched with reads at 100 and 101: one clock gives
      it to the active list, two clocks lose it. */
  lemma FetchSplitDropExample()
    ensures var t := Task("t1", "Call", "", DefaultCategory, 0, false, "", "medium",
                          Some("2026-01-01 10:00"), [], []);
            var formats := [(s: string) => Some(100)];
            && FetchSplit([t], formats, 100, 101) == TaskLists([], [], [])
            && Partition([t], formats, 100) == TaskLists([t], [], [])
  {
    var t := Task("t1", "Call", "", DefaultCategory, 0, false, "", "medium",
                  Some("2026-01-01 10:00"), [], []);
    var formats := [(s: string) => Some(100)];
    assert FirstParse(formats, t.dueDate.value) == Some(100);
    FetchSplitDrops(t, formats, 100, 101);
    PartitionSingleton(t, formats, 100);
  }

  /** When the clock does not step back the two-read split keeps the lists
      disjoint, and it holds every fetched task except the open ones falling
      due between the reads. */
  lemma FetchSplitSorted(all: seq<Task>, formats: seq<Format>, now1: int, now2: int)
    requires now1 <= now2
    ensures var l := FetchSplit(all, formats, now1, now2);
      && (forall t :: !(t in l.tasks && t in l.overdue))
      && (forall t :: !(t in l.completed && (t in l.tasks || t in l.overdue)))
      && (forall t :: t in l.overdue ==> IsTaskOverdue(t, formats, now2))
      && (forall t :: t in all ==>
            (t in l.tasks || t in l.completed || t in l.overdue <==> !DueBetween(t, formats, now1, now2)))
  {
    var l := FetchSplit(all, formats, now1, now2);
    forall t | t in l.overdue ensures IsTaskOverdue(t, formats, now2) {
      OverdueStaysOverdue(t, formats, now1, now2);
    }
  }

  /** The progress total after a two-read fetch falls short of the number of
      fetched tasks by exactly the open tasks falling due between the reads. */
  lemma {:induction false} FetchSplitCount(all: seq<Task>, formats: seq<Format>, now1: int, now2: int)
    requires now1 <= now2
    ensures DailyProgress(FetchSplit(all, formats, now1, now2)).1
            == |all| - |Keep(all, (t: Task) => DueBetween(t, formats, now1, now2))|
    decreases |all|
  {
    if |all| > 0 {
      var t, rest := all[0], all[1..];
      assert all == [t] + rest;
      FetchSplitAppend([t], rest, formats, now1, now2);
      FetchSplitSingleton(t, formats, now1, now2);
      KeepAppend([t], rest, (t: Task) => DueBetween(t, formats, now1, now2));
      KeepSingleton(t, (t: Task) => DueBetween(t, formats, now1, now2));
      FetchSplitCount(rest, formats, now1, now2);
      if !t.isCompleted && IsTaskOverdue(t, formats, now1) {
        OverdueStaysOverdue(t, formats, now1, now2);
      }
    }
  }

  /** Deleting a task keeps the lists well sorted. */
  lemma DeleteTaskKeepsSorted(l: TaskLists, id: string, formats: seq<Format>, now: int)
    requires WellSorted(l, formats, now)
    ensures WellSorted(DeleteTask(l, id), formats, now)
  {
  }

  /** Deleting a reminder keeps the lists well sorted: neither the flag nor
      the due date changes. */
  lemma DeleteReminderKeepsSorted(l: TaskLists, taskId: string, reminderId: string, formats: seq<Format>, now: int)
    requires WellSorted(l, formats, now)
    ensures WellSorted(DeleteReminder(l, taskId, reminderId), formats, now)
  {
    var r := DeleteReminder(l, taskId, reminderId);
    if FirstIndexOf(l.tasks, taskId).Some? {
      var k := FirstIndexOf(l.tasks, taskId).value;
      forall t | t in r.tasks ensures !t.isCompleted && !IsTaskOverdue(t, formats, now) {
        var j :| 0 <= j < |r.tasks| && r.tasks[j] == t;
        if j != k {
          assert t == l.tasks[j];
        } else {
          assert l.tasks[k] in l.tasks;
        }
      }
    }
  }

  /** Toggling keeps the lists well sorted. */
  lemma ToggleKeepsSorted(l: TaskLists, t: Task, formats: seq<Format>, now: int)
    requires WellSorted(l, formats, now)
    ensures WellSorted(ToggleTaskComplete(l, t, formats, now), formats, now)
  {
  }

  /** After completing a task no open list still holds its id. */
  lemma CompletedLeavesOpenLists(l: TaskLists, t: Task, formats: seq<Format>, now: int)
    requires !t.isCompleted
    ensures var r := ToggleTaskComplete(l, t, formats, now);
      (forall x :: x in r.tasks ==> x.id != t.id) && (forall x :: x in r.overdue ==> x.id != t.id)
      && t.(isCompleted := true) in r.completed
  {
  }
}
