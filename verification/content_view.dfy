/** Home-screen helpers: the task list's height, the time-of-day greeting, and
    the optimistic delete with its undo. Heights are whole points. */
module ContentView {
  import opened Wrappers
  import Strings
  import opened TaskLists

  /** Height one card adds: a 90-point card and 10 points of spacing, plus, when
      it is expanded and has reminders, a divider, 78 points per reminder and
      16 points of padding. */
  function CardHeight(t: Task, expanded: set<string>): int {
    100 + (if t.id in expanded && |t.reminders| > 0 then 17 + 78 * |t.reminders| else 0)
  }

  /** The height of the cards, card by card. */
  function ListHeight(ts: seq<Task>, expanded: set<string>): int
    decreases |ts|
  {
    if |ts| == 0 then 0 else ListHeight(ts[..|ts| - 1], expanded) + CardHeight(ts[|ts| - 1], expanded)
  }

  /** `calculateTaskListHeight`, accumulating in the order the view adds its parts. */
  method CalculateTaskListHeight(ts: seq<Task>, expanded: set<string>) returns (h: int)
    ensures h == ListHeight(ts, expanded)
    ensures h >= 100 * |ts|
    ensures |ts| == 0 ==> h == 0
  {
    h := 0;
    var i := 0;
    while i < |ts|
      invariant 0 <= i <= |ts|
      invariant h == ListHeight(ts[..i], expanded)
      invariant h >= 100 * i
    {
      var t := ts[i];
      h := h + 90;
      if t.id in expanded && |t.reminders| > 0 {
        h := h + 1;
        h := h + |t.reminders| * 78;
        h := h + 16;
      }
      h := h + 10;
      assert ts[..i + 1][..i] == ts[..i];
      i := i + 1;
    }
    assert ts[..i] == ts;
  }

  /** Adding a card never lowers the height: it adds at least 100 points. */
  lemma {:induction false} AppendRaisesHeight(ts: seq<Task>, t: Task, expanded: set<string>)
    ensures ListHeight(ts + [t], expanded) >= ListHeight(ts, expanded) + 100
  {
    assert (ts + [t])[..|ts|] == ts;
  }

  /** Expanding a card never lowers the height. */
  lemma {:induction false} ExpandRaisesHeight(ts: seq<Task>, expanded: set<string>, id: string)
    ensures ListHeight(ts, expanded + {id}) >= ListHeight(ts, expanded)
    decreases |ts|
  {
    if |ts| > 0 {
      ExpandRaisesHeight(ts[..|ts| - 1], expanded, id);
    }
  }

  /** Every card counts at least 100 points. */
  lemma {:induction false} HeightAtLeastCards(ts: seq<Task>, expanded: set<string>)
    ensures ListHeight(ts, expanded) >= 100 * |ts|
    ensures (forall i :: 0 <= i < |ts| ==> ts[i].id !in expanded) ==> ListHeight(ts, expanded) == 100 * |ts|
    decreases |ts|
  {
    if |ts| > 0 {
      var pre := ts[..|ts| - 1];
      assert forall i :: 0 <= i < |pre| ==> pre[i] == ts[i];
      HeightAtLeastCards(pre, expanded);
    }
  }

  // ---------------------------------------------------------------------------
  // Greeting

  /** The name in the greeting: the first space-separated word of the display
      name, or "there" without one. */
  function GreetingName(displayName: Option<string>): (r: string)
    ensures displayName.None? ==> r == "there"
    ensures displayName.Some? ==> Strings.StartsWith(displayName.value, r) && ' ' !in r
    ensures displayName.Some? && |r| < |displayName.value| ==> displayName.value[|r|] == ' '
    ensures displayName.Some? && ' ' !in displayName.value ==> r == displayName.value
  {
    match displayName
    case None => "there"
    case Some(n) =>
      Strings.FirstComponentShape(n, ' ');
      Strings.FirstComponent(n, ' ')
  }

  /** The words before the name, by hour of the day. */
  function Opening(hour: int): string {
    if 5 <= hour < 12 then "Good morning, "
    else if 12 <= hour < 17 then "Good afternoon, "
    else if 17 <= hour < 21 then "Good evening, "
    else "Still up, "
  }

  /** What follows the name, by hour of the day. */
  function Closing(hour: int): string {
    if 5 <= hour < 12 then " ☀️"
    else if 12 <= hour < 17 then " 👋"
    else if 17 <= hour < 21 then " 🌆"
    else "? 🌙"
  }

  /** `timeBasedGreeting` for an hour of the day: the opening, then the name,
      then the closing emoji. */
  function Greeting(hour: int, displayName: Option<string>): (r: string)
    ensures Strings.StartsWith(r, "Good morning, ") <==> 5 <= hour < 12
    ensures Strings.StartsWith(r, "Good afternoon, ") <==> 12 <= hour < 17
    ensures Strings.StartsWith(r, "Good evening, ") <==> 17 <= hour < 21
    ensures Strings.StartsWith(r, "Still up, ") <==> hour < 5 || hour >= 21
    ensures |r| == |Opening(hour)| + |GreetingName(displayName)| + |Closing(hour)|
    ensures r[|Opening(hour)|..|Opening(hour)| + |GreetingName(displayName)|] == GreetingName(displayName)
    ensures Strings.EndsWith(r, Closing(hour))
  {
    var name := GreetingName(displayName);
    var r := Opening(hour) + (name + Closing(hour));
    OpeningsDiffer(hour, name + Closing(hour));
    assert r[|Opening(hour)|..][..|name|] == name;
    Strings.EndsWithConcat(Opening(hour) + name, Closing(hour));
    assert r == Opening(hour) + name + Closing(hour);
    r
  }

  /** The four openings differ in their first or sixth character, so the
      opening of a greeting tells the hour's range. */
  lemma OpeningsDiffer(hour: int, rest: string)
    ensures var r := Opening(hour) + rest;
      && (Strings.StartsWith(r, "Good morning, ") <==> 5 <= hour < 12)
      && (Strings.StartsWith(r, "Good afternoon, ") <==> 12 <= hour < 17)
      && (Strings.StartsWith(r, "Good evening, ") <==> 17 <= hour < 21)
      && (Strings.StartsWith(r, "Still up, ") <==> hour < 5 || hour >= 21)
  {
    var o := Opening(hour);
    var r := o + rest;
    assert r[..|o|] == o;
    assert r[0] == o[0] && r[5] == o[5];
    assert Strings.StartsWith(r, "Good morning, ") ==> r[5] == 'm';
    assert Strings.StartsWith(r, "Good afternoon, ") ==> r[5] == 'a';
    assert Strings.StartsWith(r, "Good evening, ") ==> r[5] == 'e';
    assert Strings.StartsWith(r, "Still up, ") ==> r[0] == 'S';
  }

  /** The greeting's name is read back from the display name: it is its first
      word, up to the first space. */
  lemma GreetingNameFirstWord(first: string, rest: string)
    requires ' ' !in first
    ensures GreetingName(Some(first + " " + rest)) == first
    ensures GreetingName(Some(first)) == first
  {
    Strings.FirstComponentUpTo(first, ' ', rest);
    assert first + " " + rest == first + [' '] + rest;
  }

  // ---------------------------------------------------------------------------
  // Delete with undo

  /** What the screen holds while the undo toast shows. */
  datatype Screen = Screen(lists: TaskLists, deletedTask: Option<Task>)

  /** `handleTaskDeletion`: the task leaves every list at once and is kept for
      undo; the lists otherwise keep their tasks, multiplicities and order. */
  function HandleTaskDeletion(s: Screen, t: Task): (r: Screen)
    ensures r.deletedTask == Some(t)
    ensures r.lists.tasks == RemoveId(s.lists.tasks, t.id)
      && r.lists.completed == RemoveId(s.lists.completed, t.id)
      && r.lists.overdue == RemoveId(s.lists.overdue, t.id)
    ensures forall x :: multiset(r.lists.tasks)[x] == if x.id == t.id then 0 else multiset(s.lists.tasks)[x]
    ensures forall x :: multiset(r.lists.completed)[x] == if x.id == t.id then 0 else multiset(s.lists.completed)[x]
    ensures forall x :: multiset(r.lists.overdue)[x] == if x.id == t.id then 0 else multiset(s.lists.overdue)[x]
  {
    Screen(DeleteTask(s.lists, t.id), Some(t))
  }

  /** `undoDelete`: the kept task goes back to the end of the list its flag and
      due date call for. */
  function UndoDelete(s: Screen, formats: seq<Format>, now: int): (r: Screen)
    ensures r.deletedTask.None?
    ensures s.deletedTask.None? ==> r.lists == s.lists
    ensures s.deletedTask.Some? ==>
      var t := s.deletedTask.value;
      if t.isCompleted then r.lists == s.lists.(completed := s.lists.completed + [t])
      else if IsTaskOverdue(t, formats, now) then r.lists == s.lists.(overdue := s.lists.overdue + [t])
      else r.lists == s.lists.(tasks := s.lists.tasks + [t])
  {
    match s.deletedTask
    case None => Screen(s.lists, None)
    case Some(t) =>
      var l := s.lists;
      if t.isCompleted then Screen(l.(completed := l.completed + [t]), None)
      else if IsTaskOverdue(t, formats, now) then Screen(l.(overdue := l.overdue + [t]), None)
      else Screen(l.(tasks := l.tasks + [t]), None)
  }

  /** Undo returns the task to the list it belongs in, keeping the lists well sorted. */
  lemma UndoKeepsSorted(s: Screen, t: Task, formats: seq<Format>, now: int)
    requires WellSorted(s.lists, formats, now)
    ensures WellSorted(UndoDelete(HandleTaskDeletion(s, t), formats, now).lists, formats, now)
  {
  }

  /** Delete then undo: every other task is where it was, and the deleted one
      is back in the list it belongs in. */
  lemma UndoRestores(s: Screen, t: Task, formats: seq<Format>, now: int)
    requires WellSorted(s.lists, formats, now)
    ensures var r := UndoDelete(HandleTaskDeletion(s, t), formats, now).lists;
      && (forall x: Task :: x.id != t.id ==> (x in r.tasks <==> x in s.lists.tasks))
      && (forall x: Task :: x.id != t.id ==> (x in r.completed <==> x in s.lists.completed))
      && (forall x: Task :: x.id != t.id ==> (x in r.overdue <==> x in s.lists.overdue))
      && (t.isCompleted ==> t in r.completed)
      && (IsTaskOverdue(t, formats, now) ==> t in r.overdue)
      && (!t.isCompleted && !IsTaskOverdue(t, formats, now) ==> t in r.tasks)
  {
    var d := HandleTaskDeletion(s, t);
    RestoredList(s.lists.tasks, d.lists.tasks, t);
    RestoredList(s.lists.completed, d.lists.completed, t);
    RestoredList(s.lists.overdue, d.lists.overdue, t);
  }

  /** One list after the deletion, with or without the task put back: every
      other task is in it exactly when it was before. */
  lemma RestoredList(before: seq<Task>, kept: seq<Task>, t: Task)
    requires kept == RemoveId(before, t.id)
    ensures forall x: Task :: x.id != t.id ==> (x in kept <==> x in before)
    ensures forall x: Task :: x.id != t.id ==> (x in kept + [t] <==> x in before)
    ensures t in kept + [t]
  {
  }
}
