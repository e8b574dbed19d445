/** Month grids and the month view's bookkeeping: the week-row layout shared
    by the calendar screen and the home-screen widget, month navigation, the
    weekday shown for the selected day, and the per-day task density. */
module CalendarGrid {
  import opened Wrappers
  import TaskLists
  import SwiftArith

  /** A grid cell: a day of the month or a blank. */
  type Cell = Option<int>

  /** `n` blank cells. */
  function Blanks(n: nat): (r: seq<Cell>)
    ensures |r| == n && forall i :: 0 <= i < n ==> r[i] == None
  {
    seq(n, i => None)
  }

  /** The cells for days 1..n, in order. */
  function Days(n: nat): (r: seq<Cell>)
    ensures |r| == n && forall i :: 0 <= i < n ==> r[i] == Some(i + 1)
  {
    seq(n, i => Some(i + 1))
  }

  /** The rows laid end to end. */
  function Flatten(rows: seq<seq<Cell>>): seq<Cell>
    decreases |rows|
  {
    if |rows| == 0 then [] else Flatten(rows[..|rows| - 1]) + rows[|rows| - 1]
  }

  predicate Weeks(rows: seq<seq<Cell>>) {
    forall i :: 0 <= i < |rows| ==> |rows[i]| == 7
  }

  /** Blank cells completing the last row. */
  function Padding(start: nat, count: nat): nat {
    if (start + count) % 7 == 0 then 0 else 7 - (start + count) % 7
  }

  lemma FlattenSnoc(rows: seq<seq<Cell>>, w: seq<Cell>)
    ensures Flatten(rows + [w]) == Flatten(rows) + w
  {
    assert (rows + [w])[..|rows|] == rows;
  }

  /** In a grid of full weeks, cell `7 * i + j` of the flattened grid is row
      `i`, column `j`. */
  lemma {:induction false} FlattenIndex(rows: seq<seq<Cell>>, i: int, j: int)
    requires Weeks(rows) && 0 <= i < |rows| && 0 <= j < 7
    ensures |Flatten(rows)| == 7 * |rows|
    ensures Flatten(rows)[7 * i + j] == rows[i][j]
    decreases |rows|
  {
    var pre := rows[..|rows| - 1];
    FlattenLength(pre);
    if i < |rows| - 1 {
      FlattenIndex(pre, i, j);
    }
  }

  lemma {:induction false} FlattenLength(rows: seq<seq<Cell>>)
    requires Weeks(rows)
    ensures |Flatten(rows)| == 7 * |rows|
    decreases |rows|
  {
    if |rows| > 0 {
      FlattenLength(rows[..|rows| - 1]);
    }
  }

  /** Row and column of day `d` in a grid whose first day sits in column `start`. */
  function Row(start: int, d: int): int { (start + d - 1) / 7 }
  function Column(start: int, d: int): int { (start + d - 1) % 7 }

  /** Where the days land in a grid laid out as the calendar lays it out. */
  lemma GridCells(rows: seq<seq<Cell>>, start: nat, count: nat)
    requires Weeks(rows)
    requires Flatten(rows) == Blanks(start) + Days(count) + Blanks(Padding(start, count))
    ensures forall d :: 1 <= d <= count ==> Row(start, d) < |rows| && rows[Row(start, d)][Column(start, d)] == Some(d)
  {
    FlattenLength(rows);
    var cells := Blanks(start) + Days(count) + Blanks(Padding(start, count));
    forall d | 1 <= d <= count
      ensures Row(start, d) < |rows| && rows[Row(start, d)][Column(start, d)] == Some(d)
    {
      var k := start + d - 1;
      assert k == 7 * Row(start, d) + Column(start, d);
      FlattenIndex(rows, Row(start, d), Column(start, d));
      assert cells[k] == Days(count)[d - 1];
    }
  }

  /** Closing the last, partial week with blanks. */
  lemma ClosePartialWeek(rows: seq<seq<Cell>>, week: seq<Cell>, start: nat, count: nat)
    requires Weeks(rows) && 0 < |week| < 7
    requires Flatten(rows) + week == Blanks(start) + Days(count)
    ensures Weeks(rows + [week + Blanks(7 - |week|)])
    ensures Flatten(rows + [week + Blanks(7 - |week|)]) == Blanks(start) + Days(count) + Blanks(Padding(start, count))
  {
    FlattenLength(rows);
    assert |week| == (start + count) % 7;
    FlattenSnoc(rows, week + Blanks(7 - |week|));
  }

  /** The week-row loop of `calendarDays`: `start` leading blanks, the days
      1..count, and blanks up to the end of the last week. */
  method GridRows(start: nat, count: nat) returns (rows: seq<seq<Cell>>)
    requires start < 7 && count >= 1
    ensures Weeks(rows)
    ensures Flatten(rows) == Blanks(start) + Days(count) + Blanks(Padding(start, count))
    ensures forall d :: 1 <= d <= count ==> Row(start, d) < |rows| && rows[Row(start, d)][Column(start, d)] == Some(d)
  {
    rows := [];
    var week := Blanks(start);
    var day := 1;
    while day <= count
      invariant 1 <= day <= count + 1
      invariant |week| < 7
      invariant Weeks(rows)
      invariant Flatten(rows) + week == Blanks(start) + Days(day - 1)
    {
      assert Days(day) == Days(day - 1) + [Some(day)];
      assert Flatten(rows) + (week + [Some(day)]) == (Flatten(rows) + week) + [Some(day)];
      week := week + [Some(day)];
      if |week| == 7 {
        FlattenSnoc(rows, week);
        rows := rows + [week];
        week := [];
      }
      day := day + 1;
    }
    if |week| > 0 {
      ClosePartialWeek(rows, week, start, count);
      rows := rows + [week + Blanks(7 - |week|)];
    } else {
      FlattenLength(rows);
      assert (start + count) % 7 == 0;
    }
    GridCells(rows, start, count);
  }

  // ---------------------------------------------------------------------------
  // The calendar screen

  /** Days in each month, February always 28 (the 2025 calendar). */
  const DaysInMonth: seq<int> := [31, 28, 31, 30, 31, 30, 31, 31, 30, 31, 30, 31]
  /** Weekday of the 1st of each month in 2025, Monday = 0. */
  const MonthStartDays: seq<int> := [2, 5, 5, 1, 3, 6, 1, 4, 0, 2, 5, 0]
  const DayNames: seq<string> := ["Monday", "Tuesday", "Wednesday", "Thursday", "Friday", "Saturday", "Sunday"]

  /** `calendarDays` of the calendar screen: the fixed tables decide, whatever the year. */
  method CalendarDays(monthIndex: int) returns (rows: seq<seq<Cell>>)
    requires 0 <= monthIndex < 12
    ensures Weeks(rows)
    ensures var start := MonthStartDays[monthIndex]; var count := DaysInMonth[monthIndex];
      Flatten(rows) == Blanks(start) + Days(count) + Blanks(Padding(start, count))
    ensures forall d :: 1 <= d <= DaysInMonth[monthIndex] ==>
      var start := MonthStartDays[monthIndex];
      Row(start, d) < |rows| && rows[Row(start, d)][Column(start, d)] == Some(d)
  {
    rows := GridRows(MonthStartDays[monthIndex], DaysInMonth[monthIndex]);
  }

  /** `dayName`. Swift's `%` keeps the dividend's sign, so a selected day below
      one gives a negative index, where the array subscript traps; the model
      answers `None` there instead of trapping. */
  function DayName(monthIndex: int, selected: int): (r: Option<string>)
    requires 0 <= monthIndex < 12
    ensures selected >= 1 ==> r.Some? && r.value == DayNames[(MonthStartDays[monthIndex] + selected - 1) % 7]
    ensures r.None? <==> SwiftArith.TruncMod(MonthStartDays[monthIndex] + selected - 1, 7) < 0
  {
    var k := SwiftArith.TruncMod(MonthStartDays[monthIndex] + selected - 1, 7);
    if k < 0 then None else Some(DayNames[k])
  }

  /** The weekday named for a day is the grid column the day sits in. */
  lemma DayNameMatchesColumn(monthIndex: int, d: int)
    requires 0 <= monthIndex < 12 && 1 <= d <= DaysInMonth[monthIndex]
    ensures DayName(monthIndex, d) == Some(DayNames[(MonthStartDays[monthIndex] + d - 1) % 7])
    ensures 0 <= (MonthStartDays[monthIndex] + d - 1) % 7 < 7
  {
  }

  /** The month on display and the selected day. */
  datatype MonthView = MonthView(monthIndex: int, year: int, selectedDate: int)

  /** `previousMonth`. */
  function PreviousMonth(v: MonthView): (r: MonthView)
    ensures r.selectedDate == 1
    ensures v.monthIndex > 0 ==> r.monthIndex == v.monthIndex - 1 && r.year == v.year
    ensures v.monthIndex <= 0 ==> r.monthIndex == 11 && r.year == v.year - 1
  {
    if v.monthIndex > 0 then MonthView(v.monthIndex - 1, v.year, 1)
    else MonthView(11, v.year - 1, 1)
  }

  /** `nextMonth`. */
  function NextMonth(v: MonthView): (r: MonthView)
    ensures r.selectedDate == 1
    ensures v.monthIndex < 11 ==> r.monthIndex == v.monthIndex + 1 && r.year == v.year
    ensures v.monthIndex >= 11 ==> r.monthIndex == 0 && r.year == v.year + 1
  {
    if v.monthIndex < 11 then MonthView(v.monthIndex + 1, v.year, 1)
    else MonthView(0, v.year + 1, 1)
  }

  /** The month index stays in 0..11 under navigation. */
  lemma NavigationKeepsMonthInRange(v: MonthView)
    requires 0 <= v.monthIndex < 12
    ensures 0 <= NextMonth(v).monthIndex < 12 && 0 <= PreviousMonth(v).monthIndex < 12
  {
  }

  /** Navigation is a bijection on (month, year): back undoes forward and forward undoes back. */
  lemma NavigationRoundTrip(v: MonthView)
    requires 0 <= v.monthIndex < 12
    ensures PreviousMonth(NextMonth(v)) == v.(selectedDate := 1)
    ensures NextMonth(PreviousMonth(v)) == v.(selectedDate := 1)
  {
  }

  /** Twelve steps forward per year reach the same month, that many years on. */
  lemma StepsOverYears(v: MonthView, k: nat)
    requires 0 <= v.monthIndex < 12 && k > 0
    ensures Iterate(v, 12 * k) == MonthView(v.monthIndex, v.year + k, 1)
  {
    var n := 12 * k;
    IterateShape(v, n);
    assert (v.monthIndex + n) % 12 == v.monthIndex && (v.monthIndex + n) / 12 == k;
  }

  function Iterate(v: MonthView, n: nat): MonthView
    decreases n
  {
    if n == 0 then v else NextMonth(Iterate(v, n - 1))
  }

  /** After `n` steps the month is `n` further on, carried into the year. */
  lemma {:induction false} IterateShape(v: MonthView, n: nat)
    requires 0 <= v.monthIndex < 12
    ensures n > 0 ==> Iterate(v, n) == MonthView((v.monthIndex + n) % 12, v.year + (v.monthIndex + n) / 12, 1)
    decreases n
  {
    if n > 1 {
      IterateShape(v, n - 1);
    }
  }

  // ---------------------------------------------------------------------------
  // Task density

  /** The calendar parts of a parsed date string. */
  datatype DateParts = DateParts(year: int, month: int, day: int)

  /** The date strings a task puts on the calendar: its due date, then its
      reminders' times in order. */
  function TaskEvents(t: TaskLists.Task): (r: seq<string>)
    ensures |r| == |t.reminders| + (if t.dueDate.Some? then 1 else 0)
    ensures t.dueDate.Some? ==> r[0] == t.dueDate.value
    ensures forall i :: 0 <= i < |t.reminders| ==>
      r[|r| - |t.reminders| + i] == t.reminders[i].reminderTime
  {
    (if t.dueDate.Some? then [t.dueDate.value] else [])
      + seq(|t.reminders|, i requires 0 <= i < |t.reminders| => t.reminders[i].reminderTime)
  }

  /** Every due date and every reminder time of `tasks` is in `r`. */
  ghost predicate ListsAll(tasks: seq<TaskLists.Task>, r: seq<string>) {
    && (forall k :: 0 <= k < |tasks| && tasks[k].dueDate.Some? ==> tasks[k].dueDate.value in r)
    && (forall k, i :: 0 <= k < |tasks| && 0 <= i < |tasks[k].reminders| ==>
          tasks[k].reminders[i].reminderTime in r)
  }

  /** Everything in `r` is an event of one of `tasks`. */
  ghost predicate OnlyFrom(tasks: seq<TaskLists.Task>, r: seq<string>) {
    forall e :: e in r ==> exists k :: 0 <= k < |tasks| && e in TaskEvents(tasks[k])
  }

  /** Every task's events, task by task in list order. */
  function Events(tasks: seq<TaskLists.Task>): seq<string>
    decreases |tasks|
  {
    if |tasks| == 0 then []
    else Events(tasks[..|tasks| - 1]) + TaskEvents(tasks[|tasks| - 1])
  }

  /** Each due date and each reminder time of the tasks is an event, and
      nothing else is. */
  lemma {:induction false} EventsComplete(tasks: seq<TaskLists.Task>)
    ensures ListsAll(tasks, Events(tasks)) && OnlyFrom(tasks, Events(tasks))
    decreases |tasks|
  {
    if |tasks| > 0 {
      var pre, t := tasks[..|tasks| - 1], tasks[|tasks| - 1];
      EventsComplete(pre);
      EventsSnoc(pre, t, Events(pre));
      SplitLast(tasks);
    }
  }

  lemma EventsSnoc(pre: seq<TaskLists.Task>, t: TaskLists.Task, r: seq<string>)
    requires ListsAll(pre, r) && OnlyFrom(pre, r)
    ensures ListsAll(pre + [t], r + TaskEvents(t)) && OnlyFrom(pre + [t], r + TaskEvents(t))
  {
    var ts := pre + [t];
    var r' := r + TaskEvents(t);
    forall k | 0 <= k < |ts| && ts[k].dueDate.Some? ensures ts[k].dueDate.value in r' {
      if k < |pre| { assert ts[k] == pre[k]; }
      else { assert r'[|r|] == t.dueDate.value; }
    }
    forall k, i | 0 <= k < |ts| && 0 <= i < |ts[k].reminders|
      ensures ts[k].reminders[i].reminderTime in r'
    {
      if k < |pre| { assert ts[k] == pre[k]; }
      else {
        var te := TaskEvents(t);
        assert r'[|r| + |te| - |t.reminders| + i] == te[|te| - |t.reminders| + i];
      }
    }
    forall e | e in r' ensures exists k :: 0 <= k < |ts| && e in TaskEvents(ts[k]) {
      if e in r {
        var k :| 0 <= k < |pre| && e in TaskEvents(pre[k]);
        assert ts[k] == pre[k];
      } else {
        assert ts[|pre|] == t;
      }
    }
  }

  /** The events of two task lists together are the first list's, then the
      second's. */
  lemma {:induction false} EventsAppend(a: seq<TaskLists.Task>, b: seq<TaskLists.Task>)
    ensures Events(a + b) == Events(a) + Events(b)
    decreases |b|
  {
    if |b| == 0 {
      assert a + b == a;
    } else {
      var b', t := b[..|b| - 1], b[|b| - 1];
      EventsAppend(a, b');
      assert (a + b)[..|a + b| - 1] == a + b';
      assert (a + b)[|a + b| - 1] == t;
      AppendAssoc(Events(a), Events(b'), TaskEvents(t));
    }
  }

  lemma SplitLast<T>(s: seq<T>)
    requires |s| > 0
    ensures s == s[..|s| - 1] + [s[|s| - 1]]
  {
  }

  lemma AppendAssoc<T>(x: seq<T>, y: seq<T>, z: seq<T>)
    ensures (x + y) + z == x + (y + z)
  {
  }

  /** Event `e` falls on day `d` of the displayed month. */
  predicate Hit(e: string, parse: string -> Option<DateParts>, v: MonthView, d: int) {
    parse(e).Some? && parse(e).value.month == v.monthIndex + 1
      && parse(e).value.year == v.year && parse(e).value.day == d
  }

  /** How many events fall on day `d`. */
  function CountOn(evs: seq<string>, parse: string -> Option<DateParts>, v: MonthView, d: int): (n: nat)
    ensures n > 0 <==> exists i :: 0 <= i < |evs| && Hit(evs[i], parse, v, d)
    ensures n <= |evs|
    decreases |evs|
  {
    if |evs| == 0 then 0
    else
      var pre := evs[..|evs| - 1];
      assert forall i :: 0 <= i < |pre| ==> pre[i] == evs[i];
      CountOn(pre, parse, v, d) + (if Hit(evs[|evs| - 1], parse, v, d) then 1 else 0)
  }

  /** `taskDensityByDay`: for every day with an event, how many. */
  function Density(evs: seq<string>, parse: string -> Option<DateParts>, v: MonthView): (m: map<int, int>)
    ensures forall d :: d in m <==> CountOn(evs, parse, v, d) > 0
    ensures forall d :: d in m ==> m[d] == CountOn(evs, parse, v, d)
    decreases |evs|
  {
    if |evs| == 0 then map[]
    else
      var pre := evs[..|evs| - 1];
      var rest := Density(pre, parse, v);
      var e := evs[|evs| - 1];
      if parse(e).Some? && parse(e).value.month == v.monthIndex + 1 && parse(e).value.year == v.year then
        var d := parse(e).value.day;
        rest[d := (if d in rest then rest[d] else 0) + 1]
      else rest
  }

  /** `daysWithTasks`. */
  function DaysWithTasks(evs: seq<string>, parse: string -> Option<DateParts>, v: MonthView): (s: set<int>)
    ensures forall d :: d in s ==> exists i :: 0 <= i < |evs| && Hit(evs[i], parse, v, d)
    ensures forall i, d :: 0 <= i < |evs| && Hit(evs[i], parse, v, d) ==> d in s
    decreases |evs|
  {
    if |evs| == 0 then {}
    else
      var pre := evs[..|evs| - 1];
      assert forall i :: 0 <= i < |pre| ==> pre[i] == evs[i];
      var rest := DaysWithTasks(pre, parse, v);
      var e := evs[|evs| - 1];
      if parse(e).Some? && parse(e).value.month == v.monthIndex + 1 && parse(e).value.year == v.year then
        rest + {parse(e).value.day}
      else rest
  }

  /** A day is marked exactly when its density is positive. */
  lemma MarkedIffDense(evs: seq<string>, parse: string -> Option<DateParts>, v: MonthView, d: int)
    ensures d in DaysWithTasks(evs, parse, v) <==> d in Density(evs, parse, v) && Density(evs, parse, v)[d] > 0
  {
  }

  datatype Heat = Clear | Light | Medium | Dark

  /** `heatmapColor(for:)`, as its intensity. */
  function HeatmapColor(density: map<int, int>, day: int): (h: Heat)
    ensures h == Clear <==> day !in density
  {
    if day !in density then Clear
    else
      var n := density[day];
      if 1 <= n <= 2 then Light else if 3 <= n <= 4 then Medium else Dark
  }

  /** Over a real density map, the intensity grows with the count: 1-2, 3-4, 5 and more. */
  lemma HeatBuckets(evs: seq<string>, parse: string -> Option<DateParts>, v: MonthView, d: int)
    ensures var n := CountOn(evs, parse, v, d); var h := HeatmapColor(Density(evs, parse, v), d);
      && (n == 0 <==> h == Clear)
      && (1 <= n <= 2 <==> h == Light)
      && (3 <= n <= 4 <==> h == Medium)
      && (n >= 5 <==> h == Dark)
  {
  }

  // ---------------------------------------------------------------------------
  // The home-screen widget

  /** Monday-first column of the 1st, from the calendar's weekday (Sunday = 1). */
  function WidgetStartDay(firstWeekday: int): (r: int)
    requires 1 <= firstWeekday <= 7
    ensures 0 <= r < 7
    ensures firstWeekday == 2 ==> r == 0
    ensures firstWeekday == 1 ==> r == 6
  {
    (firstWeekday + 5) % 7
  }

  /** `CalendarWidget.calendarDays`; `month` is `None` when the calendar cannot
      give the month's first day or length. */
  method WidgetCalendarDays(month: Option<(int, int)>) returns (rows: seq<seq<Cell>>)
    requires month.Some? ==> 1 <= month.value.0 <= 7 && month.value.1 >= 1
    ensures month.None? ==> rows == []
    ensures Weeks(rows)
    ensures month.Some? ==>
      var start := WidgetStartDay(month.value.0); var count := month.value.1;
      Flatten(rows) == Blanks(start) + Days(count) + Blanks(Padding(start, count))
  {
    if month.None? {
      rows := [];
    } else {
      rows := GridRows(WidgetStartDay(month.value.0), month.value.1);
    }
  }
}
